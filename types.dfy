/**
  * The records the core reads and writes, after src/types/expedition.ts,
  * src/types/gameplay.ts, src/types/config.ts and src/types/auth.ts.
  * Dates are integer timestamps; optional and nullable fields are `Option`s.
  */
module Types {
  import opened Wrappers

  datatype EstadoExpedicion = Pendiente | EnCurso | Completada | Cancelada

  datatype Expedicion = Expedicion(
    id: int,
    organizadorId: string,
    organizadorNombre: string,
    fecha: string,
    estado: EstadoExpedicion,
    pisoActual: int,
    notas: Option<string>,
    createdAt: int,
    updatedAt: int)

  datatype Participacion = Participacion(
    id: int,
    expedicionId: int,
    usuarioId: string,
    usuarioNombre: string,
    nombrePersonaje: string,
    oroAcumulado: int,
    activo: bool,
    salaSalida: Option<int>)

  /** A registered user as listed by the user service (`discord_id` identifies it). */
  datatype User = User(discordId: string, nombre: string, rol: string, createdAt: int)

  /** One floor of the configuration: its number and the tier it belongs to. */
  datatype Piso = Piso(numero: int, tierId: int, tierNumero: int, bonusRecompensa: int, numHabitacionesComunes: int)

  /** `HabitacionLayout`: one generated room of the current floor. */
  datatype Habitacion = Habitacion(id: int, orden: int, tipoHabitacionId: int, tipoNombre: string, completada: bool)

  datatype GenerarLayoutRequest = GenerarLayoutRequest(expedicionId: int, piso: int, incluirBonus: bool, incluirEvento: bool)

  datatype LayoutResponse = LayoutResponse(expedicionId: int, piso: int, totalHabitaciones: int, habitaciones: seq<Habitacion>)

  datatype Enemigo = Enemigo(nombre: string, maxCantidad: int)

  datatype EncounterResponse = EncounterResponse(
    piso: int,
    tipoHabitacionId: int,
    tirada: int,
    cantidadTotal: nat,
    enemigos: seq<Enemigo>)

  datatype TipoResultado = Nada | Oro | Subtabla

  datatype RewardResponse = RewardResponse(
    tiradaOriginal: int,
    tiradaConBonus: int,
    tipoResultado: TipoResultado,
    dadosOro: Option<string>,
    requiereSubtabla: bool,
    itemNombre: Option<string>,
    descripcion: string)

  datatype ItemPendiente = ItemPendiente(
    indice: int,
    tiradaD20: int,
    tiradaSubtabla: Option<int>,
    subtablaNombre: string,
    itemId: int,
    itemNombre: string,
    modificadorTier: int)

  datatype ProcesarRecompensasResponse = ProcesarRecompensasResponse(
    historialHabitacionId: int,
    piso: int,
    tipoHabitacionId: int,
    resultados: seq<RewardResponse>,
    itemsPendientes: seq<ItemPendiente>,
    oroDados: seq<string>)

  /** `tirada_subtabla` of a reward roll: left out (`undefined`), or the result of `parseInt` (`NaN` is `None`). */
  datatype SubtablaRoll = Absent | Parsed(value: Option<int>)

  datatype RewardRoll = RewardRoll(tiradaD20: int, tiradaSubtabla: SubtablaRoll)

  datatype ProcesarRecompensasRequest = ProcesarRecompensasRequest(historialHabitacionId: int, tiradas: seq<RewardRoll>)

  datatype AsignarItemRequest = AsignarItemRequest(
    historialHabitacionId: int,
    participacionId: int,
    itemId: int,
    modificadorTier: int,
    tiradaOriginal: int,
    tiradaSubtabla: Option<int>)

  datatype RepartirOroRequest = RepartirOroRequest(historialHabitacionId: int, expedicionId: int, oroTotal: int)

  datatype RepartoOro = RepartoOro(participacionId: int, nombrePersonaje: string, oro: int)

  /** The body of `addParticipacion`. */
  datatype NewParticipacion = NewParticipacion(usuarioId: string, nombrePersonaje: string)

  /** The body of `expeditionService.update`. */
  datatype UpdateExpedicion = UpdateExpedicion(estado: Option<EstadoExpedicion>, pisoActual: Option<int>, notas: Option<string>)
}
