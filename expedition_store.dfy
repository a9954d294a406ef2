/**
  * The gameplay store of src/stores/expedition.store.ts: the active
  * expedition, its roster, the rooms of the current floor, the focused room,
  * the phase, and the last encounter and reward results.
  */
module ExpeditionStore {
  import opened Wrappers
  import opened Types

  datatype GamePhase =
    | Setup
    | FloorSelect
    | RoomList
    | Encounter
    | Rewards
    | AssignItems
    | DistributeGold
    | RoomComplete

  /** Every field of the store at one moment. */
  datatype StoreState = StoreState(
    activeExpedition: Option<Expedicion>,
    participants: seq<Participacion>,
    currentFloor: Option<int>,
    habitaciones: seq<Habitacion>,
    currentHabitacionIndex: int,
    phase: GamePhase,
    encounterResult: Option<EncounterResponse>,
    rewardsResult: Option<ProcesarRecompensasResponse>)

  /** The state the store is created with and that `reset` restores. */
  const INITIAL: StoreState :=
    StoreState(None, [], None, [], 0, Setup, None, None)

  /**
    * The room list after `markHabitacionCompleted(index)`: room `index` is
    * completed when it exists; an index outside the list changes nothing.
    */
  function MarkCompleted(rooms: seq<Habitacion>, index: int): (r: seq<Habitacion>)
    ensures |r| == |rooms|
    ensures 0 <= index < |rooms| ==> r[index] == rooms[index].(completada := true)
    ensures forall k :: 0 <= k < |rooms| && k != index ==> r[k] == rooms[k]
  {
    if 0 <= index < |rooms| then rooms[index := rooms[index].(completada := true)] else rooms
  }

  /** Marking never clears a `completada` flag and only ever adds the one of room `index`. */
  lemma MarkCompletedMonotone(rooms: seq<Habitacion>, index: int)
    ensures forall k :: 0 <= k < |rooms| && rooms[k].completada ==> MarkCompleted(rooms, index)[k].completada
    ensures forall k :: 0 <= k < |rooms| && MarkCompleted(rooms, index)[k].completada ==> rooms[k].completada || k == index
  {
  }

  /** Marking the same room twice is marking it once. */
  lemma MarkCompletedIdempotent(rooms: seq<Habitacion>, index: int)
    ensures MarkCompleted(MarkCompleted(rooms, index), index) == MarkCompleted(rooms, index)
  {
  }

  /** A room is a candidate for `nextHabitacion` from `current`: after it and not completed. */
  predicate IsNextCandidate(rooms: seq<Habitacion>, current: int, k: int) {
    0 <= k < |rooms| && k > current && !rooms[k].completada
  }

  /**
    * `habitaciones.findIndex((h, i) => i > current && !h.completada)`:
    * the smallest index after `current` whose room is not completed (`None` for -1).
    */
  function NextIndex(rooms: seq<Habitacion>, current: int): (r: Option<nat>)
    ensures r.Some? ==> IsNextCandidate(rooms, current, r.value)
    ensures r.Some? ==> forall k :: 0 <= k < r.value ==> !IsNextCandidate(rooms, current, k)
    ensures r.None? ==> forall k :: 0 <= k < |rooms| ==> !IsNextCandidate(rooms, current, k)
  {
    FindFrom(rooms, current, 0)
  }

  function FindFrom(rooms: seq<Habitacion>, current: int, i: nat): (r: Option<nat>)
    requires i <= |rooms|
    ensures r.Some? ==> i <= r.value && IsNextCandidate(rooms, current, r.value)
    ensures r.Some? ==> forall k :: i <= k < r.value ==> !IsNextCandidate(rooms, current, k)
    ensures r.None? ==> forall k :: i <= k < |rooms| ==> !IsNextCandidate(rooms, current, k)
    decreases |rooms| - i
  {
    if i == |rooms| then None
    else if IsNextCandidate(rooms, current, i) then Some(i)
    else FindFrom(rooms, current, i + 1)
  }

  /**
    * The search only looks after `current`, so completing room `current` does
    * not change its answer: a search on the list before the mark finds what a
    * search after it finds.
    */
  lemma NextIndexIgnoresCurrent(rooms: seq<Habitacion>, current: int)
    ensures NextIndex(MarkCompleted(rooms, current), current) == NextIndex(rooms, current)
  {
    var marked := MarkCompleted(rooms, current);
    assert forall k :: IsNextCandidate(marked, current, k) <==> IsNextCandidate(rooms, current, k);
  }

  class Store {
    var activeExpedition: Option<Expedicion>
    var participants: seq<Participacion>
    var currentFloor: Option<int>
    var habitaciones: seq<Habitacion>
    var currentHabitacionIndex: int
    var phase: GamePhase
    var encounterResult: Option<EncounterResponse>
    var rewardsResult: Option<ProcesarRecompensasResponse>

    function State(): StoreState
      reads this
    {
      StoreState(activeExpedition, participants, currentFloor, habitaciones,
                 currentHabitacionIndex, phase, encounterResult, rewardsResult)
    }

    constructor ()
      ensures State() == INITIAL
    {
      activeExpedition, participants, currentFloor, habitaciones := None, [], None, [];
      currentHabitacionIndex, phase, encounterResult, rewardsResult := 0, Setup, None, None;
    }

    method SetActiveExpedition(exp: Expedicion)
      modifies this
      ensures State() == old(State()).(activeExpedition := Some(exp))
    {
      activeExpedition := Some(exp);
    }

    method SetParticipants(parts: seq<Participacion>)
      modifies this
      ensures State() == old(State()).(participants := parts)
    {
      participants := parts;
    }

    /** `setFloor`: installs a new room list wholesale and returns to the room list at its first room. */
    method SetFloor(floor: int, rooms: seq<Habitacion>)
      modifies this
      ensures State() == old(State()).(currentFloor := Some(floor), habitaciones := rooms,
                                       currentHabitacionIndex := 0, phase := RoomList)
    {
      currentFloor := Some(floor);
      habitaciones := rooms;
      currentHabitacionIndex := 0;
      phase := RoomList;
    }

    method SetPhase(p: GamePhase)
      modifies this
      ensures State() == old(State()).(phase := p)
    {
      phase := p;
    }

    method SetCurrentHabitacionIndex(index: int)
      modifies this
      ensures State() == old(State()).(currentHabitacionIndex := index)
    {
      currentHabitacionIndex := index;
    }

    method SetEncounterResult(result: Option<EncounterResponse>)
      modifies this
      ensures State() == old(State()).(encounterResult := result)
    {
      encounterResult := result;
    }

    method SetRewardsResult(result: Option<ProcesarRecompensasResponse>)
      modifies this
      ensures State() == old(State()).(rewardsResult := result)
    {
      rewardsResult := result;
    }

    /** `markHabitacionCompleted(index)`: copies the list and overwrites one slot, if it exists. */
    method MarkHabitacionCompleted(index: int)
      modifies this
      ensures State() == old(State()).(habitaciones := MarkCompleted(old(habitaciones), index))
    {
      var rooms := habitaciones;
      if 0 <= index < |rooms| {
        rooms := rooms[index := rooms[index].(completada := true)];
        habitaciones := rooms;
      }
    }

    /**
      * `nextHabitacion`: focuses the first uncompleted room after the current
      * one, back in the room list with no results; with no such room nothing changes.
      */
    method NextHabitacion()
      modifies this
      ensures match NextIndex(old(habitaciones), old(currentHabitacionIndex))
              case Some(next) =>
                State() == old(State()).(currentHabitacionIndex := next, phase := RoomList,
                                         encounterResult := None, rewardsResult := None)
              case None => State() == old(State())
    {
      var next := NextIndex(habitaciones, currentHabitacionIndex);
      if next.Some? {
        currentHabitacionIndex := next.value;
        phase := RoomList;
        encounterResult := None;
        rewardsResult := None;
      }
    }

    /** `reset`: back to exactly the initial state. */
    method Reset()
      modifies this
      ensures State() == INITIAL
    {
      activeExpedition, participants, currentFloor, habitaciones := None, [], None, [];
      currentHabitacionIndex, phase, encounterResult, rewardsResult := 0, Setup, None, None;
    }
  }
}
