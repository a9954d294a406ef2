/**
  * The gameplay page of src/pages/GameplayPage.tsx: the handlers that drive a
  * room from its encounter roll through rewards, item assignment and gold to
  * completion, on top of the expedition store.
  *
  * Every service call is an input: an `Outcome` (the response or a failure),
  * or a `bool` for calls whose response is not used. The handler returns the
  * request it sent, or `None` when it returned before calling. A handler
  * reached only through a button of one phase's section `requires` that phase.
  */
module Gameplay {
  import opened Wrappers
  import opened Strings
  import opened Types
  import opened Seqs
  import opened Dice
  import opened D20Roller
  import opened Roster
  import opened ExpeditionStore

  /** One row of the reward-roll form: the two inputs as typed. */
  datatype TiradaInput = TiradaInput(d20: string, subtabla: string)

  /** The step shown inside the encounter phase. */
  datatype EncounterStep = RollStep | ResultsStep | RewardsStep

  /** What the page loads on mount: the expedition, its roster, the floors and the users. */
  datatype Loaded = Loaded(expedicion: Expedicion, participaciones: seq<Participacion>, pisos: seq<Piso>, users: seq<User>)

  /** The body of `resolverEncuentroHabitacion`. */
  datatype EncounterCall = EncounterCall(historialHabitacionId: int, tirada: int)

  /** A call of `expeditionService.update(id, body)`. */
  datatype UpdateCall = UpdateCall(expedicionId: int, body: UpdateExpedicion)

  /** A call of `addParticipacion(parseInt(id), body)`; `None` is `NaN`. */
  datatype AddCall = AddCall(expedicionId: Option<int>, body: NewParticipacion)

  /** The page's own state fields (the `useState` hooks the handlers write). */
  datatype PageState = PageState(
    pisos: seq<Piso>,
    users: seq<User>,
    includeBonus: bool,
    includeEvento: bool,
    rewardTiradas: seq<TiradaInput>,
    itemAssignments: map<int, Option<int>>,
    goldTotal: string,
    goldRollResult: Option<int>,
    goldResults: seq<RepartoOro>,
    newFloor: string,
    showAddReplacement: bool,
    replacementUserId: string,
    replacementCharName: string,
    encounterStep: EncounterStep)

  const INITIAL_PAGE: PageState :=
    PageState([], [], false, false, [], map[], "", None, [], "", false, "", "", RollStep)

  /** `resetRoomState`: the per-room buffers emptied, the encounter back at its first step. */
  function ClearRoom(ps: PageState): PageState {
    ps.(rewardTiradas := [], itemAssignments := map[], goldTotal := "", goldRollResult := None,
        goldResults := [], encounterStep := RollStep)
  }

  // ----- derived values -----

  /** `habitaciones[index] || null`: the room at that index, or none when it is out of range. */
  function CurrentHabitacion(rooms: seq<Habitacion>, index: int): (r: Option<Habitacion>)
    ensures r.Some? <==> 0 <= index < |rooms|
    ensures r.Some? ==> r.value == rooms[index]
  {
    if 0 <= index < |rooms| then Some(rooms[index]) else None
  }

  predicate IsCompleted(h: Habitacion) {
    h.completada
  }

  /** `habitaciones.filter((h) => h.completada).length`. */
  function CompletedCount(rooms: seq<Habitacion>): (n: nat)
    ensures n <= |rooms|
  {
    |Filter(rooms, IsCompleted)|
  }

  /** Completing an uncompleted room adds one to the count; any other mark leaves it. */
  lemma {:induction false} CompletedCountMark(rooms: seq<Habitacion>, index: int)
    ensures CompletedCount(MarkCompleted(rooms, index))
            == CompletedCount(rooms) + (if 0 <= index < |rooms| && !rooms[index].completada then 1 else 0)
  {
    if 0 <= index < |rooms| {
      var marked := MarkCompleted(rooms, index);
      FilterLengthStep(rooms, IsCompleted);
      FilterLengthStep(marked, IsCompleted);
      if index == 0 {
        assert marked[1..] == rooms[1..];
      } else {
        assert marked[1..] == MarkCompleted(rooms[1..], index - 1);
        CompletedCountMark(rooms[1..], index - 1);
      }
    }
  }

  /** The "floor completed" panel: some rooms, all of them completed. */
  predicate FloorComplete(rooms: seq<Habitacion>) {
    |rooms| > 0 && forall k :: 0 <= k < |rooms| ==> rooms[k].completada
  }

  /** The panel shows exactly when the counter reads n/n with n > 0. */
  lemma FloorCompleteCount(rooms: seq<Habitacion>)
    ensures FloorComplete(rooms) <==> |rooms| > 0 && CompletedCount(rooms) == |rooms|
  {
    FilterKeepsLength(rooms, IsCompleted);
  }

  // ----- reward rolls -----

  /** `Array.from({ length: n }, () => ({ d20: '', subtabla: '' }))`. */
  function EmptyTiradas(n: nat): (r: seq<TiradaInput>)
    ensures |r| == n
    ensures forall k :: 0 <= k < n ==> r[k].d20 == "" && r[k].subtabla == ""
  {
    seq(n, _ => TiradaInput("", ""))
  }

  /** `parseInt(t.d20) || 0`: the parsed value, with `NaN` read as 0. */
  function D20Value(text: string): int {
    ParseInt(text).GetOr(0)
  }

  /** `t.subtabla ? parseInt(t.subtabla) : undefined`. */
  function SubtablaValue(text: string): (r: SubtablaRoll)
    ensures r.Absent? <==> text == ""
    ensures r.Parsed? ==> r.value == ParseInt(text)
  {
    if text == "" then Absent else Parsed(ParseInt(text))
  }

  /** The `tiradas` of the reward request: one roll per row, in row order. */
  function ToRewardRolls(ts: seq<TiradaInput>): (r: seq<RewardRoll>)
    ensures |r| == |ts|
    ensures forall k :: 0 <= k < |ts| ==> r[k].tiradaD20 == D20Value(ts[k].d20)
    ensures forall k :: 0 <= k < |ts| ==> r[k].tiradaSubtabla == SubtablaValue(ts[k].subtabla)
  {
    seq(|ts|, k requires 0 <= k < |ts| => RewardRoll(D20Value(ts[k].d20), SubtablaValue(ts[k].subtabla)))
  }

  /** Every row's d20 reads as a value in 1..20. */
  predicate RollsValid(ts: seq<TiradaInput>) {
    forall k :: 0 <= k < |ts| ==> 1 <= D20Value(ts[k].d20) <= 20
  }

  /** A reward row is accepted by exactly the texts the d20 widget accepts by hand. */
  lemma RewardRowLikeManual(text: string)
    ensures 1 <= D20Value(text) <= 20 <==> AcceptedManual(text).Some?
  {
  }

  /** The submit button is disabled while some d20 is empty; such a form would be rejected anyway. */
  predicate ProcessDisabled(ts: seq<TiradaInput>) {
    exists k :: 0 <= k < |ts| && ts[k].d20 == ""
  }

  lemma DisabledProcessRejected(ts: seq<TiradaInput>)
    ensures ProcessDisabled(ts) ==> !RollsValid(ts)
  {
  }

  /**
    * `handleAutoRollAll`: every row with an empty d20 gets `String(rollD20())`
    * for its draw; rows already filled and every `subtabla` are kept.
    */
  function AutoFill(ts: seq<TiradaInput>, draws: seq<RandomValue>): (r: seq<TiradaInput>)
    requires |draws| == |ts|
    ensures |r| == |ts|
    ensures forall k :: 0 <= k < |ts| ==> r[k].subtabla == ts[k].subtabla
    ensures forall k :: 0 <= k < |ts| && ts[k].d20 != "" ==> r[k] == ts[k]
    ensures forall k :: 0 <= k < |ts| && ts[k].d20 == "" ==> r[k].d20 == ShowInt(RollD20(draws[k]))
  {
    seq(|ts|, k requires 0 <= k < |ts| =>
      if ts[k].d20 == "" then ts[k].(d20 := ShowInt(RollD20(draws[k]))) else ts[k])
  }

  /** After auto-roll no d20 is empty, each filled one reads in 1..20, and a form whose typed d20s were valid is now valid. */
  lemma AutoFillValid(ts: seq<TiradaInput>, draws: seq<RandomValue>)
    requires |draws| == |ts|
    ensures forall k :: 0 <= k < |ts| ==> AutoFill(ts, draws)[k].d20 != ""
    ensures forall k :: 0 <= k < |ts| && ts[k].d20 == "" ==> 1 <= D20Value(AutoFill(ts, draws)[k].d20) <= 20
    ensures (forall k :: 0 <= k < |ts| && ts[k].d20 != "" ==> 1 <= D20Value(ts[k].d20) <= 20)
            ==> RollsValid(AutoFill(ts, draws))
  {
    var r := AutoFill(ts, draws);
    forall k | 0 <= k < |ts| && ts[k].d20 == ""
      ensures r[k].d20 != "" && 1 <= D20Value(r[k].d20) <= 20
    {
      ParseShowInt(RollD20(draws[k]));
    }
  }

  /** The buffer a resolved encounter leaves cannot be submitted as is (when it has rows), but can after auto-roll. */
  lemma FreshBufferNeedsRolls(n: nat, draws: seq<RandomValue>)
    requires |draws| == n
    ensures n > 0 ==> !RollsValid(EmptyTiradas(n))
    ensures RollsValid(AutoFill(EmptyTiradas(n), draws))
  {
    AutoFillValid(EmptyTiradas(n), draws);
    if n > 0 {
      assert D20Value(EmptyTiradas(n)[0].d20) == 0;
    }
  }

  // ----- item assignment -----

  /** `itemAssignments[indice]` is truthy: present, not `NaN`, not 0. */
  predicate Assigned(assignments: map<int, Option<int>>, indice: int) {
    indice in assignments && assignments[indice].Some? && assignments[indice].value != 0
  }

  /** The `asignarItem` body for one pending item and the chosen participation. */
  function RequestFor(roomId: int, participacionId: int, item: ItemPendiente): AsignarItemRequest {
    AsignarItemRequest(roomId, participacionId, item.itemId, item.modificadorTier, item.tiradaD20, item.tiradaSubtabla)
  }

  /** The requests the loop issued, and whether it ran to its end. */
  datatype AssignResult = AssignResult(sent: seq<AsignarItemRequest>, completed: bool)

  /**
    * The loop of `handleAssignItems` over the pending items, `oks[k]` telling
    * whether the call for item k succeeds: it stops before the first
    * unassigned item, or after the first call that fails.
    */
  function AssignRun(roomId: int, items: seq<ItemPendiente>, assignments: map<int, Option<int>>, oks: seq<bool>): AssignResult
    requires |oks| >= |items|
    decreases |items|
  {
    if items == [] then AssignResult([], true)
    else if !Assigned(assignments, items[0].indice) then AssignResult([], false)
    else
      var request := RequestFor(roomId, assignments[items[0].indice].value, items[0]);
      if !oks[0] then AssignResult([request], false)
      else
        var rest := AssignRun(roomId, items[1..], assignments, oks[1..]);
        AssignResult([request] + rest.sent, rest.completed)
  }

  /** The loop runs to its end exactly when every item is assigned and every call succeeds. */
  lemma {:induction false} AssignRunCompleted(roomId: int, items: seq<ItemPendiente>, assignments: map<int, Option<int>>, oks: seq<bool>)
    requires |oks| >= |items|
    ensures AssignRun(roomId, items, assignments, oks).completed
            <==> forall k :: 0 <= k < |items| ==> Assigned(assignments, items[k].indice) && oks[k]
    decreases |items|
  {
    if items != [] && Assigned(assignments, items[0].indice) && oks[0] {
      AssignRunCompleted(roomId, items[1..], assignments, oks[1..]);
      assert forall k :: 1 <= k < |items| ==> items[k] == items[1..][k - 1] && oks[k] == oks[1..][k - 1];
    }
  }

  /**
    * The k-th request carries item k and its chosen participation; every call
    * but the last one issued succeeded; nothing is sent for an unassigned item
    * or after it; a completed run sent one request per item.
    */
  lemma {:induction false} AssignRunSent(roomId: int, items: seq<ItemPendiente>, assignments: map<int, Option<int>>, oks: seq<bool>)
    requires |oks| >= |items|
    ensures var r := AssignRun(roomId, items, assignments, oks);
            && |r.sent| <= |items|
            && (forall k :: 0 <= k < |r.sent| ==>
                  Assigned(assignments, items[k].indice)
                  && r.sent[k] == RequestFor(roomId, assignments[items[k].indice].value, items[k]))
            && (forall k :: 0 <= k < |r.sent| - 1 ==> oks[k])
            && (forall k :: 0 <= k < |items| && !Assigned(assignments, items[k].indice) ==> |r.sent| <= k)
            && (r.completed ==> |r.sent| == |items|)
    decreases |items|
  {
    if items != [] && Assigned(assignments, items[0].indice) && oks[0] {
      AssignRunSent(roomId, items[1..], assignments, oks[1..]);
      assert forall k :: 1 <= k < |items| ==> items[k] == items[1..][k - 1] && oks[k] == oks[1..][k - 1];
    }
  }

  /** One step of the loop: the run from item `i` on, in terms of item `i` and the run after it. */
  lemma AssignRunStep(roomId: int, items: seq<ItemPendiente>, assignments: map<int, Option<int>>, oks: seq<bool>, i: nat)
    requires |oks| >= |items| && i < |items|
    ensures var here := AssignRun(roomId, items[i..], assignments, oks[i..]);
            var next := AssignRun(roomId, items[i + 1..], assignments, oks[i + 1..]);
            here == if !Assigned(assignments, items[i].indice) then AssignResult([], false)
                    else
                      var request := RequestFor(roomId, assignments[items[i].indice].value, items[i]);
                      if !oks[i] then AssignResult([request], false)
                      else AssignResult([request] + next.sent, next.completed)
  {
    assert items[i..][1..] == items[i + 1..] && oks[i..][1..] == oks[i + 1..];
  }

  /** The loop of `handleAssignItems` itself, issuing one call per assigned item until it stops. */
  method AssignPending(roomId: int, items: seq<ItemPendiente>, assignments: map<int, Option<int>>, oks: seq<bool>)
    returns (sent: seq<AsignarItemRequest>, completed: bool)
    requires |oks| >= |items|
    ensures AssignResult(sent, completed) == AssignRun(roomId, items, assignments, oks)
  {
    sent := [];
    var i := 0;
    assert items[0..] == items && oks[0..] == oks;
    while i < |items|
      invariant 0 <= i <= |items|
      invariant var rest := AssignRun(roomId, items[i..], assignments, oks[i..]);
                AssignRun(roomId, items, assignments, oks) == AssignResult(sent + rest.sent, rest.completed)
    {
      AssignRunStep(roomId, items, assignments, oks, i);
      var item := items[i];
      if !Assigned(assignments, item.indice) {
        assert sent + [] == sent;
        return sent, false;
      }
      var request := RequestFor(roomId, assignments[item.indice].value, item);
      var next := AssignRun(roomId, items[i + 1..], assignments, oks[i + 1..]);
      if !oks[i] {
        sent := sent + [request];
        return sent, false;
      }
      assert sent + ([request] + next.sent) == (sent + [request]) + next.sent;
      sent := sent + [request];
      i := i + 1;
    }
    assert AssignRun(roomId, items[i..], assignments, oks[i..]) == AssignResult([], true);
    assert sent + [] == sent;
    completed := true;
  }

  // ----- gold -----

  /** One draw sequence per gold die notation, each long enough for its dice. */
  predicate GoldDraws(dados: seq<string>, draws: seq<seq<RandomValue>>) {
    |draws| == |dados| && forall k :: 0 <= k < |dados| ==> EnoughDraws(dados[k], draws[k])
  }

  /** The sum of `rollDice(dado)` over the gold dice, a never-negative amount. */
  function SumRolls(dados: seq<string>, draws: seq<seq<RandomValue>>): (total: int)
    requires GoldDraws(dados, draws)
    ensures total >= 0
  {
    if dados == [] then 0
    else
      var n := |dados| - 1;
      SumRolls(dados[..n], draws[..n]) + RollValue(dados[n], draws[n])
  }

  /** The loop of `handleRollGoldDice`: `total += rollDice(dado)` for every dado. */
  method RollGoldDice(dados: seq<string>, draws: seq<seq<RandomValue>>) returns (total: int)
    requires GoldDraws(dados, draws)
    ensures total == SumRolls(dados, draws)
    ensures total >= 0
  {
    total := 0;
    for i := 0 to |dados|
      invariant total == SumRolls(dados[..i], draws[..i])
    {
      assert dados[..i + 1][..i] == dados[..i] && draws[..i + 1][..i] == draws[..i];
      var rolled := RollDice(dados[i], draws[i]);
      total := total + rolled;
    }
    assert dados[..|dados|] == dados && draws[..|draws|] == draws;
  }

  /** `parseInt(goldTotal)` when it is a number and not negative: the total `handleDistributeGold` sends. */
  function AcceptedGold(text: string): (r: Option<nat>)
    ensures r.Some? <==> ParseInt(text).Some? && ParseInt(text).value >= 0
    ensures r.Some? ==> r.value == ParseInt(text).value
  {
    match ParseInt(text)
    case Some(n) => if n < 0 then None else Some(n)
    case None => None
  }

  /** The text that the gold roll writes into the total is accepted, with the rolled value. */
  lemma RolledGoldAccepted(dados: seq<string>, draws: seq<seq<RandomValue>>)
    requires GoldDraws(dados, draws)
    ensures AcceptedGold(ShowInt(SumRolls(dados, draws))) == Some(SumRolls(dados, draws))
  {
    ParseShowInt(SumRolls(dados, draws));
  }

  /** The distribute button is disabled while the total is empty; an empty total is rejected anyway. */
  lemma EmptyGoldRejected()
    ensures AcceptedGold("") == None
  {
  }

  class GameplayPage {
    const store: Store
    /** The `id` route parameter. */
    const routeId: string
    var pisos: seq<Piso>
    var users: seq<User>
    var includeBonus: bool
    var includeEvento: bool
    var rewardTiradas: seq<TiradaInput>
    var itemAssignments: map<int, Option<int>>
    var goldTotal: string
    var goldRollResult: Option<int>
    var goldResults: seq<RepartoOro>
    var newFloor: string
    var showAddReplacement: bool
    var replacementUserId: string
    var replacementCharName: string
    var encounterStep: EncounterStep

    function Page(): PageState
      reads this
    {
      PageState(pisos, users, includeBonus, includeEvento, rewardTiradas, itemAssignments, goldTotal,
                goldRollResult, goldResults, newFloor, showAddReplacement, replacementUserId,
                replacementCharName, encounterStep)
    }

    /** The next-floor select holds the placeholder or one of its numeric options. */
    predicate Valid()
      reads this
    {
      newFloor == "" || ParseInt(newFloor).Some?
    }

    function Current(): Option<Habitacion>
      reads this, store
    {
      CurrentHabitacion(store.habitaciones, store.currentHabitacionIndex)
    }

    constructor (store: Store, routeId: string)
      ensures this.store == store && this.routeId == routeId
      ensures Valid() && Page() == INITIAL_PAGE
    {
      this.store := store;
      this.routeId := routeId;
      pisos, users, includeBonus, includeEvento := [], [], false, false;
      rewardTiradas, itemAssignments, goldTotal, goldRollResult, goldResults := [], map[], "", None, [];
      newFloor, showAddReplacement, replacementUserId, replacementCharName := "", false, "", "";
      encounterStep := RollStep;
    }

    /**
      * The mount effect: with a route id, the loaded expedition and roster go
      * to the store and the floors and users to the page; the floor selection
      * opens only for an expedition in progress (otherwise the page navigates away).
      */
    method Load(outcome: Outcome<Loaded>)
      requires Valid()
      modifies this, store
      ensures Valid()
      ensures routeId == "" || outcome.Failed? ==> store.State() == old(store.State()) && Page() == old(Page())
      ensures routeId != "" && outcome.Succeeded? ==>
                var d := outcome.response;
                Page() == old(Page()).(pisos := d.pisos, users := d.users)
                && store.State() == old(store.State()).(
                     activeExpedition := Some(d.expedicion), participants := d.participaciones,
                     phase := if d.expedicion.estado == EnCurso then FloorSelect else old(store.phase))
    {
      if routeId == "" || outcome.Failed? {
        return;
      }
      var d := outcome.response;
      store.SetActiveExpedition(d.expedicion);
      store.SetParticipants(d.participaciones);
      pisos := d.pisos;
      users := d.users;
      if d.expedicion.estado != EnCurso {
        return;
      }
      store.SetPhase(FloorSelect);
    }

    /**
      * The cleanup of the mount effect: the store is reset. An empty route id
      * returns from the effect before the cleanup is registered, so nothing is reset.
      */
    method Unmount()
      modifies store
      ensures routeId != "" ==> store.State() == INITIAL
      ensures routeId == "" ==> store.State() == old(store.State())
    {
      if routeId != "" {
        store.Reset();
      }
    }

    method SetIncludeBonus(checked: bool)
      requires Valid()
      modifies this
      ensures Valid() && Page() == old(Page()).(includeBonus := checked)
    {
      includeBonus := checked;
    }

    method SetIncludeEvento(checked: bool)
      requires Valid()
      modifies this
      ensures Valid() && Page() == old(Page()).(includeEvento := checked)
    {
      includeEvento := checked;
    }

    /**
      * `handleGenerateFloor`: asks for the layout of the expedition's current
      * floor with the two optional rooms; on success the store installs it.
      */
    method HandleGenerateFloor(outcome: Outcome<LayoutResponse>) returns (sent: Option<GenerarLayoutRequest>)
      requires Valid() && store.phase == FloorSelect
      modifies store
      ensures Valid() && Page() == old(Page())
      ensures sent.Some? <==> old(store.activeExpedition).Some?
      ensures sent.Some? ==>
                var exp := old(store.activeExpedition).value;
                sent.value == GenerarLayoutRequest(exp.id, exp.pisoActual, includeBonus, includeEvento)
      ensures store.State() ==
                if sent.Some? && outcome.Succeeded? then
                  old(store.State()).(currentFloor := Some(sent.value.piso), habitaciones := outcome.response.habitaciones,
                                      currentHabitacionIndex := 0, phase := RoomList)
                else old(store.State())
    {
      if store.activeExpedition.None? {
        return None;
      }
      var exp := store.activeExpedition.value;
      var floor := exp.pisoActual;
      sent := Some(GenerarLayoutRequest(exp.id, floor, includeBonus, includeEvento));
      if outcome.Succeeded? {
        store.SetFloor(floor, outcome.response.habitaciones);
      }
    }

    /** `enterRoom(index)`, offered on each uncompleted room of the list. */
    method EnterRoom(index: int)
      requires Valid() && store.phase == RoomList
      requires 0 <= index < |store.habitaciones| && !store.habitaciones[index].completada
      modifies this, store
      ensures Valid() && Page() == ClearRoom(old(Page()))
      ensures store.State() == old(store.State()).(currentHabitacionIndex := index, phase := Encounter,
                                                   encounterResult := None, rewardsResult := None)
      ensures Current() == Some(old(store.habitaciones[index]))
    {
      store.SetCurrentHabitacionIndex(index);
      store.SetPhase(Encounter);
      store.SetEncounterResult(None);
      store.SetRewardsResult(None);
      ResetRoomState();
    }

    /** `resetRoomState`. */
    method ResetRoomState()
      requires Valid()
      modifies this
      ensures Valid() && Page() == ClearRoom(old(Page()))
    {
      rewardTiradas := [];
      itemAssignments := map[];
      goldTotal := "";
      goldRollResult := None;
      goldResults := [];
      encounterStep := RollStep;
    }

    /** The "back to rooms" button of the encounter: room list, no encounter result, buffers cleared. */
    method BackToRooms()
      requires Valid() && store.phase == Encounter && Current().Some?
      modifies this, store
      ensures Valid() && Page() == ClearRoom(old(Page()))
      ensures store.State() == old(store.State()).(phase := RoomList, encounterResult := None)
    {
      store.SetPhase(RoomList);
      store.SetEncounterResult(None);
      ResetRoomState();
    }

    /**
      * `handleEncounterRoll(tirada)`, the `onRoll` of the d20 widget in the
      * first step (so `tirada` is in 1..20): on success the result is stored,
      * the results step shows and the reward form gets one empty row per enemy.
      */
    method HandleEncounterRoll(tirada: int, outcome: Outcome<EncounterResponse>) returns (sent: Option<EncounterCall>)
      requires Valid() && store.phase == Encounter && encounterStep == RollStep
      requires 1 <= tirada <= 20
      modifies this, store
      ensures Valid()
      ensures sent.Some? <==> old(Current()).Some?
      ensures sent.Some? ==> sent.value == EncounterCall(old(Current()).value.id, tirada)
      ensures sent.Some? && outcome.Succeeded? ==>
                Page() == old(Page()).(encounterStep := ResultsStep,
                                       rewardTiradas := EmptyTiradas(outcome.response.cantidadTotal))
                && store.State() == old(store.State()).(encounterResult := Some(outcome.response))
      ensures !(sent.Some? && outcome.Succeeded?) ==> Page() == old(Page()) && store.State() == old(store.State())
    {
      var room := Current();
      if room.None? {
        return None;
      }
      sent := Some(EncounterCall(room.value.id, tirada));
      if outcome.Failed? {
        return;
      }
      var result := outcome.response;
      store.SetEncounterResult(Some(result));
      encounterStep := ResultsStep;
      rewardTiradas := EmptyTiradas(result.cantidadTotal);
    }

    /** "Continue to rewards", offered on the results step. */
    method ShowRewardsStep()
      requires Valid() && store.phase == Encounter && encounterStep == ResultsStep && store.encounterResult.Some?
      modifies this
      ensures Valid() && Page() == old(Page()).(encounterStep := RewardsStep)
    {
      encounterStep := RewardsStep;
    }

    /** "Back", offered on the rewards step. */
    method BackToResults()
      requires Valid() && store.phase == Encounter && encounterStep == RewardsStep
      modifies this
      ensures Valid() && Page() == old(Page()).(encounterStep := ResultsStep)
    {
      encounterStep := ResultsStep;
    }

    /** Typing into the d20 input of row `i`. */
    method EditD20(i: nat, text: string)
      requires Valid() && i < |rewardTiradas|
      modifies this
      ensures Valid() && Page() == old(Page()).(rewardTiradas := old(rewardTiradas)[i := old(rewardTiradas)[i].(d20 := text)])
    {
      rewardTiradas := rewardTiradas[i := rewardTiradas[i].(d20 := text)];
    }

    /** Typing into the sub-table input of row `i`. */
    method EditSubtabla(i: nat, text: string)
      requires Valid() && i < |rewardTiradas|
      modifies this
      ensures Valid()
      ensures Page() == old(Page()).(rewardTiradas := old(rewardTiradas)[i := old(rewardTiradas)[i].(subtabla := text)])
    {
      rewardTiradas := rewardTiradas[i := rewardTiradas[i].(subtabla := text)];
    }

    /** The die button of row `i`: its d20 becomes `String(rollD20())`, a text that reads in 1..20. */
    method RollRow(i: nat, r: RandomValue)
      requires Valid() && i < |rewardTiradas|
      modifies this
      ensures Valid()
      ensures Page() == old(Page()).(rewardTiradas := old(rewardTiradas)[i := old(rewardTiradas)[i].(d20 := ShowInt(RollD20(r)))])
      ensures 1 <= D20Value(rewardTiradas[i].d20) <= 20
    {
      ParseShowInt(RollD20(r));
      rewardTiradas := rewardTiradas[i := rewardTiradas[i].(d20 := ShowInt(RollD20(r)))];
    }

    /** `handleAutoRollAll`, with one draw per row (rows already filled ignore theirs). */
    method HandleAutoRollAll(draws: seq<RandomValue>)
      requires Valid() && |draws| == |rewardTiradas|
      modifies this
      ensures Valid() && Page() == old(Page()).(rewardTiradas := AutoFill(old(rewardTiradas), draws))
    {
      rewardTiradas := AutoFill(rewardTiradas, draws);
    }

    /**
      * `handleProcessRewards`: with a current room and an encounter result,
      * the rows are parsed; if any d20 is outside 1..20 nothing is sent and
      * nothing changes. Otherwise the rolls are sent and, on success, the
      * reward result is stored and the item assignment opens.
      */
    method HandleProcessRewards(outcome: Outcome<ProcesarRecompensasResponse>) returns (sent: Option<ProcesarRecompensasRequest>)
      requires Valid() && store.phase == Encounter && encounterStep == RewardsStep
      modifies store
      ensures Valid() && Page() == old(Page())
      ensures sent.Some? <==> old(Current()).Some? && old(store.encounterResult).Some? && RollsValid(rewardTiradas)
      ensures sent.Some? ==> sent.value == ProcesarRecompensasRequest(old(Current()).value.id, ToRewardRolls(rewardTiradas))
      ensures store.State() ==
                if sent.Some? && outcome.Succeeded? then
                  old(store.State()).(rewardsResult := Some(outcome.response), phase := AssignItems)
                else old(store.State())
    {
      var room := Current();
      if room.None? || store.encounterResult.None? {
        return None;
      }
      var tiradas := ToRewardRolls(rewardTiradas);
      if exists k :: 0 <= k < |tiradas| && (tiradas[k].tiradaD20 < 1 || tiradas[k].tiradaD20 > 20) {
        return None;
      }
      sent := Some(ProcesarRecompensasRequest(room.value.id, tiradas));
      if outcome.Succeeded? {
        store.SetRewardsResult(Some(outcome.response));
        store.SetPhase(AssignItems);
      }
    }

    /** The select of one pending item: the placeholder (`NaN`) or an active participant's id. */
    method ChooseAssignment(indice: int, choice: Option<int>)
      requires Valid()
      requires choice.Some? ==> exists p :: p in ActiveParticipants(store.participants) && p.id == choice.value
      modifies this
      ensures Valid() && Page() == old(Page()).(itemAssignments := old(itemAssignments)[indice := choice])
    {
      itemAssignments := itemAssignments[indice := choice];
    }

    /**
      * `handleAssignItems`: the loop over the pending items; only when it runs
      * to its end does the gold distribution open. `oks[k]` is the outcome of
      * the k-th call.
      */
    method HandleAssignItems(oks: seq<bool>) returns (sent: seq<AsignarItemRequest>)
      requires Valid() && store.phase == AssignItems
      requires store.rewardsResult.Some? ==> |oks| >= |store.rewardsResult.value.itemsPendientes|
      modifies store
      ensures Valid() && Page() == old(Page())
      ensures old(Current()).None? || old(store.rewardsResult).None? ==> sent == [] && store.State() == old(store.State())
      ensures old(Current()).Some? && old(store.rewardsResult).Some? ==>
                var run := AssignRun(old(Current()).value.id, old(store.rewardsResult).value.itemsPendientes, itemAssignments, oks);
                sent == run.sent
                && store.State() == if run.completed then old(store.State()).(phase := DistributeGold) else old(store.State())
    {
      var room := Current();
      if room.None? || store.rewardsResult.None? {
        return [];
      }
      var completed;
      sent, completed := AssignPending(room.value.id, store.rewardsResult.value.itemsPendientes, itemAssignments, oks);
      if completed {
        store.SetPhase(DistributeGold);
      }
    }

    /** "Continue to gold", offered instead of the assignment when no item is pending. */
    method SkipToGold()
      requires Valid() && store.phase == AssignItems && store.rewardsResult.Some?
      requires store.rewardsResult.value.itemsPendientes == []
      modifies store
      ensures Valid() && store.State() == old(store.State()).(phase := DistributeGold)
    {
      store.SetPhase(DistributeGold);
    }

    /** `handleRollGoldDice`: the sum of the gold dice becomes the proposed total and its text. */
    method HandleRollGoldDice(draws: seq<seq<RandomValue>>)
      requires Valid() && store.phase == DistributeGold
      requires store.rewardsResult.Some? ==> GoldDraws(store.rewardsResult.value.oroDados, draws)
      modifies this
      ensures Valid()
      ensures store.rewardsResult.None? ==> Page() == old(Page())
      ensures store.rewardsResult.Some? ==>
                var total := SumRolls(store.rewardsResult.value.oroDados, draws);
                Page() == old(Page()).(goldRollResult := Some(total), goldTotal := ShowInt(total))
                && AcceptedGold(goldTotal) == Some(total)
    {
      if store.rewardsResult.None? {
        return;
      }
      var total := RollGoldDice(store.rewardsResult.value.oroDados, draws);
      RolledGoldAccepted(store.rewardsResult.value.oroDados, draws);
      goldRollResult := Some(total);
      goldTotal := ShowInt(total);
    }

    /** Typing into the gold total. */
    method SetGoldTotal(text: string)
      requires Valid()
      modifies this
      ensures Valid() && Page() == old(Page()).(goldTotal := text)
    {
      goldTotal := text;
    }

    /**
      * `handleDistributeGold`: with a current room and an expedition, a total
      * that is a number and not negative is sent; on success the split is
      * kept and the room completes.
      */
    method HandleDistributeGold(outcome: Outcome<seq<RepartoOro>>) returns (sent: Option<RepartirOroRequest>)
      requires Valid() && store.phase == DistributeGold
      modifies this, store
      ensures Valid()
      ensures sent.Some? <==> old(Current()).Some? && old(store.activeExpedition).Some? && AcceptedGold(old(goldTotal)).Some?
      ensures sent.Some? ==>
                sent.value == RepartirOroRequest(old(Current()).value.id, old(store.activeExpedition).value.id,
                                                 AcceptedGold(old(goldTotal)).value)
      ensures sent.Some? && outcome.Succeeded? ==>
                Page() == old(Page()).(goldResults := outcome.response)
                && store.State() == old(store.State()).(phase := RoomComplete)
      ensures !(sent.Some? && outcome.Succeeded?) ==> Page() == old(Page()) && store.State() == old(store.State())
    {
      var room := Current();
      if room.None? || store.activeExpedition.None? {
        return None;
      }
      var total := ParseInt(goldTotal);
      if total.None? || total.value < 0 {
        return None;
      }
      sent := Some(RepartirOroRequest(room.value.id, store.activeExpedition.value.id, total.value));
      if outcome.Succeeded? {
        goldResults := outcome.response;
        store.SetPhase(RoomComplete);
      }
    }

    /** "Complete room", offered instead of the gold form when there are no gold dice. */
    method SkipToRoomComplete()
      requires Valid() && store.phase == DistributeGold
      requires !(store.rewardsResult.Some? && |store.rewardsResult.value.oroDados| > 0)
      modifies store
      ensures Valid() && store.State() == old(store.State()).(phase := RoomComplete)
    {
      store.SetPhase(RoomComplete);
    }

    /**
      * `handleCompleteRoom`: on success the room is marked completed, the
      * per-room buffers are cleared and the room list shows again, focused on
      * the next uncompleted room after this one when there is one. The search
      * runs on the room list read before the mark; it finds what the store's
      * own search finds afterwards.
      */
    method HandleCompleteRoom(ok: bool) returns (sent: Option<int>)
      requires Valid() && store.phase == RoomComplete
      modifies this, store
      ensures Valid()
      ensures sent.Some? <==> old(Current()).Some?
      ensures sent.Some? ==> sent.value == old(Current()).value.id
      ensures !(sent.Some? && ok) ==> Page() == old(Page()) && store.State() == old(store.State())
      ensures sent.Some? && ok ==>
                var marked := MarkCompleted(old(store.habitaciones), old(store.currentHabitacionIndex));
                Page() == ClearRoom(old(Page()))
                && store.State() ==
                   match NextIndex(old(store.habitaciones), old(store.currentHabitacionIndex))
                   case Some(next) =>
                     old(store.State()).(habitaciones := marked, currentHabitacionIndex := next, phase := RoomList,
                                         encounterResult := None, rewardsResult := None)
                   case None =>
                     old(store.State()).(habitaciones := marked, phase := RoomList)
    {
      var room := Current();
      if room.None? {
        return None;
      }
      sent := Some(room.value.id);
      if !ok {
        return;
      }
      var snapshot := store.habitaciones;
      var index := store.currentHabitacionIndex;
      store.MarkHabitacionCompleted(index);
      ResetRoomState();
      var next := NextIndex(snapshot, index);
      NextIndexIgnoresCurrent(snapshot, index);
      if next.Some? {
        store.NextHabitacion();
      } else {
        store.SetPhase(RoomList);
      }
    }

    /** The next-floor select: the placeholder, or the number of one of the loaded floors. */
    method ChooseNewFloor(choice: Option<int>)
      requires Valid()
      requires choice.Some? ==> exists p :: p in pisos && p.numero == choice.value
      modifies this
      ensures Valid()
      ensures Page() == old(Page()).(newFloor := if choice.Some? then ShowInt(choice.value) else "")
    {
      if choice.Some? {
        ParseShowInt(choice.value);
        newFloor := ShowInt(choice.value);
      } else {
        newFloor := "";
      }
    }

    /**
      * `handleChangeFloor`, offered once every room of the floor is completed:
      * with an expedition and a chosen floor, the new floor is saved and, on
      * success, becomes the expedition's current floor, the floor selection
      * opens and the select is cleared.
      */
    method HandleChangeFloor(ok: bool) returns (sent: Option<UpdateCall>)
      requires Valid() && store.phase == RoomList && FloorComplete(store.habitaciones)
      modifies this, store
      ensures Valid()
      ensures sent.Some? <==> old(store.activeExpedition).Some? && old(newFloor) != ""
      ensures sent.Some? ==>
                var floor := ParseInt(old(newFloor)).value;
                sent.value == UpdateCall(old(store.activeExpedition).value.id, UpdateExpedicion(None, Some(floor), None))
                && (ok ==>
                      Page() == old(Page()).(newFloor := "")
                      && store.State() == old(store.State()).(
                           activeExpedition := Some(old(store.activeExpedition).value.(pisoActual := floor)),
                           phase := FloorSelect))
      ensures !(sent.Some? && ok) ==> Page() == old(Page()) && store.State() == old(store.State())
    {
      if store.activeExpedition.None? || newFloor == "" {
        return None;
      }
      var exp := store.activeExpedition.value;
      var floor := ParseInt(newFloor).value;
      sent := Some(UpdateCall(exp.id, UpdateExpedicion(None, Some(floor), None)));
      if !ok {
        return;
      }
      store.SetActiveExpedition(exp.(pisoActual := floor));
      store.SetPhase(FloorSelect);
      newFloor := "";
    }

    /** `handleDeactivatePlayer(id)`: on success only that participant becomes inactive. */
    method HandleDeactivatePlayer(participacionId: int, ok: bool)
      requires Valid()
      modifies store
      ensures Valid() && Page() == old(Page())
      ensures store.State() ==
                if ok then old(store.State()).(participants := SetActivo(old(store.participants), participacionId, false))
                else old(store.State())
    {
      if ok {
        store.SetParticipants(SetActivo(store.participants, participacionId, false));
      }
    }

    /** `handleReactivatePlayer(id)`: on success only that participant becomes active again. */
    method HandleReactivatePlayer(participacionId: int, ok: bool)
      requires Valid()
      modifies store
      ensures Valid() && Page() == old(Page())
      ensures store.State() ==
                if ok then old(store.State()).(participants := SetActivo(old(store.participants), participacionId, true))
                else old(store.State())
    {
      if ok {
        store.SetParticipants(SetActivo(store.participants, participacionId, true));
      }
    }

    /** "Add replacement" in the player panel opens the replacement form. */
    method OpenAddReplacement()
      requires Valid()
      modifies this
      ensures Valid() && Page() == old(Page()).(showAddReplacement := true)
    {
      showAddReplacement := true;
    }

    /** The user select of the replacement form: the placeholder or a user with no participation yet. */
    method ChooseReplacementUser(uid: string)
      requires Valid()
      requires uid == "" || exists u :: u in AvailableUsers(users, store.participants) && u.discordId == uid
      modifies this
      ensures Valid() && Page() == old(Page()).(replacementUserId := uid)
    {
      replacementUserId := uid;
    }

    method SetReplacementCharName(text: string)
      requires Valid()
      modifies this
      ensures Valid() && Page() == old(Page()).(replacementCharName := text)
    {
      replacementCharName := text;
    }

    /**
      * `handleAddReplacement`: with a route id, a user and a non-blank name,
      * the trimmed name is sent; on success the new participation is appended
      * to the roster and the form is closed and cleared.
      */
    method HandleAddReplacement(outcome: Outcome<Participacion>) returns (sent: Option<AddCall>)
      requires Valid()
      modifies this, store
      ensures Valid()
      ensures sent.Some? <==> routeId != "" && old(replacementUserId) != "" && Trim(old(replacementCharName)) != ""
      ensures sent.Some? ==>
                sent.value == AddCall(ParseInt(routeId), NewParticipacion(old(replacementUserId), Trim(old(replacementCharName))))
      ensures sent.Some? && outcome.Succeeded? ==>
                Page() == old(Page()).(showAddReplacement := false, replacementUserId := "", replacementCharName := "")
                && store.State() == old(store.State()).(participants := old(store.participants) + [outcome.response])
      ensures !(sent.Some? && outcome.Succeeded?) ==> Page() == old(Page()) && store.State() == old(store.State())
    {
      var name := Trim(replacementCharName);
      if routeId == "" || replacementUserId == "" || name == "" {
        return None;
      }
      sent := Some(AddCall(ParseInt(routeId), NewParticipacion(replacementUserId, name)));
      if outcome.Failed? {
        return;
      }
      store.SetParticipants(store.participants + [outcome.response]);
      showAddReplacement := false;
      replacementUserId := "";
      replacementCharName := "";
    }
  }
}
