/**
  * The setup page of src/pages/ExpeditionDetailPage.tsx: the roster of a
  * pending expedition, the floors chosen for it, and the start and cancel
  * actions.
  */
module ExpeditionDetail {
  import opened Wrappers
  import opened Strings
  import opened Types
  import opened Seqs
  import opened Sorting
  import opened Roster

  /** `MAX_PARTICIPANTS` of src/config/constants.ts. */
  const MAX_PARTICIPANTS: nat := 5

  // ----- floor selection -----

  predicate StrictlyAscending(s: seq<int>) {
    forall i, j :: 0 <= i < j < |s| ==> s[i] < s[j]
  }

  function Negate(n: int): int {
    -n
  }

  /** `.sort((a, b) => a - b)` on numbers: ascending. */
  function SortAscending(s: seq<int>): (r: seq<int>)
    ensures multiset(r) == multiset(s)
    ensures forall i, j :: 0 <= i < j < |r| ==> r[i] <= r[j]
  {
    var r := SortDesc(s, Negate);
    assert forall i, j :: 0 <= i < j < |r| ==> Negate(r[i]) >= Negate(r[j]);
    r
  }

  /**
    * `togglePiso(n)`: `n` is dropped when selected and added otherwise; no
    * other floor's membership changes.
    */
  function TogglePiso(selected: seq<int>, n: int): (r: seq<int>)
    ensures n in r <==> n !in selected
    ensures forall m :: m != n ==> (m in r <==> m in selected)
  {
    if n in selected then Filter(selected, (p: int) => p != n)
    else
      var r := SortAscending(selected + [n]);
      assert forall m :: m in r <==> m in multiset(selected + [n]);
      r
  }

  /** Inserting a new floor into an ascending selection keeps it ascending. */
  lemma {:induction false} InsertStrictlyAscending(x: int, s: seq<int>)
    requires StrictlyAscending(s) && x !in s
    ensures StrictlyAscending(InsertDesc(x, s, Negate))
  {
    if s != [] && Negate(s[0]) >= Negate(x) {
      assert StrictlyAscending(s[1..]);
      InsertStrictlyAscending(x, s[1..]);
      var rest := InsertDesc(x, s[1..], Negate);
      forall k | 0 <= k < |rest|
        ensures s[0] < rest[k]
      {
        assert rest[k] in multiset(rest);
        if rest[k] != x {
          assert rest[k] in s[1..];
        }
      }
    }
  }

  /** A filtered ascending selection stays ascending. */
  lemma {:induction false} FilterStrictlyAscending(s: seq<int>, keep: int -> bool)
    requires StrictlyAscending(s)
    ensures StrictlyAscending(Filter(s, keep))
  {
    if s != [] {
      FilterStep(s, keep);
      assert StrictlyAscending(s[1..]);
      FilterStrictlyAscending(s[1..], keep);
      var rest := Filter(s[1..], keep);
      forall k | 0 <= k < |rest|
        ensures s[0] < rest[k]
      {
        assert rest[k] in s[1..];
      }
    }
  }

  /** The selection stays strictly ascending, so without duplicates. */
  lemma TogglePisoAscending(selected: seq<int>, n: int)
    requires StrictlyAscending(selected)
    ensures StrictlyAscending(TogglePiso(selected, n))
  {
    if n in selected {
      FilterStrictlyAscending(selected, (p: int) => p != n);
    } else {
      SortAppend(selected, n, Negate);
      SortOfSorted(selected, Negate);
      InsertStrictlyAscending(n, selected);
    }
  }

  /** Two ascending selections with the same floors are the same selection. */
  lemma {:induction false} AscendingUnique(a: seq<int>, b: seq<int>)
    requires StrictlyAscending(a) && StrictlyAscending(b)
    requires forall m :: m in a <==> m in b
    ensures a == b
  {
    if a != [] {
      assert a[0] in a;
    }
    if b != [] {
      assert b[0] in b;
    }
    if a != [] && b != [] {
      assert a[0] == b[0];
      assert StrictlyAscending(a[1..]) && StrictlyAscending(b[1..]);
      forall m
        ensures m in a[1..] <==> m in b[1..]
      {
        if m in a[1..] {
          assert m in a && m != a[0];
        }
        if m in b[1..] {
          assert m in b && m != b[0];
        }
      }
      AscendingUnique(a[1..], b[1..]);
      assert a == [a[0]] + a[1..] && b == [b[0]] + b[1..];
    }
  }

  /** Toggling a floor twice restores the selection. */
  lemma TogglePisoTwice(selected: seq<int>, n: int)
    requires StrictlyAscending(selected)
    ensures TogglePiso(TogglePiso(selected, n), n) == selected
  {
    TogglePisoAscending(selected, n);
    TogglePisoAscending(TogglePiso(selected, n), n);
    AscendingUnique(TogglePiso(TogglePiso(selected, n), n), selected);
  }

  /** The first floor of an ascending selection is its lowest: the one the expedition starts on. */
  lemma FirstIsLowest(selected: seq<int>)
    requires StrictlyAscending(selected) && |selected| > 0
    ensures forall m :: m in selected ==> selected[0] <= m
  {
  }

  // ----- derived values -----

  /** `canStart`: pending, with someone to play and a floor to play on. */
  predicate CanStart(exp: Expedicion, parts: seq<Participacion>, selected: seq<int>) {
    exp.estado == Pendiente && |parts| > 0 && |selected| > 0
  }

  /** The "add" button of the roster: pending and below the participant limit. */
  predicate CanAddPlayer(exp: Expedicion, parts: seq<Participacion>) {
    exp.estado == Pendiente && |parts| < MAX_PARTICIPANTS
  }

  function InTier(tier: int): Piso -> bool {
    (p: Piso) => p.tierNumero == tier
  }

  /** `pisosByTier[tier]`: the floors of that tier, in their loaded order. */
  function TierGroup(pisos: seq<Piso>, tier: int): seq<Piso> {
    Filter(pisos, InTier(tier))
  }

  /** Appending a floor extends its own tier's group by it and leaves every other group as it was. */
  lemma TierGroupsExtend(prefix: seq<Piso>, p: Piso)
    ensures forall t :: TierGroup(prefix + [p], t) == TierGroup(prefix, t) + (if p.tierNumero == t then [p] else [])
  {
    forall t
      ensures TierGroup(prefix + [p], t) == TierGroup(prefix, t) + (if p.tierNumero == t then [p] else [])
    {
      FilterAppend(prefix, p, InTier(t));
    }
  }

  /** A tier no floor of the list has has an empty group. */
  lemma AbsentTierEmpty(prefix: seq<Piso>, tier: int)
    requires forall k :: 0 <= k < |prefix| ==> prefix[k].tierNumero != tier
    ensures TierGroup(prefix, tier) == []
  {
    forall q | q in prefix
      ensures !InTier(tier)(q)
    {
      var k :| 0 <= k < |prefix| && prefix[k] == q;
    }
    FilterNone(prefix, InTier(tier));
  }

  /**
    * The `reduce` of `pisosByTier`: one group per tier that occurs, each
    * holding exactly that tier's floors in their order, so that no floor is
    * lost and none is in two groups.
    */
  method PisosByTier(pisos: seq<Piso>) returns (groups: map<int, seq<Piso>>)
    ensures forall t :: t in groups <==> exists k :: 0 <= k < |pisos| && pisos[k].tierNumero == t
    ensures forall t :: t in groups ==> groups[t] == TierGroup(pisos, t)
  {
    groups := map[];
    for i := 0 to |pisos|
      invariant forall t :: t in groups <==> exists k :: 0 <= k < i && pisos[k].tierNumero == t
      invariant forall t :: t in groups ==> groups[t] == TierGroup(pisos[..i], t)
    {
      var p := pisos[i];
      var tier := p.tierNumero;
      assert pisos[..i + 1] == pisos[..i] + [p];
      TierGroupsExtend(pisos[..i], p);
      var group: seq<Piso> := [];
      if tier in groups {
        group := groups[tier];
      } else {
        AbsentTierEmpty(pisos[..i], tier);
      }
      groups := groups[tier := group + [p]];
    }
    assert pisos[..|pisos|] == pisos;
  }

  /** The body of `expeditionService.update(parseInt(id), body)`; `None` is `NaN`. */
  datatype UpdateRequest = UpdateRequest(expedicionId: Option<int>, body: UpdateExpedicion)

  /** The body of `addParticipacion(parseInt(id), body)`. */
  datatype AddRequest = AddRequest(expedicionId: Option<int>, body: NewParticipacion)

  /** What the page loads on mount. */
  datatype Loaded = Loaded(expedicion: Expedicion, participaciones: seq<Participacion>, pisos: seq<Piso>, users: seq<User>)

  class DetailPage {
    /** The `id` route parameter. */
    const routeId: string
    var expedition: Option<Expedicion>
    var participants: seq<Participacion>
    var pisos: seq<Piso>
    var users: seq<User>
    var showAddPlayer: bool
    var selectedUserId: string
    var characterName: string
    var selectedPisos: seq<int>

    /** The floor selection is kept ascending and free of duplicates. */
    predicate Valid()
      reads this
    {
      StrictlyAscending(selectedPisos)
    }

    constructor (routeId: string)
      ensures this.routeId == routeId && Valid()
      ensures expedition == None && participants == [] && pisos == [] && users == []
      ensures !showAddPlayer && selectedUserId == "" && characterName == "" && selectedPisos == []
    {
      this.routeId := routeId;
      expedition, participants, pisos, users := None, [], [], [];
      showAddPlayer, selectedUserId, characterName, selectedPisos := false, "", "", [];
    }

    /** The mount effect: with a route id and a successful load, the four lists are installed. */
    method Load(outcome: Outcome<Loaded>)
      requires Valid()
      modifies this
      ensures Valid()
      ensures if routeId != "" && outcome.Succeeded? then
                expedition == Some(outcome.response.expedicion) && participants == outcome.response.participaciones
                && pisos == outcome.response.pisos && users == outcome.response.users
              else
                expedition == old(expedition) && participants == old(participants) && pisos == old(pisos) && users == old(users)
      ensures showAddPlayer == old(showAddPlayer) && selectedUserId == old(selectedUserId)
      ensures characterName == old(characterName) && selectedPisos == old(selectedPisos)
    {
      if routeId == "" || outcome.Failed? {
        return;
      }
      expedition := Some(outcome.response.expedicion);
      participants := outcome.response.participaciones;
      pisos := outcome.response.pisos;
      users := outcome.response.users;
    }

    /** The "add" button of the roster, offered while pending and below the limit. */
    method OpenAddPlayer()
      requires Valid() && expedition.Some? && CanAddPlayer(expedition.value, participants)
      modifies this`showAddPlayer
      ensures Valid() && showAddPlayer
    {
      showAddPlayer := true;
    }

    /** The modal's cancel button. */
    method CloseAddPlayer()
      requires Valid()
      modifies this`showAddPlayer
      ensures Valid() && !showAddPlayer
    {
      showAddPlayer := false;
    }

    /** The user select: the placeholder or a user with no participation yet. */
    method ChooseUser(uid: string)
      requires Valid()
      requires uid == "" || exists u :: u in AvailableUsers(users, participants) && u.discordId == uid
      modifies this`selectedUserId
      ensures Valid() && selectedUserId == uid
    {
      selectedUserId := uid;
    }

    method SetCharacterName(text: string)
      requires Valid()
      modifies this`characterName
      ensures Valid() && characterName == text
    {
      characterName := text;
    }

    /**
      * `handleAddParticipant`: with a route id, a user and a non-blank name,
      * the trimmed name is sent; on success the participation is appended and
      * the form is closed and cleared.
      */
    method HandleAddParticipant(outcome: Outcome<Participacion>) returns (sent: Option<AddRequest>)
      requires Valid()
      modifies this
      ensures Valid()
      ensures sent.Some? <==> routeId != "" && old(selectedUserId) != "" && Trim(old(characterName)) != ""
      ensures sent.Some? ==> sent.value == AddRequest(ParseInt(routeId), NewParticipacion(old(selectedUserId), Trim(old(characterName))))
      ensures if sent.Some? && outcome.Succeeded? then
                participants == old(participants) + [outcome.response]
                && !showAddPlayer && selectedUserId == "" && characterName == ""
              else
                participants == old(participants) && showAddPlayer == old(showAddPlayer)
                && selectedUserId == old(selectedUserId) && characterName == old(characterName)
      ensures expedition == old(expedition) && pisos == old(pisos) && users == old(users) && selectedPisos == old(selectedPisos)
    {
      var name := Trim(characterName);
      if routeId == "" || selectedUserId == "" || name == "" {
        return None;
      }
      sent := Some(AddRequest(ParseInt(routeId), NewParticipacion(selectedUserId, name)));
      if outcome.Failed? {
        return;
      }
      participants := participants + [outcome.response];
      showAddPlayer := false;
      selectedUserId := "";
      characterName := "";
    }

    /** `handleRemoveParticipant(id)`, offered while pending: on success exactly the entries with that id go. */
    method HandleRemoveParticipant(partId: int, ok: bool)
      requires Valid() && expedition.Some? && expedition.value.estado == Pendiente
      modifies this`participants
      ensures Valid()
      ensures participants == if ok then RemoveParticipant(old(participants), partId) else old(participants)
    {
      if ok {
        participants := RemoveParticipant(participants, partId);
      }
    }

    /** A floor button of the selection card, offered while pending. */
    method HandleTogglePiso(n: int)
      requires Valid() && expedition.Some? && expedition.value.estado == Pendiente
      modifies this`selectedPisos
      ensures Valid() && selectedPisos == TogglePiso(old(selectedPisos), n)
    {
      TogglePisoAscending(selectedPisos, n);
      selectedPisos := TogglePiso(selectedPisos, n);
    }

    /**
      * `handleStartExpedition`, offered while pending: with a route id and a
      * floor chosen it sets the expedition in progress on the lowest chosen
      * floor; the page then navigates away, so nothing of its own changes.
      */
    method HandleStartExpedition() returns (sent: Option<UpdateRequest>)
      requires Valid() && expedition.Some? && expedition.value.estado == Pendiente
      ensures sent.Some? <==> routeId != "" && |selectedPisos| > 0
      ensures routeId != "" && CanStart(expedition.value, participants, selectedPisos) ==> sent.Some?
      ensures sent.Some? ==>
                sent.value == UpdateRequest(ParseInt(routeId), UpdateExpedicion(Some(EnCurso), Some(selectedPisos[0]), None))
                && forall m :: m in selectedPisos ==> sent.value.body.pisoActual.value <= m
    {
      if routeId == "" || |selectedPisos| == 0 {
        return None;
      }
      FirstIsLowest(selectedPisos);
      sent := Some(UpdateRequest(ParseInt(routeId), UpdateExpedicion(Some(EnCurso), Some(selectedPisos[0]), None)));
    }

    /**
      * `handleCancel`, offered while pending or in progress: with a route id
      * and the dialog `confirmed`, the cancellation is sent; on success the
      * loaded expedition becomes cancelled.
      */
    method HandleCancel(confirmed: bool, ok: bool) returns (sent: Option<UpdateRequest>)
      requires Valid() && expedition.Some? && expedition.value.estado in {Pendiente, EnCurso}
      modifies this`expedition
      ensures Valid()
      ensures sent.Some? <==> routeId != "" && confirmed
      ensures sent.Some? ==> sent.value == UpdateRequest(ParseInt(routeId), UpdateExpedicion(Some(Cancelada), None, None))
      ensures expedition == if sent.Some? && ok then Some(old(expedition).value.(estado := Cancelada)) else old(expedition)
    {
      if routeId == "" || !confirmed {
        return None;
      }
      sent := Some(UpdateRequest(ParseInt(routeId), UpdateExpedicion(Some(Cancelada), None, None)));
      if ok {
        expedition := Some(expedition.value.(estado := Cancelada));
      }
    }
  }
}
