/**
  * The dashboard of src/pages/DashboardPage.tsx: the expeditions in progress,
  * the five most recently updated ones, and the greeting.
  */
module Dashboard {
  import opened Wrappers
  import opened Types
  import opened Seqs
  import opened Sorting
  import opened AuthStore

  /** How many recent expeditions the dashboard shows. */
  const RECENT_COUNT: nat := 5

  predicate InProgress(e: Expedicion) {
    e.estado == EnCurso
  }

  /** `activeExpeditions`: exactly the expeditions in progress, in list order. */
  function ActiveExpeditions(exps: seq<Expedicion>): (r: seq<Expedicion>)
    ensures forall e :: e in r <==> e in exps && e.estado == EnCurso
    ensures Subsequence(r, exps)
  {
    Filter(exps, InProgress)
  }

  /** The comparator's key: the update time stamp. */
  function UpdatedAt(e: Expedicion): int {
    e.updatedAt
  }

  function Min(a: nat, b: nat): nat {
    if a <= b then a else b
  }

  /**
    * `.slice(0, 5)` of the list sorted by update time: `min(5, n)`
    * expeditions, latest first, and none of those left out was updated later
    * than one that is shown.
    */
  function Recent(exps: seq<Expedicion>): (r: seq<Expedicion>)
    ensures |r| == Min(RECENT_COUNT, |exps|)
    ensures forall i, j :: 0 <= i < j < |r| ==> r[i].updatedAt >= r[j].updatedAt
    ensures multiset(r) <= multiset(exps)
    ensures forall x, y :: x in r && y in multiset(exps) - multiset(r) ==> x.updatedAt >= y.updatedAt
  {
    var k := Min(RECENT_COUNT, |exps|);
    var sorted := SortDesc(exps, UpdatedAt);
    SortedPrefix(exps, sorted, UpdatedAt, k);
    var r := sorted[..k];
    assert forall i, j :: 0 <= i < j < |r| ==> UpdatedAt(r[i]) >= UpdatedAt(r[j]);
    r
  }

  /** With at most five expeditions, all of them are shown. */
  lemma FewAllRecent(exps: seq<Expedicion>)
    requires |exps| <= RECENT_COUNT
    ensures multiset(Recent(exps)) == multiset(exps)
  {
    var r := Recent(exps);
    assert multiset(exps) - multiset(r) == multiset{} by {
      assert |multiset(exps) - multiset(r)| == |multiset(exps)| - |multiset(r)|;
    }
  }

  /** `user?.nombre || 'Dungeon Master'`. */
  function Greeting(user: Option<SessionUser>): (name: string)
    ensures name != ""
    ensures user.Some? && user.value.nombre != "" ==> name == user.value.nombre
    ensures user.None? || user.value.nombre == "" ==> name == "Dungeon Master"
  {
    if user.Some? && user.value.nombre != "" then user.value.nombre else "Dungeon Master"
  }

  class DashboardPage {
    var expeditions: seq<Expedicion>

    constructor ()
      ensures expeditions == []
    {
      expeditions := [];
    }

    /** The load effect; a failure is swallowed and keeps the list. */
    method Load(outcome: Outcome<seq<Expedicion>>)
      modifies this
      ensures expeditions == if outcome.Succeeded? then outcome.response else old(expeditions)
    {
      if outcome.Succeeded? {
        expeditions := outcome.response;
      }
    }

    /**
      * One render: the active list is taken first, then `.sort` reorders the
      * stored list itself (a permutation of it, latest update first) and the
      * first five of it are shown.
      */
    method Render() returns (active: seq<Expedicion>, recent: seq<Expedicion>)
      modifies this
      ensures active == ActiveExpeditions(old(expeditions))
      ensures expeditions == SortDesc(old(expeditions), UpdatedAt)
      ensures multiset(expeditions) == multiset(old(expeditions))
      ensures recent == Recent(old(expeditions)) && recent == expeditions[..|recent|]
    {
      active := ActiveExpeditions(expeditions);
      expeditions := SortDesc(expeditions, UpdatedAt);
      recent := expeditions[..Min(RECENT_COUNT, |expeditions|)];
    }
  }

  /** Re-rendering sorts an already sorted list: the stored order no longer changes. */
  lemma RenderSettles(exps: seq<Expedicion>)
    ensures SortDesc(SortDesc(exps, UpdatedAt), UpdatedAt) == SortDesc(exps, UpdatedAt)
  {
    SortOfSorted(SortDesc(exps, UpdatedAt), UpdatedAt);
  }
}
