/**
  * The expedition list of src/pages/ExpeditionsPage.tsx: a status filter, a
  * newest-first order on a copy of the list, and the creation form.
  */
module ExpeditionsPage {
  import opened Wrappers
  import opened Types
  import opened Seqs
  import opened Sorting

  /** The filter chips: "all" (the empty string) or one status. */
  datatype StatusFilter = AllStatuses | Only(estado: EstadoExpedicion)

  function HasEstado(estado: EstadoExpedicion): Expedicion -> bool {
    (e: Expedicion) => e.estado == estado
  }

  /** `filtered`: every expedition, or exactly those with the chosen status, in their order. */
  function Filtered(exps: seq<Expedicion>, filter: StatusFilter): (r: seq<Expedicion>)
    ensures filter == AllStatuses ==> r == exps
    ensures filter.Only? ==> forall e :: e in r <==> e in exps && e.estado == filter.estado
    ensures Subsequence(r, exps)
  {
    match filter
    case AllStatuses =>
      SubsequenceRefl(exps);
      exps
    case Only(estado) => Filter(exps, HasEstado(estado))
  }

  /** The comparator's key: the creation time stamp. */
  function CreatedAt(e: Expedicion): int {
    e.createdAt
  }

  /** `sorted`: the filtered expeditions, each as often as there, newest first. */
  function Sorted(exps: seq<Expedicion>, filter: StatusFilter): (r: seq<Expedicion>)
    ensures multiset(r) == multiset(Filtered(exps, filter))
    ensures forall i, j :: 0 <= i < j < |r| ==> r[i].createdAt >= r[j].createdAt
  {
    var r := SortDesc(Filtered(exps, filter), CreatedAt);
    assert forall i, j :: 0 <= i < j < |r| ==> CreatedAt(r[i]) >= CreatedAt(r[j]);
    r
  }

  /** A list that is already newest first is shown as it is. */
  lemma SortedKeepsOrdered(exps: seq<Expedicion>)
    requires forall i, j :: 0 <= i < j < |exps| ==> exps[i].createdAt >= exps[j].createdAt
    ensures Sorted(exps, AllStatuses) == exps
  {
    assert SortedDesc(exps, CreatedAt);
    SortOfSorted(exps, CreatedAt);
  }

  /** A filtered list holds only expeditions of that status; the shown one too. */
  lemma SortedOnlyStatus(exps: seq<Expedicion>, estado: EstadoExpedicion)
    ensures forall e :: e in Sorted(exps, Only(estado)) ==> e.estado == estado
  {
    var r := Sorted(exps, Only(estado));
    forall e | e in r
      ensures e.estado == estado
    {
      assert e in multiset(r);
    }
  }

  /** The body of `expeditionService.create`: `notas` is left out when the field is empty. */
  datatype CreateRequest = CreateRequest(fecha: string, notas: Option<string>)

  class ListPage {
    var expeditions: seq<Expedicion>
    var showCreate: bool
    var filter: StatusFilter
    var createDate: string
    var createNotes: string

    /** The creation form starts on `today`, an input standing for the current date. */
    constructor (today: string)
      ensures expeditions == [] && !showCreate && filter == AllStatuses
      ensures createDate == today && createNotes == ""
    {
      expeditions, showCreate, filter := [], false, AllStatuses;
      createDate, createNotes := today, "";
    }

    /** What the page lists; ordering works on a copy, so `expeditions` keeps its order. */
    function Shown(): seq<Expedicion>
      reads this
    {
      Sorted(expeditions, filter)
    }

    /** `fetchExpeditions`: a loaded list replaces the old one; a failure keeps it. */
    method Load(outcome: Outcome<seq<Expedicion>>)
      modifies this`expeditions
      ensures expeditions == if outcome.Succeeded? then outcome.response else old(expeditions)
    {
      if outcome.Succeeded? {
        expeditions := outcome.response;
      }
    }

    method SetFilter(f: StatusFilter)
      modifies this`filter
      ensures filter == f
    {
      filter := f;
    }

    method OpenCreate()
      modifies this`showCreate
      ensures showCreate
    {
      showCreate := true;
    }

    /** `setShowCreate(false)`: the modal's close control and its cancel button. */
    method CloseCreate()
      modifies this`showCreate
      ensures !showCreate
    {
      showCreate := false;
    }

    method SetDate(text: string)
      modifies this`createDate
      ensures createDate == text
    {
      createDate := text;
    }

    method SetNotes(text: string)
      modifies this`createNotes
      ensures createNotes == text
    {
      createNotes := text;
    }

    /**
      * `handleCreate`: the form's date and notes are sent; on success the
      * modal closes and the notes are cleared, while the date is kept. The
      * date input is `required`, so the form is never submitted without one.
      */
    method HandleCreate(outcome: Outcome<Expedicion>) returns (sent: CreateRequest)
      requires createDate != ""
      modifies this`showCreate, this`createNotes
      ensures sent.fecha == createDate
      ensures sent.notas.None? <==> old(createNotes) == ""
      ensures sent.notas.Some? ==> sent.notas.value == old(createNotes)
      ensures if outcome.Succeeded? then !showCreate && createNotes == ""
              else showCreate == old(showCreate) && createNotes == old(createNotes)
    {
      sent := CreateRequest(createDate, if createNotes == "" then None else Some(createNotes));
      if outcome.Succeeded? {
        showCreate := false;
        createNotes := "";
      }
    }
  }
}
