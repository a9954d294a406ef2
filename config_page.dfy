/** The item search of src/pages/ConfigPage.tsx. */
module ConfigPage {
  import opened Wrappers
  import opened Strings
  import opened Seqs

  datatype TipoItem = Consumible | Equipo | Arma | Armadura | Material | Otro

  /** The wire name of an item type, which the search matches against. */
  function TipoName(t: TipoItem): string {
    match t
    case Consumible => "consumible"
    case Equipo => "equipo"
    case Arma => "arma"
    case Armadura => "armadura"
    case Material => "material"
    case Otro => "otro"
  }

  datatype Item = Item(id: int, nombre: string, tipo: TipoItem, precioBase: Option<int>, descripcion: Option<string>)

  /** The lower-cased name or type contains the lower-cased query. */
  predicate MatchesQuery(item: Item, query: string) {
    Includes(ToLower(item.nombre), ToLower(query)) || Includes(ToLower(TipoName(item.tipo)), ToLower(query))
  }

  function Matching(query: string): Item -> bool {
    (item: Item) => MatchesQuery(item, query)
  }

  /**
    * `filteredItems`: every item for an empty query, and otherwise exactly the
    * items whose name or type contains the query, ignoring case, in their order.
    */
  function FilteredItems(items: seq<Item>, query: string): (r: seq<Item>)
    ensures query == "" ==> r == items
    ensures query != "" ==> forall item :: item in r <==> item in items && MatchesQuery(item, query)
    ensures Subsequence(r, items)
  {
    if query == "" then
      SubsequenceRefl(items);
      items
    else Filter(items, Matching(query))
  }

  /** Queries that differ only in the case of ASCII letters select the same items. */
  lemma CaseInsensitive(items: seq<Item>, q1: string, q2: string)
    requires ToLower(q1) == ToLower(q2)
    ensures FilteredItems(items, q1) == FilteredItems(items, q2)
  {
    if q1 != "" {
      assert |q2| == |q1|;
      FilterCongruent(items, Matching(q1), Matching(q2));
    } else {
      assert |q2| == 0;
    }
  }

  /** An item whose name holds the query verbatim is found. */
  lemma NameMatchFound(items: seq<Item>, query: string, item: Item, i: nat)
    requires item in items && query != ""
    requires i + |query| <= |item.nombre| && item.nombre[i..i + |query|] == query
    ensures item in FilteredItems(items, query)
  {
    var lowered := ToLower(item.nombre);
    assert lowered[i..i + |query|] == ToLower(query);
    assert OccursAt(lowered, ToLower(query), i);
  }
}
