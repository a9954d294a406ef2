/**
  * The summary page of src/pages/SummaryPage.tsx: items are marked for sale
  * in a map from reward id to price, the map becomes the liquidation payload,
  * and a completed liquidation clears it.
  */
module Summary {
  import opened Wrappers
  import opened Strings
  import opened Types

  datatype ResumenItem = ResumenItem(recompensaId: int, itemNombre: string, vendido: bool, precioVenta: Option<int>)

  datatype ResumenParticipante = ResumenParticipante(participacionId: int, nombrePersonaje: string, items: seq<ResumenItem>)

  datatype Resumen = Resumen(expedicionId: int, estado: EstadoExpedicion, participantes: seq<ResumenParticipante>)

  /** One `{ recompensa_id, precio_venta }` of the liquidation payload. */
  datatype Venta = Venta(recompensaId: int, precioVenta: int)

  /** The body of `gameplayService.liquidar`; `None` is `parseInt(id)` giving `NaN`. */
  datatype LiquidarRequest = LiquidarRequest(expedicionId: Option<int>, ventas: seq<Venta>)

  /** All items of the summary, participant by participant. */
  function AllItems(parts: seq<ResumenParticipante>): (r: seq<ResumenItem>)
    ensures forall p, it :: p in parts && it in p.items ==> it in r
  {
    if parts == [] then [] else parts[0].items + AllItems(parts[1..])
  }

  /** The sale checkbox is shown for an unsold item of an expedition that is not completed. */
  predicate OffersSale(resumen: Resumen, id: int) {
    resumen.estado != Completada
    && exists it :: it in AllItems(resumen.participantes) && it.recompensaId == id && !it.vendido
  }

  /**
    * `toggleVenta(id)`: an unmarked item is marked with price 0, a marked one
    * is unmarked; every other mark and price is kept.
    */
  function ToggleVenta(ventas: map<int, int>, id: int): (r: map<int, int>)
    ensures id in r <==> id !in ventas
    ensures id in r ==> r[id] == 0
    ensures forall k :: k != id ==> (k in r <==> k in ventas)
    ensures forall k :: k != id && k in r ==> r[k] == ventas[k]
  {
    if id in ventas then ventas - {id} else ventas[id := 0]
  }

  /** Toggling twice restores the marks; a price that was typed in comes back as 0. */
  lemma ToggleVentaTwice(ventas: map<int, int>, id: int)
    ensures ToggleVenta(ToggleVenta(ventas, id), id) == if id in ventas then ventas[id := 0] else ventas
  {
  }

  /** The price input: `parseInt(text) || 0`, so text that is not a number, and "0", give 0. */
  function PriceOf(text: string): int {
    ParseInt(text).GetOr(0)
  }

  /** Whatever integer is typed in is stored. */
  lemma PriceOfShowInt(n: int)
    ensures PriceOf(ShowInt(n)) == n
  {
    ParseShowInt(n);
  }

  /** Text without a digit after the optional sign stores 0. */
  lemma PriceOfNoDigits(text: string)
    requires ParseInt(text) == None
    ensures PriceOf(text) == 0
  {
  }

  /** `m` is the least element of `keys`. */
  predicate IsLeast(m: int, keys: set<int>) {
    m in keys && forall k :: k in keys ==> m <= k
  }

  /** A finite set of integers has a least element. */
  lemma {:induction false} LeastExists(keys: set<int>)
    requires keys != {}
    ensures exists m :: IsLeast(m, keys)
    decreases |keys|
  {
    assert (forall y :: y !in keys) ==> keys == {};
    var x :| x in keys;
    if keys == {x} {
      assert IsLeast(x, keys);
    } else {
      var rest := keys - {x};
      LeastExists(rest);
      var m :| IsLeast(m, rest);
      var least := if x < m then x else m;
      forall k | k in keys
        ensures least <= k
      {
        if k != x {
          assert k in rest;
        }
      }
      assert IsLeast(least, keys);
    }
  }

  /**
    * The keys of a record with integer keys in the order `Object.entries`
    * lists them: ascending (the order JavaScript gives array-index keys).
    */
  function AscendingKeys(keys: set<int>): (r: seq<int>)
    ensures |r| == |keys|
    ensures forall k :: k in r <==> k in keys
    ensures forall i, j :: 0 <= i < j < |r| ==> r[i] < r[j]
    decreases |keys|
  {
    if keys == {} then []
    else
      LeastExists(keys);
      var m :| IsLeast(m, keys);
      var rest := AscendingKeys(keys - {m});
      [m] + rest
  }

  /** One payload entry: the key is a property name, so `parseInt` reads `String(id)` back. */
  function EntryOf(id: int, price: int): (v: Venta)
    ensures v.recompensaId == id && v.precioVenta == price
  {
    ParseShowInt(id);
    Venta(ParseInt(ShowInt(id)).value, price)
  }

  /** Entry `v` carries a marked item with the price the map holds for it. */
  predicate Carries(ventas: map<int, int>, v: Venta) {
    v.recompensaId in ventas && v.precioVenta == ventas[v.recompensaId]
  }

  /** The entries for `keys`, one per key, in the order of `keys`. */
  function Entries(ventas: map<int, int>, keys: seq<int>): (r: seq<Venta>)
    requires forall k :: k in keys ==> k in ventas
    ensures |r| == |keys|
    ensures forall i :: 0 <= i < |r| ==> r[i].recompensaId == keys[i] && Carries(ventas, r[i])
  {
    seq(|keys|, i requires 0 <= i < |keys| => EntryOf(keys[i], ventas[keys[i]]))
  }

  /**
    * `ventasArray`: one entry per marked item, with the price the map holds,
    * in ascending id order.
    */
  function VentasArray(ventas: map<int, int>): (r: seq<Venta>)
    ensures |r| == |ventas|
    ensures forall i :: 0 <= i < |r| ==> Carries(ventas, r[i])
    ensures forall id :: id in ventas ==> exists i :: 0 <= i < |r| && r[i].recompensaId == id
    ensures forall i, j :: 0 <= i < j < |r| ==> r[i].recompensaId < r[j].recompensaId
  {
    var keys := AscendingKeys(ventas.Keys);
    var r := Entries(ventas, keys);
    forall id | id in ventas
      ensures exists i :: 0 <= i < |r| && r[i].recompensaId == id
    {
      var i :| 0 <= i < |keys| && keys[i] == id;
      assert r[i].recompensaId == id;
    }
    r
  }

  /** Every mark of `a` is in `b` with the same price when both send the same payload. */
  lemma SamePayloadIncluded(a: map<int, int>, b: map<int, int>)
    requires VentasArray(a) == VentasArray(b)
    ensures forall k :: k in a ==> k in b && a[k] == b[k]
  {
    var r := VentasArray(a);
    forall id | id in a
      ensures id in b && a[id] == b[id]
    {
      var i :| 0 <= i < |r| && r[i].recompensaId == id;
      var v := r[i];
      assert Carries(a, v);
      assert Carries(b, v);
    }
  }

  /** The payload determines the marks and prices: maps that send the same payload hold the same marks at the same prices. */
  lemma VentasArrayInjective(a: map<int, int>, b: map<int, int>)
    requires VentasArray(a) == VentasArray(b)
    ensures forall k :: k in a <==> k in b
    ensures forall k :: k in a ==> a[k] == b[k]
  {
    SamePayloadIncluded(a, b);
    SamePayloadIncluded(b, a);
  }

  class SummaryPage {
    /** The `id` route parameter. */
    const routeId: string
    var resumen: Option<Resumen>
    var ventas: map<int, int>

    constructor (routeId: string)
      ensures this.routeId == routeId && resumen == None && ventas == map[]
    {
      this.routeId := routeId;
      resumen := None;
      ventas := map[];
    }

    /** The mount effect: with a route id, a loaded summary is installed. */
    method Load(outcome: Outcome<Resumen>)
      modifies this`resumen
      ensures resumen == if routeId != "" && outcome.Succeeded? then Some(outcome.response) else old(resumen)
    {
      if routeId != "" && outcome.Succeeded? {
        resumen := Some(outcome.response);
      }
    }

    /** The sale checkbox of an item. */
    method HandleToggleVenta(id: int)
      requires resumen.Some? && OffersSale(resumen.value, id)
      modifies this`ventas
      ensures ventas == ToggleVenta(old(ventas), id)
    {
      ventas := ToggleVenta(ventas, id);
    }

    /** The price input, shown only for a marked item: that price and no other changes. */
    method EditPrice(id: int, text: string)
      requires id in ventas
      modifies this`ventas
      ensures ventas.Keys == old(ventas).Keys
      ensures ventas == old(ventas)[id := PriceOf(text)]
    {
      ventas := ventas[id := PriceOf(text)];
    }

    /**
      * `handleLiquidar`: with a route id the marks are sent; the marks are
      * cleared and the summary replaced only when both the liquidation and
      * the re-fetch succeed, and otherwise nothing changes.
      */
    method HandleLiquidar(liquidated: bool, refreshed: Outcome<Resumen>) returns (sent: Option<LiquidarRequest>)
      modifies this
      ensures sent.Some? <==> routeId != ""
      ensures sent.Some? ==> sent.value == LiquidarRequest(ParseInt(routeId), VentasArray(old(ventas)))
      ensures if sent.Some? && liquidated && refreshed.Succeeded? then
                resumen == Some(refreshed.response) && ventas == map[]
              else
                resumen == old(resumen) && ventas == old(ventas)
    {
      if routeId == "" {
        return None;
      }
      sent := Some(LiquidarRequest(ParseInt(routeId), VentasArray(ventas)));
      if !liquidated || refreshed.Failed? {
        return;
      }
      resumen := Some(refreshed.response);
      ventas := map[];
    }
  }
}
