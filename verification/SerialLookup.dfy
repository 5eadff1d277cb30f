/** The serial picker: available serials with their remaining unit cost and their source, looked up in one
    pass over the cost layers instead of two queries per serial. */
module SerialLookup {
  import opened Rounding
  import opened Records
  import opened Tables
  import opened Fifo
  import opened Ordering

  type LotRow = Row<LotKey>

  function SerialOf(layer: Layer): SerialKey {
    SerialKey(layer.place, layer.tag.serial)
  }

  // ---- The simple lookups ----

  /** `lot_layer_value`: quantity and worth of the layers of a scope that still hold stock. */
  function RemainingQty(layers: seq<Layer>, scope: Scope): int {
    if layers == [] then 0
    else
      var last := layers[|layers| - 1];
      RemainingQty(layers[..|layers| - 1], scope)
      + (if InScope(last, scope) && last.qtyRemaining > 0 then last.qtyRemaining else 0)
  }

  function RemainingWorth(layers: seq<Layer>, scope: Scope): int {
    if layers == [] then 0
    else
      var last := layers[|layers| - 1];
      RemainingWorth(layers[..|layers| - 1], scope)
      + (if InScope(last, scope) && last.qtyRemaining > 0 then last.qtyRemaining * last.unitCost else 0)
  }

  lemma {:induction false} RemainingQtyIsNat(layers: seq<Layer>, scope: Scope)
    ensures 0 <= RemainingQty(layers, scope)
  {
    if layers != [] {
      RemainingQtyIsNat(layers[..|layers| - 1], scope);
    }
  }

  /** `lot_layer_unit_cost`: the weighted average remaining unit cost, None when nothing remains. */
  function LotLayerUnitCost(layers: seq<Layer>, place: Place, tag: Tag): Option<int> {
    var scope := ScopeOf(place, tag);
    var qty := RemainingQty(layers, scope);
    RemainingQtyIsNat(layers, scope);
    if qty == 0 then None else Some(RoundHalfUp(RemainingWorth(layers, scope), qty))
  }

  /** The first layer in queue order that received a serial at a place, whether or not it still holds it. */
  function SourceLayer(layers: seq<Layer>, key: SerialKey): Option<Layer> {
    if layers == [] then None
    else
      var earlier := SourceLayer(layers[..|layers| - 1], key);
      if earlier.Some? then earlier
      else if SerialOf(layers[|layers| - 1]) == key then Some(layers[|layers| - 1]) else None
  }

  lemma {:induction false} SourceIsEarliest(layers: seq<Layer>, key: SerialKey)
    requires InQueueOrder(layers)
    ensures match SourceLayer(layers, key)
            case None => forall l :: l in layers ==> SerialOf(l) != key
            case Some(source) =>
              && source in layers && SerialOf(source) == key
              && forall l :: l in layers && SerialOf(l) == key ==> l == source || Before(source, l)
  {
    if layers != [] {
      var front, last := layers[..|layers| - 1], layers[|layers| - 1];
      SourceIsEarliest(front, key);
      assert layers == front + [last];
      forall l | l in front ensures Before(l, last) {
        var i :| 0 <= i < |front| && front[i] == l;
        assert layers[i] == l;
      }
    }
  }

  // ---- Availability ----

  /** The picker's filters, each applied only when given. How text is searched and how SKUs and serials are
      ordered is the database's collation: `found` tells which serials a search finds, and `rank` orders rows
      by SKU and then serial. A limit of zero is no limit. */
  datatype Query = Query(product: Option<ProductId>, location: Option<LocationId>,
                         lot: Option<string>, expiry: Option<int>, found: Option<string -> bool>,
                         rank: LotRow -> Key, limit: Option<nat>)

  /** Physically on hand beyond what is reserved, at a location whose stock is sellable. */
  predicate IsAvailable(t: Tenant, held: set<LocationId>, row: LotRow) {
    && row.key.place.product in t.products && t.products[row.key.place.product].trackSerial
    && row.onHand > row.reserved
    && Given(row.key.tag.serial)
    && row.key.place.location !in held
  }

  predicate Matches(q: Query, key: LotKey) {
    && (q.product.Some? ==> key.place.product == q.product.value)
    && (q.location.Some? ==> key.place.location == q.location.value)
    && (Given(q.lot) ==> key.tag.lot == q.lot)
    && (q.expiry.Some? ==> key.tag.expiry == q.expiry)
    && (q.found.Some? && key.tag.serial.Some? ==> q.found.value(key.tag.serial.value))
  }

  function Page(t: Tenant, held: set<LocationId>, q: Query, lots: seq<LotRow>): seq<LotRow> {
    if lots == [] then []
    else (if IsAvailable(t, held, lots[0]) && Matches(q, lots[0].key) then [lots[0]] else [])
         + Page(t, held, q, lots[1..])
  }

  lemma {:induction false} PageIsTheAvailableRows(t: Tenant, held: set<LocationId>, q: Query, lots: seq<LotRow>)
    ensures forall row :: row in Page(t, held, q, lots)
                     <==> row in lots && IsAvailable(t, held, row) && Matches(q, row.key)
  {
    if lots != [] {
      PageIsTheAvailableRows(t, held, q, lots[1..]);
      assert lots == [lots[0]] + lots[1..];
    }
  }

  function Limited(rows: seq<LotRow>, limit: Option<nat>): seq<LotRow> {
    if limit.Some? && 0 < limit.value < |rows| then rows[..limit.value] else rows
  }

  /** The rows the picker shows: the first of the available ones, by SKU and serial. */
  function Shown(t: Tenant, held: set<LocationId>, q: Query, lots: seq<LotRow>): seq<LotRow> {
    Limited(SortBy(q.rank, Page(t, held, q, lots)), q.limit)
  }

  /** Limited rows are in order, as many as there are or the limit allows, and no row left out comes before
      one of them. */
  lemma {:induction false} LimitedAreFirst(rank: LotRow -> Key, page: seq<LotRow>, limit: Option<nat>)
    ensures var shown := Limited(SortBy(rank, page), limit);
            && Sorted(rank, shown) && (forall row :: row in shown ==> row in page)
            && |shown| == (if limit.Some? && limit.value != 0 then Min(limit.value, |page|) else |page|)
            && (forall row, other :: row in shown && other in page && other !in shown ==>
                  AtMost(rank(row), rank(other)))
  {
    var sorted := SortBy(rank, page);
    var shown := Limited(sorted, limit);
    SortBySorts(rank, page);
    SortByMembers(rank, page);
    SortByKeepsLength(rank, page);
    assert shown == sorted[..|shown|];
  }

  /** So the rows shown are available rows that match, and the first of them. */
  lemma {:induction false} ShownIsFirstOfAvailable(t: Tenant, held: set<LocationId>, q: Query, lots: seq<LotRow>)
    ensures var shown := Shown(t, held, q, lots);
            && Sorted(q.rank, shown)
            && (forall row :: row in shown ==> row in lots && IsAvailable(t, held, row) && Matches(q, row.key))
            && (forall row, other :: row in shown && other in Page(t, held, q, lots) && other !in shown ==>
                  AtMost(q.rank(row), q.rank(other)))
  {
    PageIsTheAvailableRows(t, held, q, lots);
    LimitedAreFirst(q.rank, Page(t, held, q, lots), q.limit);
  }

  // ---- The single pass ----

  datatype Totals = Totals(worth: int, qty: int)
  datatype Source = Source(receivedAt: int, ref: Ref)
  datatype Listing = Listing(row: LotRow, source: Option<Source>, unitCost: Option<int>)

  /** The layers the batch query fetches: of a product, at a location and with a serial on the page. */
  predicate Fetched(layer: Layer, products: set<ProductId>, locations: set<LocationId>, serials: set<Option<string>>) {
    layer.place.product in products && layer.place.location in locations && layer.tag.serial in serials
  }

  function Fetch(layers: seq<Layer>, products: set<ProductId>, locations: set<LocationId>,
                 serials: set<Option<string>>): seq<Layer>
  {
    if layers == [] then []
    else
      Fetch(layers[..|layers| - 1], products, locations, serials)
      + (if Fetched(layers[|layers| - 1], products, locations, serials) then [layers[|layers| - 1]] else [])
  }

  /** Fetching loses no layer of a lot or serial whose product, location and serial are on the page. */
  lemma {:induction false} FetchKeepsPageLayers(layers: seq<Layer>, products: set<ProductId>,
      locations: set<LocationId>, serials: set<Option<string>>, key: LotKey)
    requires key.place.product in products && key.place.location in locations && key.tag.serial in serials
    ensures var got, scope := Fetch(layers, products, locations, serials), OneLot(key.place, key.tag);
            && RemainingQty(got, scope) == RemainingQty(layers, scope)
            && RemainingWorth(got, scope) == RemainingWorth(layers, scope)
            && SourceLayer(got, SerialKey(key.place, key.tag.serial))
               == SourceLayer(layers, SerialKey(key.place, key.tag.serial))
  {
    if layers != [] {
      var front, last := layers[..|layers| - 1], layers[|layers| - 1];
      FetchKeepsPageLayers(front, products, locations, serials, key);
      var got := Fetch(front, products, locations, serials);
      assert (got + [last])[..|got|] == got && got + [] == got;
    }
  }

  /** The dictionaries hold, for every lot and serial, what the simple lookups say of the layers seen. */
  ghost predicate Indexed(layers: seq<Layer>, val: map<LotKey, Totals>, src: map<SerialKey, Source>) {
    && (forall key: LotKey {:trigger key in val} ::
          var scope := OneLot(key.place, key.tag);
          if key in val
          then val[key] == Totals(RemainingWorth(layers, scope), RemainingQty(layers, scope)) && val[key].qty > 0
          else RemainingQty(layers, scope) == 0 && RemainingWorth(layers, scope) == 0)
    && (forall key: SerialKey {:trigger key in src} ::
          var source := SourceLayer(layers, key);
          if key in src then source.Some? && src[key] == Source(source.value.receivedAt, source.value.ref)
          else source.None?)
  }

  lemma {:induction false} IndexStep(layers: seq<Layer>, i: nat, val: map<LotKey, Totals>, src: map<SerialKey, Source>)
    requires i < |layers| && Indexed(layers[..i], val, src)
    ensures var l := layers[i];
            var key := LotKey(l.place, l.tag);
            var src' := if SerialOf(l) in src then src else src[SerialOf(l) := Source(l.receivedAt, l.ref)];
            var acc := if key in val then val[key] else Totals(0, 0);
            var val' := if l.qtyRemaining > 0
                        then val[key := Totals(acc.worth + l.qtyRemaining * l.unitCost, acc.qty + l.qtyRemaining)]
                        else val;
            Indexed(layers[..i + 1], val', src')
  {
    assert layers[..i + 1][..i] == layers[..i];
  }

  method BuildIndexes(layers: seq<Layer>) returns (val: map<LotKey, Totals>, src: map<SerialKey, Source>)
    ensures Indexed(layers, val, src)
  {
    val, src := map[], map[];
    var i := 0;
    while i < |layers|
      invariant 0 <= i <= |layers|
      invariant Indexed(layers[..i], val, src)
    {
      var l := layers[i];
      IndexStep(layers, i, val, src);
      if SerialOf(l) !in src {
        src := src[SerialOf(l) := Source(l.receivedAt, l.ref)];
      }
      if l.qtyRemaining > 0 {
        var key := LotKey(l.place, l.tag);
        var acc := if key in val then val[key] else Totals(0, 0);
        val := val[key := Totals(acc.worth + l.qtyRemaining * l.unitCost, acc.qty + l.qtyRemaining)];
      }
      i := i + 1;
    }
    assert layers[..i] == layers;
  }

  /** What one listing says, in terms of the simple lookups on the whole layer table. */
  ghost predicate PricedAlone(layers: seq<Layer>, listing: Listing) {
    var key := listing.row.key;
    var source := SourceLayer(layers, SerialKey(key.place, key.tag.serial));
    && listing.unitCost == LotLayerUnitCost(layers, key.place, key.tag)
    && listing.source == (if source.Some? then Some(Source(source.value.receivedAt, source.value.ref)) else None)
  }

  lemma {:induction false} BatchAgreesWithSimple(layers: seq<Layer>, products: set<ProductId>,
      locations: set<LocationId>, serials: set<Option<string>>, val: map<LotKey, Totals>, src: map<SerialKey, Source>,
      row: LotRow)
    requires Indexed(Fetch(layers, products, locations, serials), val, src)
    requires row.key.place.product in products && row.key.place.location in locations
    requires row.key.tag.serial in serials && Given(row.key.tag.serial)
    ensures row.key in val ==> 0 < val[row.key].qty
    ensures var skey := SerialKey(row.key.place, row.key.tag.serial);
            PricedAlone(layers, Listing(row, if skey in src then Some(src[skey]) else None,
              if row.key in val then Some(RoundHalfUp(val[row.key].worth, val[row.key].qty)) else None))
  {
    FetchKeepsPageLayers(layers, products, locations, serials, row.key);
  }

  /** Any page of lot rows with serials: each listing carries the cost and source the simple lookups give. */
  method PricePage(rows: seq<LotRow>, layers: seq<Layer>) returns (out: seq<Listing>)
    requires forall row :: row in rows ==> Given(row.key.tag.serial)
    ensures |out| == |rows|
    ensures forall i :: 0 <= i < |out| ==> out[i].row == rows[i] && PricedAlone(layers, out[i])
  {
    out := [];
    if rows == [] {
      return;
    }
    var products := set row | row in rows :: row.key.place.product;
    var locations := set row | row in rows :: row.key.place.location;
    var serials := set row | row in rows :: row.key.tag.serial;
    var val, src := BuildIndexes(Fetch(layers, products, locations, serials));
    var i := 0;
    while i < |rows|
      invariant 0 <= i <= |rows| && |out| == i
      invariant forall j :: 0 <= j < i ==> out[j].row == rows[j] && PricedAlone(layers, out[j])
    {
      var key := rows[i].key;
      var skey := SerialKey(key.place, key.tag.serial);
      BatchAgreesWithSimple(layers, products, locations, serials, val, src, rows[i]);
      var unitCost := if key in val then Some(RoundHalfUp(val[key].worth, val[key].qty)) else None;
      var source := if skey in src then Some(src[skey]) else None;
      out := out + [Listing(rows[i], source, unitCost)];
      i := i + 1;
    }
  }

  /** `available_serials`: the rows to show, each priced and sourced as the simple lookups would. */
  method AvailableSerials(t: Tenant, held: set<LocationId>, q: Query, lots: seq<LotRow>, layers: seq<Layer>)
    returns (out: seq<Listing>)
    ensures |out| == |Shown(t, held, q, lots)|
    ensures forall i :: 0 <= i < |out| ==> out[i].row == Shown(t, held, q, lots)[i] && PricedAlone(layers, out[i])
    ensures forall i :: 0 <= i < |out| ==>
      out[i].row in lots && IsAvailable(t, held, out[i].row) && Matches(q, out[i].row.key)
  {
    ShownIsFirstOfAvailable(t, held, q, lots);
    out := PricePage(Shown(t, held, q, lots), layers);
  }
}
