/** First expiry, first out: picking the lots to issue. */
module Fefo {
  import opened Rounding
  import opened Records
  import opened Tables
  import opened Ordering

  type LotRow = Row<LotKey>

  datatype Pick = Pick(row: LotRow, qty: int)

  /** Dated lots by date, undated ones after them; ties keep row order. */
  function ExpiryKey(row: LotRow): Key {
    match row.key.tag.expiry
    case Some(date) => Key(0, date)
    case None => Key(1, 0)
  }

  function InStockAt(place: Place): LotRow -> bool {
    (row: LotRow) => row.key.place == place && row.onHand > 0
  }

  /** The lots with stock at a place, earliest expiry first. */
  function FefoOrder(lots: seq<LotRow>, place: Place): seq<LotRow> {
    SortBy(ExpiryKey, Filter(InStockAt(place), lots))
  }

  function Picks(rows: seq<LotRow>, qty: int): seq<Pick> {
    if rows == [] || qty <= 0 then []
    else var take := Min(qty, rows[0].onHand); [Pick(rows[0], take)] + Picks(rows[1..], qty - take)
  }

  // ---- Reference quantities ----

  /** The lots a question is about: every lot, the dated ones, or those expiring by a date. */
  datatype Cutoff = AnyLot | DatedLots | ExpiringBy(date: int)

  predicate Within(row: LotRow, cutoff: Cutoff) {
    match cutoff
    case AnyLot => true
    case DatedLots => row.key.tag.expiry.Some?
    case ExpiringBy(date) => row.key.tag.expiry.Some? && row.key.tag.expiry.value <= date
  }

  function Stock(rows: seq<LotRow>, cutoff: Cutoff): int {
    if rows == [] then 0 else (if Within(rows[0], cutoff) then rows[0].onHand else 0) + Stock(rows[1..], cutoff)
  }

  /** The positive stock of a place in the lot table itself. */
  function StockAt(lots: seq<LotRow>, place: Place, cutoff: Cutoff): int {
    if lots == [] then 0
    else (if InStockAt(place)(lots[0]) && Within(lots[0], cutoff) then lots[0].onHand else 0)
         + StockAt(lots[1..], place, cutoff)
  }

  function Taken(picks: seq<Pick>, cutoff: Cutoff): int {
    if picks == [] then 0 else (if Within(picks[0].row, cutoff) then picks[0].qty else 0) + Taken(picks[1..], cutoff)
  }

  // ---- Proofs ----

  lemma {:induction false} InsertAddsStock(row: LotRow, rows: seq<LotRow>, cutoff: Cutoff)
    ensures Stock(Insert(ExpiryKey, row, rows), cutoff)
         == (if Within(row, cutoff) then row.onHand else 0) + Stock(rows, cutoff)
  {
    if rows == [] || AtMost(ExpiryKey(row), ExpiryKey(rows[0])) {
      assert ([row] + rows)[1..] == rows;
    } else {
      InsertAddsStock(row, rows[1..], cutoff);
    }
  }

  lemma {:induction false} SortKeepsStock(rows: seq<LotRow>, cutoff: Cutoff)
    ensures Stock(SortBy(ExpiryKey, rows), cutoff) == Stock(rows, cutoff)
  {
    if rows != [] {
      SortKeepsStock(rows[1..], cutoff);
      InsertAddsStock(rows[0], SortBy(ExpiryKey, rows[1..]), cutoff);
    }
  }

  lemma {:induction false} FilterKeepsStock(lots: seq<LotRow>, place: Place, cutoff: Cutoff)
    ensures Stock(Filter(InStockAt(place), lots), cutoff) == StockAt(lots, place, cutoff)
  {
    if lots != [] {
      FilterKeepsStock(lots[1..], place, cutoff);
      var rest := Filter(InStockAt(place), lots[1..]);
      assert ([lots[0]] + rest)[1..] == rest && [] + rest == rest;
    }
  }

  ghost predicate AllInStock(rows: seq<LotRow>) {
    forall i :: 0 <= i < |rows| ==> rows[i].onHand > 0
  }

  lemma {:induction false} FefoOrderIsOrdered(lots: seq<LotRow>, place: Place)
    ensures var order := FefoOrder(lots, place);
            && Sorted(ExpiryKey, order) && AllInStock(order)
            && (forall row :: row in order <==> row in lots && row.key.place == place && row.onHand > 0)
  {
    SortBySorts(ExpiryKey, Filter(InStockAt(place), lots));
    SortByMembers(ExpiryKey, Filter(InStockAt(place), lots));
    FilterMembers(InStockAt(place), lots);
    var order := FefoOrder(lots, place);
    forall i | 0 <= i < |order| ensures order[i].onHand > 0 {
      assert order[i] in order;
    }
  }

  lemma {:induction false} FefoOrderKeepsStock(lots: seq<LotRow>, place: Place, cutoff: Cutoff)
    ensures Stock(FefoOrder(lots, place), cutoff) == StockAt(lots, place, cutoff)
  {
    SortKeepsStock(Filter(InStockAt(place), lots), cutoff);
    FilterKeepsStock(lots, place, cutoff);
  }

  lemma {:induction false} NoStockBeyond(rows: seq<LotRow>, cutoff: Cutoff)
    requires Sorted(ExpiryKey, rows) && AllInStock(rows)
    ensures 0 <= Stock(rows, cutoff)
    ensures rows != [] && !Within(rows[0], cutoff) ==> Stock(rows, cutoff) == 0
  {
    if |rows| > 1 {
      assert AtMost(ExpiryKey(rows[0]), ExpiryKey(rows[1]));
      NoStockBeyond(rows[1..], cutoff);
    }
  }

  lemma {:induction false} NothingTakenBeyond(rows: seq<LotRow>, qty: int, cutoff: Cutoff)
    requires Sorted(ExpiryKey, rows) && rows != [] && !Within(rows[0], cutoff)
    ensures Taken(Picks(rows, qty), cutoff) == 0
  {
    if qty > 0 {
      var take := Min(qty, rows[0].onHand);
      if |rows| > 1 {
        assert AtMost(ExpiryKey(rows[0]), ExpiryKey(rows[1]));
        NothingTakenBeyond(rows[1..], qty - take, cutoff);
      }
      assert Picks(rows, qty)[1..] == Picks(rows[1..], qty - take);
    }
  }

  /** At every cutoff the picks take all they can: the quantity asked for, or all the stock within it. */
  lemma {:induction false} PicksAreOptimal(rows: seq<LotRow>, qty: int, cutoff: Cutoff)
    requires Sorted(ExpiryKey, rows) && AllInStock(rows)
    ensures Taken(Picks(rows, qty), cutoff) == Min(Max(0, qty), Stock(rows, cutoff))
  {
    NoStockBeyond(rows, cutoff);
    if rows != [] && qty > 0 {
      if !Within(rows[0], cutoff) {
        NothingTakenBeyond(rows, qty, cutoff);
      } else {
        var take := Min(qty, rows[0].onHand);
        PicksAreOptimal(rows[1..], qty - take, cutoff);
        NoStockBeyond(rows[1..], cutoff);
        assert Picks(rows, qty)[1..] == Picks(rows[1..], qty - take);
      }
    }
  }

  /** The picks walk the lots in order, each for a positive quantity no larger than the lot holds. */
  lemma {:induction false} PicksWalkTheOrder(rows: seq<LotRow>, qty: int)
    requires AllInStock(rows)
    ensures var picks := Picks(rows, qty);
            |picks| <= |rows| && forall i :: 0 <= i < |picks| ==>
              picks[i].row == rows[i] && 0 < picks[i].qty <= rows[i].onHand
  {
    if rows != [] && qty > 0 {
      PicksWalkTheOrder(rows[1..], qty - Min(qty, rows[0].onHand));
    }
  }

  lemma {:induction false} PicksOfPrefix(rows: seq<LotRow>, i: nat, picks: seq<Pick>, remaining: int, qty: int)
    requires i < |rows| && 0 < remaining
    requires Picks(rows, qty) == picks + Picks(rows[i..], remaining)
    ensures var take := Min(remaining, rows[i].onHand);
            Picks(rows, qty) == picks + [Pick(rows[i], take)] + Picks(rows[i + 1..], remaining - take)
  {
    assert rows[i..][1..] == rows[i + 1..];
  }

  /** For every date, `picks` takes from lots expiring by then as much as the quantity and their stock allow;
      overall it takes the quantity or all there is, with undated lots last; it walks the lots in expiry
      order and takes no more from a lot than it holds. */
  ghost predicate FefoPromise(lots: seq<LotRow>, place: Place, qty: int, picks: seq<Pick>) {
    && (forall cutoff :: Taken(picks, cutoff) == Min(Max(0, qty), StockAt(lots, place, cutoff)))
    && |picks| <= |FefoOrder(lots, place)|
    && (forall i :: 0 <= i < |picks| ==>
          && picks[i].row == FefoOrder(lots, place)[i] && picks[i].row in lots
          && 0 < picks[i].qty <= picks[i].row.onHand)
  }

  lemma {:induction false} FefoPicksPromise(lots: seq<LotRow>, place: Place, qty: int)
    ensures FefoPromise(lots, place, qty, Picks(FefoOrder(lots, place), qty))
  {
    var order := FefoOrder(lots, place);
    FefoOrderIsOrdered(lots, place);
    PicksWalkTheOrder(order, qty);
    forall cutoff ensures Taken(Picks(order, qty), cutoff) == Min(Max(0, qty), StockAt(lots, place, cutoff)) {
      FefoOrderKeepsStock(lots, place, cutoff);
      PicksAreOptimal(order, qty, cutoff);
    }
    forall i | 0 <= i < |Picks(order, qty)| ensures order[i] in lots {
      assert order[i] in order;
    }
  }

  /** The loop of `select_fefo_lots` over the rows its query returned. */
  method PickInOrder(rows: seq<LotRow>, qty: int) returns (picks: seq<Pick>)
    ensures picks == Picks(rows, qty)
  {
    var remaining, i := qty, 0;
    picks := [];
    while i < |rows| && remaining > 0
      invariant 0 <= i <= |rows|
      invariant Picks(rows, qty) == picks + Picks(rows[i..], remaining)
    {
      var take := Min(remaining, rows[i].onHand);
      PicksOfPrefix(rows, i, picks, remaining, qty);
      picks := picks + [Pick(rows[i], take)];
      remaining := remaining - take;
      i := i + 1;
    }
  }

  /** `select_fefo_lots`. */
  method SelectFefoLots(lots: seq<LotRow>, place: Place, qty: int) returns (picks: seq<Pick>)
    ensures FefoPromise(lots, place, qty, picks)
  {
    picks := PickInOrder(FefoOrder(lots, place), qty);
    FefoPicksPromise(lots, place, qty);
  }
}
