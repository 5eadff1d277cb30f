/** Catch-up revaluation of historical cycle counts: finding movements whose value is not the lot's cost, and
    correcting each once, in stock and in the general ledger. */
module CycleCount {
  import opened Rounding
  import opened Records
  import opened Fifo
  import opened Numerals
  import opened Ordering
  import R = Runs
  import S = SerialLookup
  import J = Journals

  datatype Valuation = LotLayer | ProductAverage

  /** The audit row of one corrected movement. */
  datatype Correction = Correction(movement: nat, original: int, expected: int, source: Valuation,
                                   journal: bool, revaluation: bool, postedToCurrentPeriod: bool)

  /** Product cost fields a count may fall back on. */
  datatype Costs = Costs(average: int, standard: int)

  datatype Books = Books(movements: seq<Movement>, layers: seq<Layer>, costs: map<ProductId, Costs>,
                         entries: seq<J.Entry>, corrections: seq<Correction>)

  function RevalRef(movement: nat): Ref {
    Ref(CC_REVAL, Numeral(movement))
  }

  function CostsOf(b: Books, product: ProductId): Costs {
    if product in b.costs then b.costs[product] else Costs(0, 0)
  }

  /** `_expected_value`: at the lot's remaining layer cost, else at the product's average, else standard. */
  function Expected(b: Books, m: Movement): (int, Valuation) {
    var lot := if IsTagged(m.tag) then S.LotLayerUnitCost(b.layers, m.place, m.tag) else None;
    var costs := CostsOf(b, m.place.product);
    var unit := if lot.Some? then lot.value else if costs.average != 0 then costs.average else costs.standard;
    (Cents(m.qty * unit), if lot.Some? then LotLayer else ProductAverage)
  }

  predicate IsCorrected(b: Books, movement: nat) {
    exists i :: 0 <= i < |b.corrections| && b.corrections[i].movement == movement
  }

  predicate HasGl(b: Books, m: Movement) {
    J.Exists(b.entries, Ref(CYCLE_COUNT, m.ref.id))
  }

  datatype DriftRow = DriftRow(movement: nat, original: int, expected: int, source: Valuation,
                               variance: int, glImpact: int)

  function RowOf(b: Books, id: nat): DriftRow
    requires id < |b.movements|
  {
    var m := b.movements[id];
    var expected := Expected(b, m);
    DriftRow(id, m.value, expected.0, expected.1, expected.0 - m.value,
             expected.0 - (if HasGl(b, m) then m.value else 0))
  }

  /** A tagged cycle-count movement, not corrected yet, out by more than the tolerance in stock or ledger. */
  predicate Drifts(b: Books, tolerance: int, id: nat)
    requires id < |b.movements|
  {
    var m, row := b.movements[id], RowOf(b, id);
    && m.ref.kind == CYCLE_COUNT && !IsCorrected(b, id) && IsTagged(m.tag)
    && !(Abs(row.variance) <= tolerance && Abs(row.glImpact) <= tolerance)
  }

  function Ids(n: nat): (ids: seq<nat>)
    ensures forall id: nat :: id in ids <==> id < n
  {
    if n == 0 then [] else Ids(n - 1) + [n - 1]
  }

  /** The ids of all movements, in (created_at, id) order. */
  function ScanOrder(ms: seq<Movement>): seq<nat> {
    SortBy<nat>(AtKey(ms), Ids(|ms|))
  }

  function AtKey(ms: seq<Movement>): nat -> Key {
    (id: nat) => Key(if id < |ms| then ms[id].at else 0, id)
  }

  lemma {:induction false} ScanOrderIsAllIds(ms: seq<Movement>)
    ensures forall id: nat :: id in ScanOrder(ms) <==> id < |ms|
    ensures Sorted(AtKey(ms), ScanOrder(ms))
  {
    SortByMembers<nat>(AtKey(ms), Ids(|ms|));
    SortBySorts<nat>(AtKey(ms), Ids(|ms|));
  }

  function Report(b: Books, tolerance: int, ids: seq<nat>): seq<DriftRow> {
    if ids == [] then []
    else
      Report(b, tolerance, ids[..|ids| - 1])
      + (if ids[|ids| - 1] < |b.movements| && Drifts(b, tolerance, ids[|ids| - 1])
         then [RowOf(b, ids[|ids| - 1])] else [])
  }

  /** `find_drift`. */
  function FindDrift(b: Books, tolerance: int): seq<DriftRow> {
    Report(b, tolerance, ScanOrder(b.movements))
  }

  lemma {:induction false} ReportIsTheDrift(b: Books, tolerance: int, ids: seq<nat>)
    ensures forall row :: row in Report(b, tolerance, ids) <==>
      row.movement in ids && row.movement < |b.movements| && Drifts(b, tolerance, row.movement)
      && row == RowOf(b, row.movement)
  {
    if ids != [] {
      ReportIsTheDrift(b, tolerance, ids[..|ids| - 1]);
      assert ids == ids[..|ids| - 1] + [ids[|ids| - 1]];
    }
  }

  lemma {:induction false} FindDriftIsTheDrift(b: Books, tolerance: int)
    ensures forall row :: row in FindDrift(b, tolerance) <==>
      row.movement < |b.movements| && Drifts(b, tolerance, row.movement) && row == RowOf(b, row.movement)
  {
    ReportIsTheDrift(b, tolerance, ScanOrder(b.movements));
    ScanOrderIsAllIds(b.movements);
  }

  /** Movement `id` was made no later than movement `next`, and comes before it among those made at once. */
  predicate NoLater(ms: seq<Movement>, id: nat, next: nat) {
    id < |ms| && next < |ms| && (ms[id].at < ms[next].at || (ms[id].at == ms[next].at && id <= next))
  }

  ghost predicate InTime(ms: seq<Movement>, rows: seq<DriftRow>) {
    forall i, j :: 0 <= i < j < |rows| ==> NoLater(ms, rows[i].movement, rows[j].movement)
  }

  lemma {:induction false} InTimeAppend(ms: seq<Movement>, rows: seq<DriftRow>, last: DriftRow)
    requires InTime(ms, rows)
    requires forall row :: row in rows ==> NoLater(ms, row.movement, last.movement)
    ensures InTime(ms, rows + [last])
  {
    var all := rows + [last];
    forall i, j | 0 <= i < j < |all| ensures NoLater(ms, all[i].movement, all[j].movement) {
      if j == |rows| {
        assert rows[i] in rows;
      }
    }
  }

  lemma {:induction false} ReportKeepsOrder(b: Books, tolerance: int, ids: seq<nat>)
    requires forall i, j :: 0 <= i < j < |ids| ==> NoLater(b.movements, ids[i], ids[j])
    ensures InTime(b.movements, Report(b, tolerance, ids))
  {
    if ids != [] {
      var front, last := ids[..|ids| - 1], ids[|ids| - 1];
      var rows := Report(b, tolerance, front);
      ReportKeepsOrder(b, tolerance, front);
      if last < |b.movements| && Drifts(b, tolerance, last) {
        ReportIsTheDrift(b, tolerance, front);
        forall row | row in rows ensures NoLater(b.movements, row.movement, last) {
          var k :| 0 <= k < |front| && front[k] == row.movement;
          assert ids[k] == front[k] && NoLater(b.movements, ids[k], ids[|ids| - 1]);
        }
        InTimeAppend(b.movements, rows, RowOf(b, last));
      } else {
        assert Report(b, tolerance, ids) == rows;
      }
    }
  }

  /** The report, and so the corrections, go by when movements were made and then by id. */
  lemma {:induction false} DriftInOrder(b: Books, tolerance: int)
    ensures InTime(b.movements, FindDrift(b, tolerance))
  {
    var ids := ScanOrder(b.movements);
    ScanOrderIsAllIds(b.movements);
    forall i, j | 0 <= i < j < |ids| ensures NoLater(b.movements, ids[i], ids[j]) {
      assert ids[i] in ids && ids[j] in ids;
      assert AtMost(AtKey(b.movements)(ids[i]), AtKey(b.movements)(ids[j]));
    }
    ReportKeepsOrder(b, tolerance, ids);
  }

  // ---- Applying the corrections ----

  datatype Period = Period(lockDate: Option<int>, postingDate: int, blockClosed: bool, now: int)

  /** The day of a timestamp in seconds. */
  function DayOf(at: int): int {
    at / 86400
  }

  predicate InClosed(p: Period, at: int) {
    p.lockDate.Some? && DayOf(at) <= p.lockDate.value
  }

  function RevalLines(glImpact: int): seq<J.Line> {
    if glImpact > 0 then [J.Line(J.Inventory, glImpact, 0), J.Line(J.Adjustment, 0, glImpact)]
    else [J.Line(J.Adjustment, -glImpact, 0), J.Line(J.Inventory, 0, -glImpact)]
  }

  function RevalMovement(m: Movement, id: nat, value: int, at: int): Movement {
    Movement(MovementType.Adjustment, m.place, None, m.tag, 0, None, value, RevalRef(id), at)
  }

  /** Post one correction: a value-only movement, a journal, and the audit row that makes it once only. */
  function Correct(b: Books, row: DriftRow, p: Period): Books
    requires row.movement < |b.movements|
  {
    var m := b.movements[row.movement];
    var closed := InClosed(p, m.at);
    b.(movements :=
         if row.variance != 0
         then b.movements + [RevalMovement(m, row.movement, row.variance, if closed then p.now else m.at)]
         else b.movements,
       entries :=
         if row.glImpact != 0
         then b.entries + [J.Entry(RevalRef(row.movement), if closed then p.postingDate else DayOf(m.at),
                                   RevalLines(row.glImpact))]
         else b.entries,
       corrections := b.corrections + [Correction(row.movement, row.original, row.expected, row.source,
                                                  row.glImpact != 0, row.variance != 0, closed)])
  }

  datatype Outcome = Outcome(books: Books, corrected: seq<DriftRow>, blocked: seq<DriftRow>)

  predicate Blocked(b: Books, row: DriftRow, p: Period) {
    row.movement < |b.movements| && InClosed(p, b.movements[row.movement].at) && p.blockClosed
  }

  function ApplyRows(b: Books, rows: seq<DriftRow>, p: Period): (o: Outcome)
    requires forall row :: row in rows ==> row.movement < |b.movements|
    ensures |b.movements| <= |o.books.movements| && o.books.movements[..|b.movements|] == b.movements
  {
    if rows == [] then Outcome(b, [], [])
    else
      var last := rows[|rows| - 1];
      assert forall row :: row in rows[..|rows| - 1] ==> row in rows;
      var o := ApplyRows(b, rows[..|rows| - 1], p);
      if Blocked(b, last, p) then o.(blocked := o.blocked + [last])
      else Outcome(Correct(o.books, last, p), o.corrected + [last], o.blocked)
  }

  /** `apply_corrections`. */
  function Apply(b: Books, tolerance: int, p: Period): Outcome {
    FindDriftIsTheDrift(b, tolerance);
    ApplyRows(b, FindDrift(b, tolerance), p)
  }

  // ---- What corrections leave alone ----

  /** `after` adds value-only revaluations to `b`; nothing a count is valued from has changed. */
  ghost predicate OnlyRevalued(b: Books, after: Books) {
    && after.layers == b.layers && after.costs == b.costs
    && |b.movements| <= |after.movements| && after.movements[..|b.movements|] == b.movements
    && (forall id :: |b.movements| <= id < |after.movements| ==>
          after.movements[id].qty == 0 && after.movements[id].ref.kind == CC_REVAL)
    && (forall x :: J.Exists(after.entries, Ref(CYCLE_COUNT, x)) <==> J.Exists(b.entries, Ref(CYCLE_COUNT, x)))
  }

  lemma {:induction false} RowsOnlyRevalue(b: Books, rows: seq<DriftRow>, p: Period)
    requires forall row :: row in rows ==> row.movement < |b.movements|
    ensures var o := ApplyRows(b, rows, p);
            && OnlyRevalued(b, o.books)
            && (forall id :: IsCorrected(o.books, id)
                        <==> IsCorrected(b, id) || exists row :: row in o.corrected && row.movement == id)
            && (forall row :: row in o.corrected <==> row in rows && !Blocked(b, row, p))
            && (forall row :: row in o.blocked <==> row in rows && Blocked(b, row, p))
  {
    if rows != [] {
      var front, last := rows[..|rows| - 1], rows[|rows| - 1];
      assert rows == front + [last];
      var o := ApplyRows(b, front, p);
      RowsOnlyRevalue(b, front, p);
      if !Blocked(b, last, p) {
        CorrectOnlyRevalues(b, o.books, last, p);
        CorrectMarksItsMovement(o.books, last, p);
      }
    }
  }

  lemma {:induction false} CorrectMarksItsMovement(b: Books, row: DriftRow, p: Period)
    requires row.movement < |b.movements|
    ensures forall id :: IsCorrected(Correct(b, row, p), id) <==> IsCorrected(b, id) || id == row.movement
  {
    var after := Correct(b, row, p);
    forall id ensures IsCorrected(after, id) <==> IsCorrected(b, id) || id == row.movement {
      assert after.corrections[|b.corrections|].movement == row.movement;
      if IsCorrected(b, id) {
        var i :| 0 <= i < |b.corrections| && b.corrections[i].movement == id;
        assert after.corrections[i].movement == id;
      }
    }
  }

  lemma {:induction false} CorrectOnlyRevalues(b: Books, now: Books, row: DriftRow, p: Period)
    requires OnlyRevalued(b, now) && row.movement < |b.movements|
    ensures OnlyRevalued(b, Correct(now, row, p))
  {
    var after := Correct(now, row, p);
    if row.glImpact != 0 {
      J.LedgerOfAppend(now.entries, after.entries[|now.entries|]);
    }
  }

  lemma {:induction false} RevaluedRowsAreSame(b: Books, after: Books, id: nat)
    requires OnlyRevalued(b, after) && id < |b.movements|
    ensures RowOf(after, id) == RowOf(b, id)
  {
    assert after.movements[id] == b.movements[id] by {
      assert after.movements[..|b.movements|][id] == b.movements[id];
    }
  }

  /** After the corrections, looking for drift again finds exactly the rows that were blocked. */
  lemma {:induction false} DriftAfterIsTheBlocked(b: Books, tolerance: int, p: Period)
    ensures var o := Apply(b, tolerance, p);
            forall row :: row in FindDrift(o.books, tolerance) <==> row in o.blocked
  {
    var o := Apply(b, tolerance, p);
    FindDriftIsTheDrift(b, tolerance);
    FindDriftIsTheDrift(o.books, tolerance);
    RowsOnlyRevalue(b, FindDrift(b, tolerance), p);
    forall row ensures row in FindDrift(o.books, tolerance) <==> row in o.blocked {
      DriftAfter(b, tolerance, p, row);
    }
  }

  lemma {:induction false} DriftAfter(b: Books, tolerance: int, p: Period, row: DriftRow)
    ensures var o := Apply(b, tolerance, p);
            row.movement < |o.books.movements| && Drifts(o.books, tolerance, row.movement)
            && row == RowOf(o.books, row.movement)
            <==> row in o.blocked
  {
    var o := Apply(b, tolerance, p);
    FindDriftIsTheDrift(b, tolerance);
    RowsOnlyRevalue(b, FindDrift(b, tolerance), p);
    var id := row.movement;
    if id < |b.movements| {
      RevaluedRowsAreSame(b, o.books, id);
      assert o.books.movements[id] == o.books.movements[..|b.movements|][id];
    }
  }

  /** Applying the corrections again corrects nothing and changes nothing. */
  lemma {:induction false} ApplyingAgainChangesNothing(b: Books, tolerance: int, p: Period)
    ensures var once := Apply(b, tolerance, p).books;
            var twice := Apply(once, tolerance, p);
            twice.books == once && twice.corrected == []
  {
    var o := Apply(b, tolerance, p);
    FindDriftIsTheDrift(o.books, tolerance);
    DriftAfterIsTheBlocked(b, tolerance, p);
    FindDriftIsTheDrift(b, tolerance);
    RowsOnlyRevalue(b, FindDrift(b, tolerance), p);
    forall row | row in FindDrift(o.books, tolerance) ensures Blocked(o.books, row, p) {
      assert row in o.blocked;
      assert o.books.movements[row.movement] == o.books.movements[..|b.movements|][row.movement];
    }
    AllBlockedChangesNothing(o.books, FindDrift(o.books, tolerance), p);
  }

  lemma {:induction false} AllBlockedChangesNothing(b: Books, rows: seq<DriftRow>, p: Period)
    requires forall row :: row in rows ==> row.movement < |b.movements| && Blocked(b, row, p)
    ensures ApplyRows(b, rows, p).books == b && ApplyRows(b, rows, p).corrected == []
  {
    if rows != [] {
      assert rows[|rows| - 1] in rows && forall row :: row in rows[..|rows| - 1] ==> row in rows;
      AllBlockedChangesNothing(b, rows[..|rows| - 1], p);
    }
  }

  // ---- What a correction achieves ----

  /** The value of a movement in stock: its own, and its revaluations'. */
  function Revaluations(ms: seq<Movement>, id: nat): int {
    if ms == [] then 0
    else Revaluations(ms[..|ms| - 1], id) + (if ms[|ms| - 1].ref == RevalRef(id) then ms[|ms| - 1].value else 0)
  }

  function SubledgerValue(b: Books, id: nat): int
    requires id < |b.movements|
  {
    b.movements[id].value + Revaluations(b.movements, id)
  }

  /** What the catch-up journals of a movement posted to Inventory. */
  function CatchUp(entries: seq<J.Entry>, id: nat): int {
    if entries == [] then 0
    else
      var e := entries[|entries| - 1];
      CatchUp(entries[..|entries| - 1], id) + (if e.ref == RevalRef(id) then J.Net(e.lines, J.Inventory) else 0)
  }

  /** The effect of a movement on Inventory in the ledger: its original value if the count posted, and the
      catch-up. */
  function GlEffect(b: Books, id: nat): int
    requires id < |b.movements|
  {
    (if HasGl(b, b.movements[id]) then b.movements[id].value else 0) + CatchUp(b.entries, id)
  }

  /** Revaluations and catch-up journals exist only for movements that have been corrected. */
  ghost predicate Consistent(b: Books) {
    forall id :: !IsCorrected(b, id) ==>
      Revaluations(b.movements, id) == 0 && CatchUp(b.entries, id) == 0 && !J.Exists(b.entries, RevalRef(id))
  }

  lemma {:induction false} RevalLinesPost(glImpact: int)
    ensures J.Balanced(RevalLines(glImpact)) && J.Net(RevalLines(glImpact), J.Inventory) == glImpact
    ensures J.Net(RevalLines(glImpact), J.Adjustment) == -glImpact
    ensures forall account :: account !in {J.Inventory, J.Adjustment} ==> J.Net(RevalLines(glImpact), account) == 0
  {
    var lines := RevalLines(glImpact);
    assert lines == [lines[0]] + [lines[1]];
    J.TotalsOfConcat([lines[0]], [lines[1]]);
    forall account ensures J.Net(lines, account) == J.Net([lines[0]], account) + J.Net([lines[1]], account) {
      J.NetOfConcat([lines[0]], [lines[1]], account);
    }
    assert [lines[0]][1..] == [] && [lines[1]][1..] == [];
  }

  /** One correction adds its variance and its ledger impact to its own movement, and nothing to others. */
  lemma {:induction false} CorrectAddsItsOwn(b: Books, row: DriftRow, p: Period, id: nat)
    requires row.movement < |b.movements|
    ensures var after := Correct(b, row, p);
            && Revaluations(after.movements, id)
               == Revaluations(b.movements, id) + (if id == row.movement then row.variance else 0)
            && CatchUp(after.entries, id) == CatchUp(b.entries, id) + (if id == row.movement then row.glImpact else 0)
            && (id != row.movement ==> (J.Exists(after.entries, RevalRef(id)) <==> J.Exists(b.entries, RevalRef(id))))
  {
    var after := Correct(b, row, p);
    if RevalRef(id) == RevalRef(row.movement) {
      NumeralsDiffer(id, row.movement);
    }
    if row.variance != 0 {
      assert after.movements[..|b.movements|] == b.movements;
    }
    if row.glImpact != 0 {
      assert after.entries[..|b.entries|] == b.entries;
      RevalLinesPost(row.glImpact);
    }
  }

  lemma {:induction false} CorrectKeepsConsistent(b: Books, row: DriftRow, p: Period)
    requires Consistent(b) && row.movement < |b.movements|
    ensures Consistent(Correct(b, row, p))
  {
    var after := Correct(b, row, p);
    CorrectMarksItsMovement(b, row, p);
    forall id | !IsCorrected(after, id)
      ensures Revaluations(after.movements, id) == 0 && CatchUp(after.entries, id) == 0
           && !J.Exists(after.entries, RevalRef(id))
    {
      CorrectAddsItsOwn(b, row, p, id);
    }
  }

  function VarianceOf(rows: seq<DriftRow>, id: nat): int {
    if rows == [] then 0
    else VarianceOf(rows[..|rows| - 1], id) + (if rows[|rows| - 1].movement == id then rows[|rows| - 1].variance else 0)
  }

  function ImpactOf(rows: seq<DriftRow>, id: nat): int {
    if rows == [] then 0
    else ImpactOf(rows[..|rows| - 1], id) + (if rows[|rows| - 1].movement == id then rows[|rows| - 1].glImpact else 0)
  }

  /** Each movement is reported once. */
  ghost predicate OncePerMovement(rows: seq<DriftRow>) {
    forall i, j :: 0 <= i < j < |rows| ==> rows[i].movement != rows[j].movement
  }

  lemma {:induction false} OwnRowIsTheTotal(rows: seq<DriftRow>, row: DriftRow)
    requires OncePerMovement(rows)
    ensures row in rows ==>
      VarianceOf(rows, row.movement) == row.variance && ImpactOf(rows, row.movement) == row.glImpact
    ensures (forall r :: r in rows ==> r.movement != row.movement) ==>
      VarianceOf(rows, row.movement) == 0 && ImpactOf(rows, row.movement) == 0
  {
    if rows != [] {
      var front, last := rows[..|rows| - 1], rows[|rows| - 1];
      assert rows == front + [last];
      OwnRowIsTheTotal(front, row);
      if last == row {
        forall r | r in front ensures r.movement != row.movement {
          var i :| 0 <= i < |front| && front[i] == r;
          assert rows[i] == r;
        }
      } else if row in rows {
        var i :| 0 <= i < |front| && front[i] == row;
        assert rows[i] == row;
      }
    }
  }

  /** The adjustments a run of corrections makes to a movement are those of its rows. */
  lemma {:induction false} AppliedAdjustments(b: Books, rows: seq<DriftRow>, p: Period, id: nat)
    requires (forall row :: row in rows ==> row.movement < |b.movements|) && Consistent(b)
    ensures var o := ApplyRows(b, rows, p);
            && Consistent(o.books)
            && Revaluations(o.books.movements, id) == Revaluations(b.movements, id) + VarianceOf(o.corrected, id)
            && CatchUp(o.books.entries, id) == CatchUp(b.entries, id) + ImpactOf(o.corrected, id)
  {
    if rows != [] {
      var front, last := rows[..|rows| - 1], rows[|rows| - 1];
      assert rows == front + [last];
      AppliedAdjustments(b, front, p, id);
      var o := ApplyRows(b, front, p);
      if !Blocked(b, last, p) {
        CorrectKeepsConsistent(o.books, last, p);
        CorrectAddsItsOwn(o.books, last, p, id);
        assert (o.corrected + [last])[..|o.corrected|] == o.corrected;
      }
    }
  }

  lemma {:induction false} CorrectedOncePerMovement(b: Books, rows: seq<DriftRow>, p: Period)
    requires (forall row :: row in rows ==> row.movement < |b.movements|) && OncePerMovement(rows)
    ensures OncePerMovement(ApplyRows(b, rows, p).corrected)
  {
    if rows != [] {
      var front, last := rows[..|rows| - 1], rows[|rows| - 1];
      assert rows == front + [last];
      CorrectedOncePerMovement(b, front, p);
      RowsOnlyRevalue(b, front, p);
      var corrected := ApplyRows(b, front, p).corrected;
      forall i | 0 <= i < |corrected| ensures corrected[i].movement != last.movement {
        assert corrected[i] in front;
        var k :| 0 <= k < |front| && front[k] == corrected[i];
        assert rows[k] == front[k];
      }
    }
  }

  lemma {:induction false} ReportHasNoRepeats(b: Books, tolerance: int, ids: seq<nat>)
    requires NoRepeats(ids)
    ensures OncePerMovement(Report(b, tolerance, ids))
  {
    if ids != [] {
      var front, last := ids[..|ids| - 1], ids[|ids| - 1];
      ReportHasNoRepeats(b, tolerance, front);
      ReportIsTheDrift(b, tolerance, front);
      var rows := Report(b, tolerance, front);
      forall i | 0 <= i < |rows| ensures rows[i].movement != last {
        assert rows[i] in rows;
        var k :| 0 <= k < |front| && front[k] == rows[i].movement;
        assert ids[k] == front[k];
      }
      if last < |b.movements| {
        assert RowOf(b, last).movement == last;
      }
    }
  }

  lemma {:induction false} IdsHaveNoRepeats(n: nat)
    ensures NoRepeats(Ids(n))
  {
    if n > 0 {
      IdsHaveNoRepeats(n - 1);
      var ids := Ids(n - 1);
      forall k | 0 <= k < |ids| ensures ids[k] < n - 1 {
        assert ids[k] in ids;
      }
    }
  }

  lemma {:induction false} ScanOrderHasNoRepeats(ms: seq<Movement>)
    ensures NoRepeats(ScanOrder(ms))
  {
    IdsHaveNoRepeats(|ms|);
    SortByKeepsNoRepeats<nat>(AtKey(ms), Ids(|ms|));
  }

  /** An uncorrected movement starts from its own value; after its row is applied both sides are at the
      expected value. */
  lemma {:induction false} AdjustmentsReachExpected(b: Books, after: Books, row: DriftRow)
    requires Consistent(b) && OnlyRevalued(b, after) && row.movement < |b.movements|
    requires !IsCorrected(b, row.movement) && row == RowOf(b, row.movement)
    requires Revaluations(after.movements, row.movement) == Revaluations(b.movements, row.movement) + row.variance
    requires CatchUp(after.entries, row.movement) == CatchUp(b.entries, row.movement) + row.glImpact
    ensures SubledgerValue(after, row.movement) == row.expected == Expected(b, b.movements[row.movement]).0
    ensures GlEffect(after, row.movement) == row.expected
  {
    assert after.movements[row.movement] == after.movements[..|b.movements|][row.movement];
    assert Revaluations(b.movements, row.movement) == 0;
  }

  /** Every corrected movement ends at its expected value, in stock and in the general ledger alike. */
  lemma {:induction false} CorrectedMovementsReachExpected(b: Books, tolerance: int, p: Period, row: DriftRow)
    requires Consistent(b) && row in Apply(b, tolerance, p).corrected
    ensures var after := Apply(b, tolerance, p).books;
            && row.movement < |b.movements| <= |after.movements|
            && SubledgerValue(after, row.movement) == row.expected == Expected(b, b.movements[row.movement]).0
            && GlEffect(after, row.movement) == row.expected
            && Consistent(after)
  {
    var rows, o := FindDrift(b, tolerance), Apply(b, tolerance, p);
    FindDriftIsTheDrift(b, tolerance);
    ScanOrderHasNoRepeats(b.movements);
    ReportHasNoRepeats(b, tolerance, ScanOrder(b.movements));
    RowsOnlyRevalue(b, rows, p);
    CorrectedOncePerMovement(b, rows, p);
    OwnRowIsTheTotal(o.corrected, row);
    AppliedAdjustments(b, rows, p, row.movement);
    AdjustmentsReachExpected(b, o.books, row);
  }

  // ---- What a count is expected at ----

  /** The layers that still hold stock. */
  function Stocked(layers: seq<Layer>): seq<Layer> {
    if layers == [] then []
    else
      var last := layers[|layers| - 1];
      Stocked(layers[..|layers| - 1]) + (if last.qtyRemaining > 0 then [last] else [])
  }

  lemma {:induction false} QuantityOfAppend(layers: seq<Layer>, last: Layer, scope: Scope)
    ensures Quantity(layers + [last], scope)
         == Quantity(layers, scope) + (if InScope(last, scope) then last.qtyRemaining else 0)
    ensures Worth(layers + [last], scope)
         == Worth(layers, scope) + (if InScope(last, scope) then last.qtyRemaining * last.unitCost else 0)
  {
    if layers == [] {
      assert [last][1..] == [];
    } else {
      assert (layers + [last])[1..] == layers[1..] + [last];
      QuantityOfAppend(layers[1..], last, scope);
    }
  }

  lemma {:induction false} RemainingIsStocked(layers: seq<Layer>, scope: Scope)
    ensures S.RemainingQty(layers, scope) == Quantity(Stocked(layers), scope)
    ensures S.RemainingWorth(layers, scope) == Worth(Stocked(layers), scope)
  {
    if layers != [] {
      var front, last := layers[..|layers| - 1], layers[|layers| - 1];
      RemainingIsStocked(front, scope);
      QuantityOfAppend(Stocked(front), last, scope);
      assert Stocked(front) + [] == Stocked(front);
    }
  }

  /** Whether a count is in a lot whose layers still hold stock. */
  predicate LotHolds(layers: seq<Layer>, m: Movement) {
    Quantity(Stocked(layers), OneLot(m.place, m.tag)) != 0
  }

  /** `unit` is the lot's remaining worth over its remaining quantity, to the nearest 1/10000, or where nothing
      remains the product's average, or where that is zero its standard. */
  ghost predicate UnitFor(b: Books, m: Movement, unit: int) {
    if LotHolds(b.layers, m) then
      var stocked, lot := Stocked(b.layers), OneLot(m.place, m.tag);
      IsNearest(Worth(stocked, lot), Quantity(stocked, lot), unit)
    else if m.place.product !in b.costs then unit == 0
    else
      unit == if b.costs[m.place.product].average != 0 then b.costs[m.place.product].average
              else b.costs[m.place.product].standard
  }

  /** `value` is the count's quantity at that unit cost, to the nearest cent. */
  ghost predicate ValuedFor(b: Books, m: Movement, value: int) {
    exists unit :: UnitFor(b, m, unit) && IsNearest(m.qty * unit, 10000, value)
  }

  lemma {:induction false} LotUnit(b: Books, m: Movement)
    requires IsTagged(m.tag)
    ensures S.LotLayerUnitCost(b.layers, m.place, m.tag).Some? <==> LotHolds(b.layers, m)
    ensures LotHolds(b.layers, m) ==> UnitFor(b, m, S.LotLayerUnitCost(b.layers, m.place, m.tag).value)
  {
    var scope := OneLot(m.place, m.tag);
    RemainingIsStocked(b.layers, scope);
    S.RemainingQtyIsNat(b.layers, scope);
    if LotHolds(b.layers, m) {
      RoundsToNearest(Worth(Stocked(b.layers), scope), Quantity(Stocked(b.layers), scope));
    }
  }

  /** A count in a lot is expected at the cost of the lot's remaining layers, and only where none remain at the
      product's own. */
  lemma {:induction false} ExpectedIsLotCost(b: Books, m: Movement)
    requires IsTagged(m.tag)
    ensures ValuedFor(b, m, Expected(b, m).0)
    ensures Expected(b, m).1 == if LotHolds(b.layers, m) then LotLayer else ProductAverage
  {
    var lot, costs := S.LotLayerUnitCost(b.layers, m.place, m.tag), CostsOf(b, m.place.product);
    var unit := if lot.Some? then lot.value else if costs.average != 0 then costs.average else costs.standard;
    LotUnit(b, m);
    CentsAreRoundedHalfUp(m.qty * unit);
    RoundsToNearest(m.qty * unit, 10000);
    assert UnitFor(b, m, unit);
  }

  /** What the report says of a count: its own value, what it is expected at, and by how much stock and ledger are
      out. */
  lemma {:induction false} ReportedAtLotCost(b: Books, tolerance: int, row: DriftRow)
    requires row in FindDrift(b, tolerance)
    ensures row.movement < |b.movements|
    ensures var m := b.movements[row.movement];
            && m.ref.kind == CYCLE_COUNT && IsTagged(m.tag) && row.original == m.value
            && ValuedFor(b, m, row.expected)
            && row.source == (if LotHolds(b.layers, m) then LotLayer else ProductAverage)
            && row.variance == row.expected - m.value
            && row.glImpact == row.expected - (if J.Exists(b.entries, Ref(CYCLE_COUNT, m.ref.id)) then m.value else 0)
            && (Abs(row.variance) > tolerance || Abs(row.glImpact) > tolerance)
  {
    FindDriftIsTheDrift(b, tolerance);
    ExpectedIsLotCost(b, b.movements[row.movement]);
  }

  /** So that is what stock and ledger end at for each movement corrected. */
  lemma {:induction false} CorrectedToLotCost(b: Books, tolerance: int, p: Period, row: DriftRow)
    requires Consistent(b) && row in Apply(b, tolerance, p).corrected
    ensures var after := Apply(b, tolerance, p).books;
            && row.movement < |b.movements| <= |after.movements|
            && ValuedFor(b, b.movements[row.movement], SubledgerValue(after, row.movement))
            && SubledgerValue(after, row.movement) == GlEffect(after, row.movement)
  {
    FindDriftIsTheDrift(b, tolerance);
    RowsOnlyRevalue(b, FindDrift(b, tolerance), p);
    CorrectedMovementsReachExpected(b, tolerance, p, row);
    ReportedAtLotCost(b, tolerance, row);
  }

  // ---- What one correction posts ----

  /** The day a moment falls on. */
  predicate OnDay(at: int, day: int) {
    86400 * day <= at < 86400 * day + 86400
  }

  /** A correction appends at most a value-only movement of the variance and an entry of the impact, on the day of
      the original or, when that is in the closed period, on the posting date, and one audit row. */
  lemma {:induction false} CorrectionPosts(b: Books, row: DriftRow, p: Period, day: int)
    requires row.movement < |b.movements| && OnDay(b.movements[row.movement].at, day)
    ensures var m, after := b.movements[row.movement], Correct(b, row, p);
            var closed := p.lockDate.Some? && day <= p.lockDate.value;
            var at := if closed then p.now else m.at;
            && after.movements == b.movements + (if row.variance == 0 then [] else
                 [Movement(MovementType.Adjustment, m.place, None, m.tag, 0, None, row.variance,
                           RevalRef(row.movement), at)])
            && (row.glImpact == 0 ==> after.entries == b.entries)
            && (row.glImpact != 0 ==>
                  && |after.entries| == |b.entries| + 1 && b.entries <= after.entries
                  && (var e := after.entries[|b.entries|];
                      && e.ref == RevalRef(row.movement) && e.date == (if closed then p.postingDate else day)
                      && J.Balanced(e.lines) && J.Net(e.lines, J.Inventory) == row.glImpact
                      && J.Net(e.lines, J.Adjustment) == -row.glImpact))
            && after.corrections == b.corrections
                 + [Correction(row.movement, row.original, row.expected, row.source, row.glImpact != 0,
                               row.variance != 0, closed)]
            && after.layers == b.layers && after.costs == b.costs
            && (Blocked(b, row, p) <==> closed && p.blockClosed)
  {
    assert DayOf(b.movements[row.movement].at) == day;
    RevalLinesPost(row.glImpact);
  }

  /** Corrections move no quantity: at every balance the ledger sums as before. */
  lemma {:induction false} CorrectionsMoveNoQuantity(b: Books, tolerance: int, p: Period, a: R.Account)
    ensures var o := Apply(b, tolerance, p);
            && R.LedgerSum(o.books.movements, a) == R.LedgerSum(b.movements, a)
            && o.books.layers == b.layers && o.books.costs == b.costs
  {
    var o := Apply(b, tolerance, p);
    FindDriftIsTheDrift(b, tolerance);
    RowsOnlyRevalue(b, FindDrift(b, tolerance), p);
    ValueOnlyRowsSumToNothing(b.movements, o.books.movements, a);
  }

  lemma {:induction false} ValueOnlyRowsSumToNothing(ms: seq<Movement>, after: seq<Movement>, a: R.Account)
    requires |ms| <= |after| && after[..|ms|] == ms
    requires forall id :: |ms| <= id < |after| ==> after[id].qty == 0
    ensures R.LedgerSum(after, a) == R.LedgerSum(ms, a)
    decreases |after|
  {
    if |ms| == |after| {
      assert after == ms;
    } else {
      assert after[..|after| - 1][..|ms|] == ms;
      ValueOnlyRowsSumToNothing(ms, after[..|after| - 1], a);
    }
  }
}
