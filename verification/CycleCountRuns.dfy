/** The catch-up among everything else that happens to stock and ledger: catch-ups at any time, with movements,
    postings and changes of layers and costs in between. */
module CycleCountRuns {
  import opened Rounding
  import opened Records
  import J = Journals
  import opened CycleCount

  /** A catch-up, or anything else that appends a movement or an entry or changes what counts are valued from. */
  datatype BooksOp =
    | Revalue(tolerance: int, period: Period)
    | Record(m: Movement)
    | PostEntry(e: J.Entry)
    | SetCosts(layers: seq<Layer>, costs: map<ProductId, Costs>)

  function Step(b: Books, op: BooksOp): Books {
    match op
    case Revalue(tolerance, period) => Apply(b, tolerance, period).books
    case Record(m) => b.(movements := b.movements + [m])
    case PostEntry(e) => b.(entries := b.entries + [e])
    case SetCosts(layers, costs) => b.(layers := layers, costs := costs)
  }

  function Run(b: Books, ops: seq<BooksOp>): Books {
    if ops == [] then b else Step(Run(b, ops[..|ops| - 1]), ops[|ops| - 1])
  }

  /** Only the catch-up itself makes revaluations. */
  predicate Ordinary(op: BooksOp) {
    match op
    case Record(m) => m.ref.kind != CC_REVAL
    case PostEntry(e) => e.ref.kind != CC_REVAL
    case _ => true
  }

  predicate AllOrdinary(ops: seq<BooksOp>) {
    forall op :: op in ops ==> Ordinary(op)
  }

  /** Books no catch-up has been run on. */
  ghost predicate NeverRevalued(b: Books) {
    && b.corrections == []
    && (forall i :: 0 <= i < |b.movements| ==> b.movements[i].ref.kind != CC_REVAL)
    && (forall i :: 0 <= i < |b.entries| ==> b.entries[i].ref.kind != CC_REVAL)
  }

  lemma {:induction false} NoRevaluations(ms: seq<Movement>, id: nat)
    requires forall i :: 0 <= i < |ms| ==> ms[i].ref.kind != CC_REVAL
    ensures Revaluations(ms, id) == 0
  {
    if ms != [] {
      NoRevaluations(ms[..|ms| - 1], id);
    }
  }

  lemma {:induction false} NoCatchUp(entries: seq<J.Entry>, id: nat)
    requires forall i :: 0 <= i < |entries| ==> entries[i].ref.kind != CC_REVAL
    ensures CatchUp(entries, id) == 0 && !J.Exists(entries, RevalRef(id))
  {
    if entries != [] {
      NoCatchUp(entries[..|entries| - 1], id);
    }
  }

  lemma {:induction false} FreshBooksConsistent(b: Books)
    requires NeverRevalued(b)
    ensures Consistent(b)
  {
    forall id: nat
      ensures Revaluations(b.movements, id) == 0 && CatchUp(b.entries, id) == 0 && !J.Exists(b.entries, RevalRef(id))
    {
      NoRevaluations(b.movements, id);
      NoCatchUp(b.entries, id);
    }
  }

  /** What the catch-up looks at of one movement is the same in both books. */
  ghost predicate SameCatchUp(b: Books, after: Books, id: nat) {
    && Revaluations(after.movements, id) == Revaluations(b.movements, id)
    && CatchUp(after.entries, id) == CatchUp(b.entries, id)
    && (J.Exists(after.entries, RevalRef(id)) <==> J.Exists(b.entries, RevalRef(id)))
    && (IsCorrected(after, id) <==> IsCorrected(b, id))
    && |b.movements| <= |after.movements| && after.movements[..|b.movements|] == b.movements
  }

  lemma {:induction false} OtherStepsLeaveCatchUp(b: Books, op: BooksOp, id: nat)
    requires Ordinary(op) && !op.Revalue?
    ensures SameCatchUp(b, Step(b, op), id)
  {
    match op
    case Record(m) => assert (b.movements + [m])[..|b.movements|] == b.movements;
    case PostEntry(e) => assert (b.entries + [e])[..|b.entries|] == b.entries;
    case SetCosts(_, _) =>
  }

  /** A catch-up keeps books consistent, and leaves a corrected movement alone. */
  lemma {:induction false} RevalueLeavesCorrected(b: Books, tolerance: int, p: Period, id: nat)
    requires Consistent(b)
    ensures var after := Apply(b, tolerance, p).books;
            && Consistent(after)
            && (IsCorrected(b, id) ==>
                  && IsCorrected(after, id)
                  && Revaluations(after.movements, id) == Revaluations(b.movements, id)
                  && CatchUp(after.entries, id) == CatchUp(b.entries, id))
  {
    var rows, o := FindDrift(b, tolerance), Apply(b, tolerance, p);
    FindDriftIsTheDrift(b, tolerance);
    RowsOnlyRevalue(b, rows, p);
    AppliedAdjustments(b, rows, p, id);
    if IsCorrected(b, id) {
      forall row | row in o.corrected ensures row.movement != id {
        assert row in rows && Drifts(b, tolerance, row.movement);
      }
      NoRowOfItsOwn(o.corrected, id);
    }
  }

  lemma {:induction false} NoRowOfItsOwn(rows: seq<DriftRow>, id: nat)
    requires forall row :: row in rows ==> row.movement != id
    ensures VarianceOf(rows, id) == 0 && ImpactOf(rows, id) == 0
  {
    if rows != [] {
      assert rows[|rows| - 1] in rows && forall row :: row in rows[..|rows| - 1] ==> row in rows;
      NoRowOfItsOwn(rows[..|rows| - 1], id);
    }
  }

  lemma {:induction false} StepKeepsConsistent(b: Books, op: BooksOp)
    requires Consistent(b) && Ordinary(op)
    ensures Consistent(Step(b, op))
  {
    if op.Revalue? {
      RevalueLeavesCorrected(b, op.tolerance, op.period, 0);
    } else {
      forall id: nat | !IsCorrected(Step(b, op), id)
        ensures Revaluations(Step(b, op).movements, id) == 0 && CatchUp(Step(b, op).entries, id) == 0
             && !J.Exists(Step(b, op).entries, RevalRef(id))
      {
        OtherStepsLeaveCatchUp(b, op, id);
      }
    }
  }

  /** Books that start without revaluations stay consistent whatever happens, catch-ups included; so at any point of
      any run a catch-up brings what it corrects to its expected value. */
  lemma {:induction false} BooksStayConsistent(b: Books, ops: seq<BooksOp>)
    requires NeverRevalued(b) && AllOrdinary(ops)
    ensures Consistent(Run(b, ops))
  {
    if ops == [] {
      FreshBooksConsistent(b);
    } else {
      assert ops[|ops| - 1] in ops && forall op :: op in ops[..|ops| - 1] ==> op in ops;
      BooksStayConsistent(b, ops[..|ops| - 1]);
      StepKeepsConsistent(Run(b, ops[..|ops| - 1]), ops[|ops| - 1]);
    }
  }

  lemma {:induction false} RunKeepsCorrected(b: Books, ops: seq<BooksOp>, id: nat)
    requires Consistent(b) && AllOrdinary(ops) && IsCorrected(b, id)
    ensures var after := Run(b, ops);
            && Consistent(after) && IsCorrected(after, id)
            && Revaluations(after.movements, id) == Revaluations(b.movements, id)
            && CatchUp(after.entries, id) == CatchUp(b.entries, id)
            && |b.movements| <= |after.movements| && after.movements[..|b.movements|] == b.movements
  {
    if ops != [] {
      var front, op := ops[..|ops| - 1], ops[|ops| - 1];
      var before := Run(b, front);
      assert op in ops && forall o :: o in front ==> o in ops;
      RunKeepsCorrected(b, front, id);
      StepKeepsConsistent(before, op);
      if op.Revalue? {
        RevalueLeavesCorrected(before, op.tolerance, op.period, id);
        FindDriftIsTheDrift(before, op.tolerance);
        assert Step(before, op).movements[..|before.movements|] == before.movements;
      } else {
        OtherStepsLeaveCatchUp(before, op, id);
      }
      PrefixOfPrefix(b.movements, before.movements, Step(before, op).movements);
    }
  }

  lemma {:induction false} PrefixOfPrefix(a: seq<Movement>, b: seq<Movement>, c: seq<Movement>)
    requires |a| <= |b| <= |c| && b[..|a|] == a && c[..|b|] == b
    ensures c[..|a|] == a
  {
    assert c[..|a|] == c[..|b|][..|a|];
  }

  /** What a catch-up has corrected stays at the value it expected in the subledger, whatever happens later. In the
      ledger it does exactly when the count's own entry is posted where it was, or posted for nothing: an entry the
      count posts only later comes on top of the catch-up. */
  lemma {:induction false} CorrectedForGoodIff(b: Books, tolerance: int, p: Period, row: DriftRow, ops: seq<BooksOp>)
    requires Consistent(b) && AllOrdinary(ops) && row in Apply(b, tolerance, p).corrected
    ensures var once := Apply(b, tolerance, p).books;
            var later, id := Run(once, ops), row.movement;
            && id < |once.movements| <= |later.movements|
            && SubledgerValue(later, id) == row.expected
            && (GlEffect(later, id) == row.expected
                <==> later.movements[id].value == 0
                     || (HasGl(later, later.movements[id]) <==> HasGl(once, once.movements[id])))
  {
    var once := Apply(b, tolerance, p).books;
    var later, id := Run(once, ops), row.movement;
    CorrectedMovementsReachExpected(b, tolerance, p, row);
    FindDriftIsTheDrift(b, tolerance);
    RowsOnlyRevalue(b, FindDrift(b, tolerance), p);
    RunKeepsCorrected(once, ops, id);
    assert later.movements[id] == later.movements[..|once.movements|][id];
  }

  /** A count of one unit of a lot, in stock at 5.00 and worth 6.00, that had not posted its entry when the catch-up
      ran: once it does, the ledger holds 11.00 for it. */
  lemma {:induction false} LatePostingAddsUp()
    ensures var m := Movement(MovementType.Adjustment, Place(1, 1), None, Tag(Some("LOT"), None, None), 100,
                              Some(50000), 500, Ref(CYCLE_COUNT, "CC-1"), 0);
            var b := Books([m], [], map[1 := Costs(60000, 0)], [], []);
            var once := Apply(b, 1, Period(None, 0, false, 0)).books;
            var later := Run(once, [PostEntry(J.Entry(Ref(CYCLE_COUNT, "CC-1"), 0, RevalLines(500)))]);
            && |once.movements| > 0 && SubledgerValue(once, 0) == GlEffect(once, 0) == 600
            && |later.movements| > 0 && SubledgerValue(later, 0) == 600 && GlEffect(later, 0) == 1100
  {
    var m := Movement(MovementType.Adjustment, Place(1, 1), None, Tag(Some("LOT"), None, None), 100, Some(50000), 500,
                      Ref(CYCLE_COUNT, "CC-1"), 0);
    var b := Books([m], [], map[1 := Costs(60000, 0)], [], []);
    var p := Period(None, 0, false, 0);
    var once, entry := Apply(b, 1, p).books, J.Entry(Ref(CYCLE_COUNT, "CC-1"), 0, RevalLines(500));
    FreshBooksConsistent(b);
    UnpostedCountIsCorrected(b, p, m);
    PostedLate(once, 0, entry);
    assert [PostEntry(entry)][..0] == [] && Run(once, [PostEntry(entry)]) == Step(once, PostEntry(entry));
  }

  lemma {:induction false} UnpostedCountIsCorrected(b: Books, p: Period, m: Movement)
    requires Consistent(b) && b.movements == [m] && b.layers == [] && b.entries == [] && b.corrections == []
    requires m.ref.kind == CYCLE_COUNT && IsTagged(m.tag) && m.qty == 100 && m.value == 500
    requires b.costs == map[m.place.product := Costs(60000, 0)] && p.lockDate.None?
    ensures var once := Apply(b, 1, p).books;
            && |once.movements| > 0 && once.movements[0] == m && !HasGl(once, m)
            && SubledgerValue(once, 0) == GlEffect(once, 0) == 600
  {
    var row := RowOf(b, 0);
    assert row.expected == 600 by { RoundExact(600, 10000); }
    assert !IsCorrected(b, 0) && Drifts(b, 1, 0);
    FindDriftIsTheDrift(b, 1);
    RowsOnlyRevalue(b, FindDrift(b, 1), p);
    CorrectedMovementsReachExpected(b, 1, p, row);
    assert Apply(b, 1, p).books.movements[..1][0] == m;
  }

  lemma {:induction false} PostedLate(b: Books, id: nat, e: J.Entry)
    requires id < |b.movements| && !HasGl(b, b.movements[id]) && e.ref == Ref(CYCLE_COUNT, b.movements[id].ref.id)
    ensures var after := Step(b, PostEntry(e));
            && SubledgerValue(after, id) == SubledgerValue(b, id)
            && GlEffect(after, id) == GlEffect(b, id) + b.movements[id].value
  {
    OtherStepsLeaveCatchUp(b, PostEntry(e), id);
    J.LedgerOfAppend(b.entries, e);
  }

  // ---- A count as a whole ----

  predicate OfCount(m: Movement, count: string) {
    m.ref == Ref(CYCLE_COUNT, count)
  }

  /** The count has posted its entry. It posts none when its variances come to nothing. */
  predicate Posted(b: Books, count: string) {
    J.Exists(b.entries, Ref(CYCLE_COUNT, count))
  }

  /** What the count's own entries posted to Inventory. */
  function OwnEntries(entries: seq<J.Entry>, count: string): int {
    if entries == [] then 0
    else
      var e := entries[|entries| - 1];
      OwnEntries(entries[..|entries| - 1], count)
      + (if e.ref == Ref(CYCLE_COUNT, count) then J.Net(e.lines, J.Inventory) else 0)
  }

  /** What the ledger was caught up with for the count's movements among the first `n`, less what they are worth in
      stock. */
  function CaughtUp(b: Books, count: string, n: nat): int
    requires n <= |b.movements|
  {
    if n == 0 then 0
    else
      CaughtUp(b, count, n - 1)
      + (if OfCount(b.movements[n - 1], count) then CatchUp(b.entries, n - 1) - SubledgerValue(b, n - 1) else 0)
  }

  /** What the ledger holds of a count, its entries and its catch-ups, less what stock does. */
  function CountGap(b: Books, count: string): int {
    OwnEntries(b.entries, count) + CaughtUp(b, count, |b.movements|)
  }

  predicate NewlyCorrected(b: Books, after: Books, id: nat) {
    !IsCorrected(b, id) && IsCorrected(after, id)
  }

  /** The original values of the count's movements among the first `n` that are corrected in `after` and were not
      in `b`. */
  function ValueCorrected(b: Books, after: Books, count: string, n: nat): int
    requires n <= |b.movements|
  {
    if n == 0 then 0
    else
      ValueCorrected(b, after, count, n - 1)
      + (if OfCount(b.movements[n - 1], count) && NewlyCorrected(b, after, n - 1) then b.movements[n - 1].value else 0)
  }

  lemma {:induction false} CorrectionsKeepOwnEntries(b: Books, rows: seq<DriftRow>, p: Period, count: string)
    requires forall row :: row in rows ==> row.movement < |b.movements|
    ensures OwnEntries(ApplyRows(b, rows, p).books.entries, count) == OwnEntries(b.entries, count)
  {
    if rows != [] {
      var front, last := rows[..|rows| - 1], rows[|rows| - 1];
      assert rows == front + [last];
      var o := ApplyRows(b, front, p);
      CorrectionsKeepOwnEntries(b, front, p, count);
      if !Blocked(b, last, p) && last.glImpact != 0 {
        assert Correct(o.books, last, p).entries[..|o.books.entries|] == o.books.entries;
      }
    }
  }

  /** A correction adds the same to ledger and stock when the count is posted, and otherwise the movement's whole
      value besides. */
  lemma {:induction false} OneMovementCaughtUp(b: Books, tolerance: int, p: Period, id: nat)
    requires Consistent(b) && id < |b.movements|
    ensures var after, value := Apply(b, tolerance, p).books, b.movements[id].value;
            && id < |after.movements| && after.movements[id] == b.movements[id]
            && CatchUp(after.entries, id) - SubledgerValue(after, id)
               == CatchUp(b.entries, id) - SubledgerValue(b, id)
                  + (if NewlyCorrected(b, after, id) && !HasGl(b, b.movements[id]) then value else 0)
  {
    var rows, o := FindDrift(b, tolerance), Apply(b, tolerance, p);
    FindDriftIsTheDrift(b, tolerance);
    RowsOnlyRevalue(b, rows, p);
    AppliedAdjustments(b, rows, p, id);
    assert o.books.movements[..|b.movements|][id] == b.movements[id];
    if NewlyCorrected(b, o.books, id) {
      var row :| row in o.corrected && row.movement == id;
      assert row == RowOf(b, id);
      CorrectedRowIsTheTotal(b, tolerance, p, row);
    } else {
      forall row | row in o.corrected ensures row.movement != id {
        assert row in rows && Drifts(b, tolerance, row.movement) && IsCorrected(o.books, row.movement);
      }
      NoRowOfItsOwn(o.corrected, id);
    }
  }

  lemma {:induction false} CorrectedRowIsTheTotal(b: Books, tolerance: int, p: Period, row: DriftRow)
    requires row in Apply(b, tolerance, p).corrected
    ensures var rows := Apply(b, tolerance, p).corrected;
            VarianceOf(rows, row.movement) == row.variance && ImpactOf(rows, row.movement) == row.glImpact
  {
    var rows, o := FindDrift(b, tolerance), Apply(b, tolerance, p);
    FindDriftIsTheDrift(b, tolerance);
    ScanOrderHasNoRepeats(b.movements);
    ReportHasNoRepeats(b, tolerance, ScanOrder(b.movements));
    CorrectedOncePerMovement(b, rows, p);
    OwnRowIsTheTotal(o.corrected, row);
  }

  lemma {:induction false} NextCaughtUp(b: Books, after: Books, count: string, id: nat)
    requires id < |b.movements| && id < |after.movements| && after.movements[id] == b.movements[id]
    requires CatchUp(after.entries, id) - SubledgerValue(after, id)
             == CatchUp(b.entries, id) - SubledgerValue(b, id)
                + (if NewlyCorrected(b, after, id) && !HasGl(b, b.movements[id]) then b.movements[id].value else 0)
    requires CaughtUp(after, count, id) == CaughtUp(b, count, id)
             + (if Posted(b, count) then 0 else ValueCorrected(b, after, count, id))
    ensures CaughtUp(after, count, id + 1) == CaughtUp(b, count, id + 1)
            + (if Posted(b, count) then 0 else ValueCorrected(b, after, count, id + 1))
  {
  }

  lemma {:induction false} MovementsCaughtUp(b: Books, tolerance: int, p: Period, count: string, n: nat)
    requires Consistent(b) && n <= |b.movements|
    ensures var after := Apply(b, tolerance, p).books;
            && n <= |after.movements|
            && CaughtUp(after, count, n) == CaughtUp(b, count, n)
               + (if Posted(b, count) then 0 else ValueCorrected(b, after, count, n))
  {
    if n > 0 {
      MovementsCaughtUp(b, tolerance, p, count, n - 1);
      OneMovementCaughtUp(b, tolerance, p, n - 1);
      NextCaughtUp(b, Apply(b, tolerance, p).books, count, n - 1);
    }
  }

  lemma {:induction false} RevaluationsOfNoCount(b: Books, count: string, n: nat, k: nat)
    requires n <= k <= |b.movements| && forall id :: n <= id < k ==> b.movements[id].ref.kind == CC_REVAL
    ensures CaughtUp(b, count, k) == CaughtUp(b, count, n)
    decreases k
  {
    if n < k {
      RevaluationsOfNoCount(b, count, n, k - 1);
    }
  }

  /** A catch-up moves ledger and stock of a posted count by the same amount. Of one that has posted no entry it
      takes the ledger up by all it corrects: right for a count never posted, and wrong by just as much for one that
      posted none because its variances came to nothing. */
  lemma {:induction false} CatchUpMovesGap(b: Books, tolerance: int, p: Period, count: string)
    requires Consistent(b)
    ensures var after := Apply(b, tolerance, p).books;
            CountGap(after, count) == CountGap(b, count)
              + (if Posted(b, count) then 0 else ValueCorrected(b, after, count, |b.movements|))
  {
    var after, n := Apply(b, tolerance, p).books, |b.movements|;
    FindDriftIsTheDrift(b, tolerance);
    RowsOnlyRevalue(b, FindDrift(b, tolerance), p);
    CorrectionsKeepOwnEntries(b, FindDrift(b, tolerance), p, count);
    MovementsCaughtUp(b, tolerance, p, count, n);
    RevaluationsOfNoCount(after, count, n, |after.movements|);
  }

  function Counted(tag: Tag, qty: int, value: int): Movement {
    Movement(MovementType.Adjustment, Place(1, 1), None, tag, qty, Some(50000), value, Ref(CYCLE_COUNT, "CC-1"), 0)
  }

  lemma {:induction false} TwoMovementsGap(b: Books, count: string)
    requires |b.movements| == 2 && b.entries == []
    requires forall i :: 0 <= i < 2 ==> OfCount(b.movements[i], count)
    ensures CountGap(b, count) == -b.movements[0].value - b.movements[1].value
  {
    NoRevaluations(b.movements, 0);
    NoRevaluations(b.movements, 1);
    assert CaughtUp(b, count, 1) == CaughtUp(b, count, 0) - b.movements[0].value;
    assert CaughtUp(b, count, 2) == CaughtUp(b, count, 1) - b.movements[1].value;
  }

  /** The tagged movement is caught up with, the other is out of the catch-up's scope. */
  lemma {:induction false} OnlyTaggedCorrected(b: Books, p: Period)
    requires |b.movements| == 2 && b.layers == [] && b.entries == [] && b.corrections == [] && p.lockDate.None?
    requires b.movements[0].ref.kind == CYCLE_COUNT && IsTagged(b.movements[0].tag) && !IsTagged(b.movements[1].tag)
    requires b.movements[0].qty == 100 && b.movements[0].value == 500
    requires b.costs == map[b.movements[0].place.product := Costs(50000, 0)]
    ensures var after := Apply(b, 1, p).books; NewlyCorrected(b, after, 0) && !NewlyCorrected(b, after, 1)
  {
    assert RowOf(b, 0).expected == 500 by { RoundExact(500, 10000); }
    assert Drifts(b, 1, 0) && !Drifts(b, 1, 1);
    FindDriftIsTheDrift(b, 1);
    RowsOnlyRevalue(b, FindDrift(b, 1), p);
    assert RowOf(b, 0) in Apply(b, 1, p).corrected;
  }

  lemma {:induction false} FirstCorrectedOfTwo(b: Books, after: Books, count: string)
    requires |b.movements| == 2 && OfCount(b.movements[0], count)
    requires NewlyCorrected(b, after, 0) && !NewlyCorrected(b, after, 1)
    ensures ValueCorrected(b, after, count, 2) == b.movements[0].value
  {
    assert ValueCorrected(b, after, count, 1) == ValueCorrected(b, after, count, 0) + b.movements[0].value;
  }

  /** A count that finds one unit of a lot and misses one that is in none, both at 5.00, comes to nothing and posts
      no entry: stock and ledger agree. The catch-up then posts the 5.00 of the lot, and they part by it. */
  lemma {:induction false} CancellingCountParts()
    ensures var b := Books([Counted(Tag(Some("LOT"), None, None), 100, 500), Counted(Untagged, -100, -500)], [],
                           map[1 := Costs(50000, 0)], [], []);
            CountGap(b, "CC-1") == 0 && CountGap(Apply(b, 1, Period(None, 0, false, 0)).books, "CC-1") == 500
  {
    var found, missed := Counted(Tag(Some("LOT"), None, None), 100, 500), Counted(Untagged, -100, -500);
    var b, p := Books([found, missed], [], map[1 := Costs(50000, 0)], [], []), Period(None, 0, false, 0);
    FreshBooksConsistent(b);
    TwoMovementsGap(b, "CC-1");
    OnlyTaggedCorrected(b, p);
    FirstCorrectedOfTwo(b, Apply(b, 1, p).books, "CC-1");
    CatchUpMovesGap(b, 1, p, "CC-1");
  }
}
