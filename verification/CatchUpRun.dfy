/** The catch-up as it runs: a scan that reports drift, and a loop that posts the corrections. */
module CatchUpRun {
  import opened Records
  import J = Journals
  import opened CycleCount

  class CatchUp {
    const layers: seq<Layer>
    const costs: map<ProductId, Costs>
    var movements: seq<Movement>
    var entries: seq<J.Entry>
    var corrections: seq<Correction>

    constructor (b: Books)
      ensures Stored() == b
    {
      layers, costs := b.layers, b.costs;
      movements, entries, corrections := b.movements, b.entries, b.corrections;
    }

    function Stored(): Books
      reads this
    {
      Books(movements, layers, costs, entries, corrections)
    }

    /** Report the movements in scope that are out by more than the tolerance. */
    method Find(tolerance: int) returns (rows: seq<DriftRow>)
      ensures rows == FindDrift(Stored(), tolerance)
    {
      rows := [];
      var order := ScanOrder(movements);
      var i := 0;
      while i < |order|
        invariant 0 <= i <= |order| && rows == Report(Stored(), tolerance, order[..i])
      {
        assert order[..i + 1][..i] == order[..i];
        var id := order[i];
        if id < |movements| && Drifts(Stored(), tolerance, id) {
          rows := rows + [RowOf(Stored(), id)];
        }
        i := i + 1;
      }
      assert order[..i] == order;
    }

    /** Post one correction: movement, journal, audit row. */
    method PostCorrection(row: DriftRow, p: Period)
      requires row.movement < |movements|
      modifies this
      ensures Stored() == Correct(old(Stored()), row, p)
    {
      var m := movements[row.movement];
      var closed := InClosed(p, m.at);
      var entryDate := if closed then p.postingDate else DayOf(m.at);
      var postAt := if closed then p.now else m.at;
      if row.variance != 0 {
        movements := movements + [RevalMovement(m, row.movement, row.variance, postAt)];
      }
      if row.glImpact != 0 {
        var lines := if row.glImpact > 0
                     then [J.Line(J.Inventory, row.glImpact, 0), J.Line(J.Adjustment, 0, row.glImpact)]
                     else [J.Line(J.Adjustment, -row.glImpact, 0), J.Line(J.Inventory, 0, -row.glImpact)];
        entries := entries + [J.Entry(RevalRef(row.movement), entryDate, lines)];
      }
      corrections := corrections + [Correction(row.movement, row.original, row.expected, row.source,
                                               row.glImpact != 0, row.variance != 0, closed)];
    }

    /** `apply_corrections`: afterwards the drift is exactly what was blocked. */
    method ApplyCorrections(tolerance: int, p: Period) returns (corrected: seq<DriftRow>, blocked: seq<DriftRow>)
      modifies this
      ensures Apply(old(Stored()), tolerance, p) == Outcome(Stored(), corrected, blocked)
      ensures forall row :: row in FindDrift(Stored(), tolerance) <==> row in blocked
    {
      ghost var before := Stored();
      var rows := Find(tolerance);
      DriftRowsExist(before, tolerance);
      corrected, blocked := [], [];
      var i := 0;
      while i < |rows|
        invariant 0 <= i <= |rows|
        invariant forall row :: row in rows ==> row.movement < |before.movements|
        invariant ApplyRows(before, rows[..i], p) == Outcome(Stored(), corrected, blocked)
      {
        var row := rows[i];
        ApplyNextRow(before, rows, i, p);
        if InClosed(p, movements[row.movement].at) && p.blockClosed {
          blocked := blocked + [row];
        } else {
          PostCorrection(row, p);
          corrected := corrected + [row];
        }
        i := i + 1;
      }
      assert rows[..i] == rows;
      DriftAfterIsTheBlocked(before, tolerance, p);
    }
  }

  lemma {:induction false} DriftRowsExist(b: Books, tolerance: int)
    ensures forall row :: row in FindDrift(b, tolerance) ==> row.movement < |b.movements|
  {
    FindDriftIsTheDrift(b, tolerance);
  }

  /** One more row: blocked or corrected, judged by its own movement, which no correction has touched. */
  lemma {:induction false} ApplyNextRow(b: Books, rows: seq<DriftRow>, i: nat, p: Period)
    requires i < |rows| && forall row :: row in rows ==> row.movement < |b.movements|
    ensures var o, row := ApplyRows(b, rows[..i], p), rows[i];
            && row.movement < |b.movements| <= |o.books.movements|
            && o.books.movements[row.movement] == b.movements[row.movement]
            && (forall r :: r in rows[..i + 1] ==> r in rows)
            && ApplyRows(b, rows[..i + 1], p)
               == if Blocked(b, row, p) then o.(blocked := o.blocked + [row])
                  else Outcome(Correct(o.books, row, p), o.corrected + [row], o.blocked)
  {
    assert rows[..i + 1][..i] == rows[..i];
    assert rows[i] in rows && forall r :: r in rows[..i + 1] ==> r in rows;
    var o := ApplyRows(b, rows[..i], p);
    assert o.books.movements[rows[i].movement] == o.books.movements[..|b.movements|][rows[i].movement];
  }
}
