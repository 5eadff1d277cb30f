/** Stable purchase-order line identity: the backfill that links every amended line to its original and
    rebuilds received quantities from posted receipts. */
module LineBackfill {
  import opened Records
  import opened Ordering
  import opened OrderChains

  /** The columns that identify an order line. */
  datatype LineId = LineId(id: nat, po: OrderId, product: ProductId)

  datatype OrderLine = OrderLine(ident: LineId, received: int, root: Option<nat>)

  datatype ReceiptLine = ReceiptLine(poLine: nat, root: Option<nat>, qty: int, posted: bool)

  datatype Database = Database(lines: seq<OrderLine>, receipts: seq<ReceiptLine>)

  function Identities(lines: seq<OrderLine>): (ids: seq<LineId>)
    ensures |ids| == |lines| && forall i :: 0 <= i < |ids| ==> ids[i] == lines[i].ident
  {
    if lines == [] then [] else Identities(lines[..|lines| - 1]) + [lines[|lines| - 1].ident]
  }

  /** A logical line: the original order of the version chain, and the product. */
  datatype Logical = Logical(root: OrderId, product: ProductId)

  function LogicalOf(pos: map<OrderId, Order>, l: LineId): Logical {
    Logical(ChainRoot(pos, l.po), l.product)
  }

  /** The positions of the versions of a logical line, in table order. */
  function Versions(pos: map<OrderId, Order>, ids: seq<LineId>, key: Logical): (at: seq<nat>)
    ensures forall i: nat :: i in at <==> i < |ids| && LogicalOf(pos, ids[i]) == key
  {
    if ids == [] then []
    else
      Versions(pos, ids[..|ids| - 1], key)
      + (if LogicalOf(pos, ids[|ids| - 1]) == key then [|ids| - 1] else [])
  }

  function VersionKey(pos: map<OrderId, Order>, ids: seq<LineId>): nat -> Key {
    (i: nat) =>
      if i < |ids| then Key(if ids[i].po in pos then pos[ids[i].po].version else 0, ids[i].id) else Key(0, 0)
  }

  /** The versions of a logical line, earliest first. */
  function Ordered(pos: map<OrderId, Order>, ids: seq<LineId>, key: Logical): seq<nat> {
    SortBy<nat>(VersionKey(pos, ids), Versions(pos, ids, key))
  }

  /** The position of the earliest version of the logical line that line `i` is a version of. */
  function RootAt(pos: map<OrderId, Order>, ids: seq<LineId>, i: nat): (r: nat)
    requires i < |ids|
    ensures r < |ids| && LogicalOf(pos, ids[r]) == LogicalOf(pos, ids[i])
  {
    SortByMembers<nat>(VersionKey(pos, ids), Versions(pos, ids, LogicalOf(pos, ids[i])));
    var order := Ordered(pos, ids, LogicalOf(pos, ids[i]));
    assert i in order && order[0] in order;
    order[0]
  }

  /** Every version but the earliest points to it. */
  function Stamped(pos: map<OrderId, Order>, lines: seq<OrderLine>, i: nat): OrderLine
    requires i < |lines|
  {
    var r := RootAt(pos, Identities(lines), i);
    if r == i then lines[i] else lines[i].(root := Some(lines[r].ident.id))
  }

  function StampLines(pos: map<OrderId, Order>, lines: seq<OrderLine>): seq<OrderLine> {
    seq(|lines|, i requires 0 <= i < |lines| => Stamped(pos, lines, i))
  }

  /** `root_line_id or id`. */
  function StableId(l: OrderLine): nat {
    if l.root.Some? && l.root.value != 0 then l.root.value else l.ident.id
  }

  function LineById(lines: seq<OrderLine>, id: nat): Option<OrderLine> {
    if lines == [] then None
    else if lines[0].ident.id == id then Some(lines[0]) else LineById(lines[1..], id)
  }

  function StampReceipt(lines: seq<OrderLine>, r: ReceiptLine): ReceiptLine {
    var l := LineById(lines, r.poLine);
    if l.Some? then r.(root := Some(StableId(l.value))) else r
  }

  function StampReceipts(lines: seq<OrderLine>, rs: seq<ReceiptLine>): (after: seq<ReceiptLine>)
    ensures |after| == |rs| && forall i :: 0 <= i < |rs| ==> after[i] == StampReceipt(lines, rs[i])
  {
    if rs == [] then [] else StampReceipts(lines, rs[..|rs| - 1]) + [StampReceipt(lines, rs[|rs| - 1])]
  }

  /** Posted quantity received against a stable identity. */
  function Received(rs: seq<ReceiptLine>, stable: nat): int {
    if rs == [] then 0
    else
      var last := rs[|rs| - 1];
      Received(rs[..|rs| - 1], stable) + (if last.posted && last.root == Some(stable) then last.qty else 0)
  }

  function Rebuild(lines: seq<OrderLine>, rs: seq<ReceiptLine>): (after: seq<OrderLine>)
    ensures |after| == |lines|
    ensures forall i :: 0 <= i < |lines| ==> after[i] == lines[i].(received := Received(rs, StableId(lines[i])))
  {
    if lines == [] then []
    else
      var last := lines[|lines| - 1];
      Rebuild(lines[..|lines| - 1], rs) + [last.(received := Received(rs, StableId(last)))]
  }

  /** `backfill_stable_identity`. */
  function Backfill(pos: map<OrderId, Order>, db: Database): Database {
    var stamped := StampLines(pos, db.lines);
    var receipts := StampReceipts(stamped, db.receipts);
    Database(Rebuild(stamped, receipts), receipts)
  }

  // ---- Identity ----

  /** Ids are positive and distinct, as primary keys are. */
  ghost predicate KeysSound(lines: seq<OrderLine>) {
    && (forall i :: 0 <= i < |lines| ==> 0 < lines[i].ident.id)
    && (forall i, j :: 0 <= i < j < |lines| ==> lines[i].ident.id != lines[j].ident.id)
  }

  /** The column has just been added: no line has a root yet. */
  ghost predicate Unlinked(lines: seq<OrderLine>) {
    forall i :: 0 <= i < |lines| ==> lines[i].root.None?
  }

  /** The root of a logical line is the same for all its versions, and is its own root. */
  lemma {:induction false} RootIsShared(pos: map<OrderId, Order>, ids: seq<LineId>, i: nat, j: nat)
    requires i < |ids| && j < |ids|
    ensures RootAt(pos, ids, i) == RootAt(pos, ids, j) <==> LogicalOf(pos, ids[i]) == LogicalOf(pos, ids[j])
  {
  }

  /** The root is the earliest version, by version and then id. */
  lemma {:induction false} RootIsEarliest(pos: map<OrderId, Order>, ids: seq<LineId>, i: nat)
    requires i < |ids|
    ensures AtMost(VersionKey(pos, ids)(RootAt(pos, ids, i)), VersionKey(pos, ids)(i))
  {
    var key := LogicalOf(pos, ids[i]);
    var order := Ordered(pos, ids, key);
    SortBySorts<nat>(VersionKey(pos, ids), Versions(pos, ids, key));
    SortByMember<nat>(VersionKey(pos, ids), Versions(pos, ids, key), i);
    var k :| 0 <= k < |order| && order[k] == i;
    if k > 0 {
      assert AtMost(VersionKey(pos, ids)(order[0]), VersionKey(pos, ids)(order[k]));
    }
  }

  lemma {:induction false} StableIdOfStamped(pos: map<OrderId, Order>, lines: seq<OrderLine>, i: nat)
    requires KeysSound(lines) && Unlinked(lines) && i < |lines|
    ensures StableId(StampLines(pos, lines)[i]) == lines[RootAt(pos, Identities(lines), i)].ident.id
  {
    var r := RootAt(pos, Identities(lines), i);
    assert StampLines(pos, lines)[i] == Stamped(pos, lines, i);
    assert 0 < lines[r].ident.id && lines[i].root.None?;
  }

  /** After the backfill two lines share a stable id exactly when they are versions of one logical line: same
      chain root, same product. */
  lemma {:induction false} StableIdsAreLogicalLines(pos: map<OrderId, Order>, db: Database, i: nat, j: nat)
    requires KeysSound(db.lines) && Unlinked(db.lines) && i < |db.lines| && j < |db.lines|
    ensures var after := Backfill(pos, db).lines;
            && |after| == |db.lines|
            && (StableId(after[i]) == StableId(after[j])
                <==> LogicalOf(pos, db.lines[i].ident) == LogicalOf(pos, db.lines[j].ident))
            && (StableId(after[i]) == StableId(after[j]) ==> after[i].received == after[j].received)
  {
    var ids := Identities(db.lines);
    var stamped := StampLines(pos, db.lines);
    StableIdOfStamped(pos, db.lines, i);
    StableIdOfStamped(pos, db.lines, j);
    RootIsShared(pos, ids, i, j);
    var after := Backfill(pos, db).lines;
    assert StableId(after[i]) == StableId(stamped[i]) && StableId(after[j]) == StableId(stamped[j]);
  }

  /** Roots have depth one: what a line points to points nowhere. */
  lemma {:induction false} RootsHaveDepthOne(pos: map<OrderId, Order>, db: Database, i: nat)
    requires KeysSound(db.lines) && Unlinked(db.lines) && i < |db.lines|
    ensures var after := Backfill(pos, db).lines;
            var r := RootAt(pos, Identities(db.lines), i);
            && |after| == |db.lines| && r < |after|
            && StableId(after[i]) == after[r].ident.id && after[r].root.None?
            && (after[i].root.Some? ==> after[i].root == Some(after[r].ident.id) && r != i)
  {
    var ids := Identities(db.lines);
    var r := RootAt(pos, ids, i);
    RootIsShared(pos, ids, i, r);
    StableIdOfStamped(pos, db.lines, i);
  }

  // ---- A second run ----

  lemma {:induction false} SameIdentities(a: seq<OrderLine>, b: seq<OrderLine>)
    requires |a| == |b| && forall i :: 0 <= i < |a| ==> a[i].ident == b[i].ident
    ensures Identities(a) == Identities(b)
  {
  }

  /** Stamping lines that already carry their stamp changes nothing. */
  lemma {:induction false} StampAgain(pos: map<OrderId, Order>, lines: seq<OrderLine>, again: seq<OrderLine>)
    requires |again| == |lines|
    requires forall i :: 0 <= i < |lines| ==> again[i] == StampLines(pos, lines)[i].(received := again[i].received)
    ensures StampLines(pos, again) == again
  {
    SameIdentities(lines, again);
    forall i | 0 <= i < |again| ensures Stamped(pos, again, i) == again[i] {
      StampedTwice(pos, lines, again, i, RootAt(pos, Identities(lines), i));
    }
  }

  lemma {:induction false} StampedTwice(pos: map<OrderId, Order>, lines: seq<OrderLine>, again: seq<OrderLine>,
      i: nat, r: nat)
    requires i < |again| == |lines| && r < |lines| && Identities(again) == Identities(lines)
    requires r == RootAt(pos, Identities(lines), i)
    requires again[i] == Stamped(pos, lines, i).(received := again[i].received)
    ensures Stamped(pos, again, i) == again[i]
  {
    assert Identities(again)[r] == Identities(lines)[r];
  }

  /** Running the backfill again changes nothing, whatever it started from. */
  lemma {:induction false} BackfillTwiceIsOnce(pos: map<OrderId, Order>, db: Database)
    ensures Backfill(pos, Backfill(pos, db)) == Backfill(pos, db)
  {
    var stamped := StampLines(pos, db.lines);
    var once := Backfill(pos, db);
    StampAgain(pos, db.lines, once.lines);
    ReceiptsStampedAlike(stamped, once.lines, once.receipts, db.receipts);
    RebuildAgain(stamped, once.receipts);
    NothingLeftToDo(pos, once);
  }

  lemma {:induction false} NothingLeftToDo(pos: map<OrderId, Order>, db: Database)
    requires StampLines(pos, db.lines) == db.lines && StampReceipts(db.lines, db.receipts) == db.receipts
    requires Rebuild(db.lines, db.receipts) == db.lines
    ensures Backfill(pos, db) == db
  {
  }

  lemma {:induction false} RebuildAgain(lines: seq<OrderLine>, rs: seq<ReceiptLine>)
    ensures Rebuild(Rebuild(lines, rs), rs) == Rebuild(lines, rs)
  {
    var once := Rebuild(lines, rs);
    forall i | 0 <= i < |lines| ensures Rebuild(once, rs)[i] == once[i] {
      assert StableId(once[i]) == StableId(lines[i]);
    }
  }

  lemma {:induction false} SameStableById(a: seq<OrderLine>, b: seq<OrderLine>, id: nat)
    requires |a| == |b|
    requires forall i :: 0 <= i < |a| ==> a[i].ident == b[i].ident && StableId(a[i]) == StableId(b[i])
    ensures LineById(a, id).Some? <==> LineById(b, id).Some?
    ensures LineById(a, id).Some? ==> StableId(LineById(a, id).value) == StableId(LineById(b, id).value)
  {
    if a != [] {
      SameStableById(a[1..], b[1..], id);
    }
  }

  lemma {:induction false} StampReceiptAgain(a: seq<OrderLine>, b: seq<OrderLine>, r: ReceiptLine)
    requires |a| == |b|
    requires forall i :: 0 <= i < |a| ==> a[i].ident == b[i].ident && StableId(a[i]) == StableId(b[i])
    ensures StampReceipt(b, StampReceipt(a, r)) == StampReceipt(a, r)
  {
    SameStableById(a, b, r.poLine);
  }

  lemma {:induction false} ReceiptsStampedAlike(a: seq<OrderLine>, b: seq<OrderLine>, once: seq<ReceiptLine>,
      rs: seq<ReceiptLine>)
    requires |a| == |b|
    requires forall i :: 0 <= i < |a| ==> a[i].ident == b[i].ident && StableId(a[i]) == StableId(b[i])
    requires once == StampReceipts(a, rs)
    ensures StampReceipts(b, once) == once
  {
    forall i | 0 <= i < |once| ensures StampReceipts(b, once)[i] == once[i] {
      StampReceiptAgain(a, b, rs[i]);
    }
  }

  // ---- Totals ----

  function PostedQty(rs: seq<ReceiptLine>): int {
    if rs == [] then 0
    else PostedQty(rs[..|rs| - 1]) + (if rs[|rs| - 1].posted then rs[|rs| - 1].qty else 0)
  }

  /** What the root lines received, in all. */
  function RootsReceived(lines: seq<OrderLine>): int {
    if lines == [] then 0
    else
      var last := lines[|lines| - 1];
      RootsReceived(lines[..|lines| - 1]) + (if last.root.None? then last.received else 0)
  }

  function RootsNamed(lines: seq<OrderLine>, id: nat): nat {
    if lines == [] then 0
    else
      var last := lines[|lines| - 1];
      RootsNamed(lines[..|lines| - 1], id) + (if last.root.None? && last.ident.id == id then 1 else 0)
  }

  lemma {:induction false} NoRootNamed(lines: seq<OrderLine>, id: nat)
    requires forall i :: 0 <= i < |lines| ==> lines[i].ident.id != id
    ensures RootsNamed(lines, id) == 0
  {
    if lines != [] {
      NoRootNamed(lines[..|lines| - 1], id);
    }
  }

  lemma {:induction false} OneRootNamed(lines: seq<OrderLine>, r: nat)
    requires KeysSound(lines) && r < |lines| && lines[r].root.None?
    ensures RootsNamed(lines, lines[r].ident.id) == 1
  {
    if r == |lines| - 1 {
      NoRootNamed(lines[..|lines| - 1], lines[r].ident.id);
    } else {
      OneRootNamed(lines[..|lines| - 1], r);
    }
  }

  lemma {:induction false} RootsReceivedOfLast(lines: seq<OrderLine>, rs: seq<ReceiptLine>)
    requires lines != []
    ensures var front, last := lines[..|lines| - 1], lines[|lines| - 1];
            RootsReceived(Rebuild(lines, rs))
            == RootsReceived(Rebuild(front, rs)) + (if last.root.None? then Received(rs, StableId(last)) else 0)
  {
    var all := Rebuild(lines, rs);
    assert all[..|lines| - 1] == Rebuild(lines[..|lines| - 1], rs);
  }

  lemma {:induction false} OneMore(qty: int, n: nat)
    ensures qty * (n + 1) == qty * n + qty
  {
  }

  /** One more receipt line reaches the root lines named by its stable id. */
  lemma {:induction false} ReceiptReachesRoots(lines: seq<OrderLine>, rs: seq<ReceiptLine>, r: ReceiptLine)
    requires r.root.Some?
    requires forall i :: 0 <= i < |lines| && lines[i].root.None? ==> StableId(lines[i]) == lines[i].ident.id
    ensures RootsReceived(Rebuild(lines, rs + [r]))
         == RootsReceived(Rebuild(lines, rs)) + (if r.posted then r.qty * RootsNamed(lines, r.root.value) else 0)
  {
    if lines != [] {
      ReceiptReachesRoots(lines[..|lines| - 1], rs, r);
      RootsReceivedOfLast(lines, rs);
      RootsReceivedOfLast(lines, rs + [r]);
      OneMore(r.qty, RootsNamed(lines[..|lines| - 1], r.root.value));
    }
  }

  /** Every receipt line names the id of a root line. */
  ghost predicate NamesRoots(lines: seq<OrderLine>, rs: seq<ReceiptLine>) {
    forall k :: 0 <= k < |rs| ==> rs[k].root.Some? && RootsNamed(lines, rs[k].root.value) == 1
  }

  lemma {:induction false} NothingReceived(lines: seq<OrderLine>)
    ensures RootsReceived(Rebuild(lines, [])) == 0
  {
    if lines != [] {
      NothingReceived(lines[..|lines| - 1]);
      var all := Rebuild(lines, []);
      assert all[..|lines| - 1] == Rebuild(lines[..|lines| - 1], []);
    }
  }

  lemma {:induction false} RootsReceiveAllPosted(lines: seq<OrderLine>, rs: seq<ReceiptLine>)
    requires forall i :: 0 <= i < |lines| && lines[i].root.None? ==> StableId(lines[i]) == lines[i].ident.id
    requires NamesRoots(lines, rs)
    ensures RootsReceived(Rebuild(lines, rs)) == PostedQty(rs)
  {
    if rs == [] {
      NothingReceived(lines);
    } else {
      var front, last := rs[..|rs| - 1], rs[|rs| - 1];
      assert rs == front + [last];
      RootsReceiveAllPosted(lines, front);
      ReceiptReachesRoots(lines, front, last);
    }
  }

  lemma {:induction false} LineByIdFinds(lines: seq<OrderLine>, k: nat) returns (l: OrderLine)
    requires k < |lines|
    requires forall i, j :: 0 <= i < j < |lines| ==> lines[i].ident.id != lines[j].ident.id
    ensures LineById(lines, lines[k].ident.id) == Some(lines[k]) && l == lines[k]
  {
    l := lines[k];
    if k > 0 {
      var rest := LineByIdFinds(lines[1..], k - 1);
    }
  }

  lemma {:induction false} StampingKeepsPosted(lines: seq<OrderLine>, rs: seq<ReceiptLine>)
    ensures PostedQty(StampReceipts(lines, rs)) == PostedQty(rs)
  {
    if rs != [] {
      StampingKeepsPosted(lines, rs[..|rs| - 1]);
      var after := StampReceipts(lines, rs);
      assert after[..|rs| - 1] == StampReceipts(lines, rs[..|rs| - 1]);
    }
  }

  /** Each receipt line was received against a line that exists. */
  ghost predicate ReceiptsSound(db: Database) {
    forall k :: 0 <= k < |db.receipts| ==>
      exists i :: 0 <= i < |db.lines| && db.lines[i].ident.id == db.receipts[k].poLine
  }

  lemma {:induction false} StampedKeysSound(pos: map<OrderId, Order>, lines: seq<OrderLine>)
    requires KeysSound(lines)
    ensures KeysSound(StampLines(pos, lines))
  {
    var stamped := StampLines(pos, lines);
    forall i, j | 0 <= i < j < |stamped| ensures stamped[i].ident.id != stamped[j].ident.id {
      assert stamped[i].ident == lines[i].ident && stamped[j].ident == lines[j].ident;
    }
  }

  /** The stable id of a stamped line is that of a line with no root, and of only one. */
  lemma {:induction false} StableIdNamesOneRoot(pos: map<OrderId, Order>, lines: seq<OrderLine>, i: nat)
    requires KeysSound(lines) && Unlinked(lines) && i < |lines|
    ensures RootsNamed(StampLines(pos, lines), StableId(StampLines(pos, lines)[i])) == 1
  {
    StampedKeysSound(pos, lines);
    StableIdOfStamped(pos, lines, i);
    OneRootNamed(StampLines(pos, lines), RootAt(pos, Identities(lines), i));
  }

  lemma {:induction false} StampedReceiptNamesRoot(pos: map<OrderId, Order>, db: Database, k: nat)
    requires KeysSound(db.lines) && Unlinked(db.lines) && ReceiptsSound(db) && k < |db.receipts|
    ensures var stamped := StampLines(pos, db.lines);
            var r := StampReceipt(stamped, db.receipts[k]);
            r.root.Some? && RootsNamed(stamped, r.root.value) == 1
  {
    var r := db.receipts[k];
    var i :| 0 <= i < |db.lines| && db.lines[i].ident.id == r.poLine;
    var stamped := StampLines(pos, db.lines);
    StampedKeysSound(pos, db.lines);
    assert stamped[i].ident == db.lines[i].ident;
    var l := LineByIdFinds(stamped, i);
    StableIdNamesOneRoot(pos, db.lines, i);
  }

  /** The root lines' received quantities total what the posted receipts received. */
  lemma {:induction false} RootsTotalPostedReceipts(pos: map<OrderId, Order>, db: Database)
    requires KeysSound(db.lines) && Unlinked(db.lines) && ReceiptsSound(db)
    ensures RootsReceived(Backfill(pos, db).lines) == PostedQty(db.receipts)
  {
    var stamped := StampLines(pos, db.lines);
    var receipts := StampReceipts(stamped, db.receipts);
    forall k | 0 <= k < |receipts| ensures receipts[k].root.Some? && RootsNamed(stamped, receipts[k].root.value) == 1 {
      StampedReceiptNamesRoot(pos, db, k);
    }
    RootsReceiveAllPosted(stamped, receipts);
    StampingKeepsPosted(stamped, db.receipts);
  }
}
