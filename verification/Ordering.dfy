/** Stable sorting on two-part keys, for queries with an ORDER BY and for in-place list sorts. */
module Ordering {
  datatype Key = Key(major: int, minor: int)

  predicate AtMost(a: Key, b: Key) {
    a.major < b.major || (a.major == b.major && a.minor <= b.minor)
  }

  /** `x` goes in front of the first element that is not smaller, so equal keys keep their order. */
  function Insert<T>(key: T -> Key, x: T, s: seq<T>): seq<T> {
    if s == [] || AtMost(key(x), key(s[0])) then [x] + s else [s[0]] + Insert(key, x, s[1..])
  }

  function SortBy<T>(key: T -> Key, s: seq<T>): seq<T> {
    if s == [] then [] else Insert(key, s[0], SortBy(key, s[1..]))
  }

  function Filter<T>(p: T -> bool, s: seq<T>): seq<T> {
    if s == [] then [] else (if p(s[0]) then [s[0]] else []) + Filter(p, s[1..])
  }

  ghost predicate Sorted<T>(key: T -> Key, s: seq<T>) {
    forall i, j :: 0 <= i < j < |s| ==> AtMost(key(s[i]), key(s[j]))
  }

  lemma {:induction false} InsertPermutes<T>(key: T -> Key, x: T, s: seq<T>)
    ensures multiset(Insert(key, x, s)) == multiset([x]) + multiset(s)
  {
    if s != [] && !AtMost(key(x), key(s[0])) {
      assert s == [s[0]] + s[1..];
      InsertPermutes(key, x, s[1..]);
    }
  }

  lemma {:induction false} InsertMember<T>(key: T -> Key, x: T, s: seq<T>, y: T)
    ensures y in Insert(key, x, s) <==> y == x || y in s
  {
    InsertPermutes(key, x, s);
    assert y in Insert(key, x, s) <==> y in multiset(Insert(key, x, s));
  }

  lemma {:induction false} InsertKeepsSorted<T>(key: T -> Key, x: T, s: seq<T>)
    requires Sorted(key, s)
    ensures Sorted(key, Insert(key, x, s))
  {
    if s != [] && !AtMost(key(x), key(s[0])) {
      InsertKeepsSorted(key, x, s[1..]);
      var rest := Insert(key, x, s[1..]);
      forall y | y in rest ensures AtMost(key(s[0]), key(y)) {
        InsertMember(key, x, s[1..], y);
      }
    }
  }

  /** Sorting orders the elements and keeps each of them. */
  lemma {:induction false} SortBySorts<T>(key: T -> Key, s: seq<T>)
    ensures Sorted(key, SortBy(key, s))
    ensures multiset(SortBy(key, s)) == multiset(s)
  {
    if s != [] {
      assert s == [s[0]] + s[1..];
      SortBySorts(key, s[1..]);
      InsertKeepsSorted(key, s[0], SortBy(key, s[1..]));
      InsertPermutes(key, s[0], SortBy(key, s[1..]));
    }
  }

  lemma {:induction false} SortByMember<T>(key: T -> Key, s: seq<T>, x: T)
    ensures x in SortBy(key, s) <==> x in s
  {
    SortBySorts(key, s);
    assert x in SortBy(key, s) <==> x in multiset(SortBy(key, s));
  }

  lemma {:induction false} SortByMembers<T>(key: T -> Key, s: seq<T>)
    ensures forall x :: x in SortBy(key, s) <==> x in s
  {
    forall x ensures x in SortBy(key, s) <==> x in s {
      SortByMember(key, s, x);
    }
  }

  lemma {:induction false} SortByKeepsLength<T>(key: T -> Key, s: seq<T>)
    ensures |SortBy(key, s)| == |s|
  {
    SortBySorts(key, s);
    assert |SortBy(key, s)| == |multiset(SortBy(key, s))|;
  }

  ghost predicate NoRepeats<T>(s: seq<T>) {
    forall i, j :: 0 <= i < j < |s| ==> s[i] != s[j]
  }

  lemma {:induction false} InsertKeepsNoRepeats<T>(key: T -> Key, x: T, s: seq<T>)
    requires NoRepeats(s) && x !in s
    ensures NoRepeats(Insert(key, x, s))
  {
    if s != [] && !AtMost(key(x), key(s[0])) {
      InsertKeepsNoRepeats(key, x, s[1..]);
      InsertMember(key, x, s[1..], s[0]);
      assert s[0] !in s[1..];
    }
  }

  lemma {:induction false} SortByKeepsNoRepeats<T>(key: T -> Key, s: seq<T>)
    requires NoRepeats(s)
    ensures NoRepeats(SortBy(key, s))
  {
    if s != [] {
      SortByKeepsNoRepeats(key, s[1..]);
      SortByMembers(key, s[1..]);
      InsertKeepsNoRepeats(key, s[0], SortBy(key, s[1..]));
    }
  }

  lemma {:induction false} FilterMembers<T>(p: T -> bool, s: seq<T>)
    ensures forall x :: x in Filter(p, s) <==> x in s && p(x)
  {
    if s != [] {
      FilterMembers(p, s[1..]);
      assert s == [s[0]] + s[1..];
    }
  }
}
