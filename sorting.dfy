/** Python's `list.sort(key=...)` and `sorted(...)`: a stable sort under a
    total preorder. It is modelled by insertion sort, which puts each element
    after every element it does not precede, so ties keep their input order. */
module Sorting {

  /** `le(a, b)`: `a` may come before `b`. */
  ghost predicate TotalPreorder<T(!new)>(le: (T, T) -> bool) {
    (forall a, b :: le(a, b) || le(b, a)) &&
    (forall a, b, c :: le(a, b) && le(b, c) ==> le(a, c))
  }

  ghost predicate SortedBy<T>(s: seq<T>, le: (T, T) -> bool) {
    forall i, j :: 0 <= i < j < |s| ==> le(s[i], s[j])
  }

  /** Neither of `a`, `b` strictly precedes the other. */
  predicate Tied<T>(le: (T, T) -> bool, a: T, b: T) {
    le(a, b) && le(b, a)
  }

  /** The elements of `s` tied with `y`, in their order in `s`. */
  function TiesWith<T>(s: seq<T>, le: (T, T) -> bool, y: T): seq<T> {
    if s == [] then [] else (if Tied(le, s[0], y) then [s[0]] else []) + TiesWith(s[1..], le, y)
  }

  function Insert<T>(s: seq<T>, x: T, le: (T, T) -> bool): seq<T> {
    if s == [] then [x]
    else if le(s[0], x) then [s[0]] + Insert(s[1..], x, le)
    else [x] + s
  }

  function SortBy<T>(s: seq<T>, le: (T, T) -> bool): seq<T> {
    if s == [] then [] else Insert(SortBy(s[..|s| - 1], le), s[|s| - 1], le)
  }

  lemma {:induction false} InsertPermutes<T>(s: seq<T>, x: T, le: (T, T) -> bool)
    ensures multiset(Insert(s, x, le)) == multiset(s) + multiset{x}
    ensures |Insert(s, x, le)| == |s| + 1
  {
    if s != [] && le(s[0], x) {
      InsertPermutes(s[1..], x, le);
      assert s == [s[0]] + s[1..];
    }
  }

  /** A sorted sequence without its first element is sorted. */
  lemma SortedTail<T>(s: seq<T>, le: (T, T) -> bool)
    requires SortedBy(s, le) && s != []
    ensures SortedBy(s[1..], le)
    ensures forall e :: e in s[1..] ==> le(s[0], e)
  {
    forall e | e in s[1..] ensures le(s[0], e) {
      var k :| 0 <= k < |s[1..]| && s[1..][k] == e;
      assert s[1 + k] == e;
    }
  }

  /** Everything in the result of an insertion is the inserted element or was already there. */
  lemma {:induction false} InsertMembers<T>(s: seq<T>, x: T, le: (T, T) -> bool)
    ensures forall e :: e in Insert(s, x, le) ==> e == x || e in s
  {
    if s != [] && le(s[0], x) {
      InsertMembers(s[1..], x, le);
      assert forall e :: e in s[1..] ==> e in s;
    }
  }

  /** Inserting after the first element keeps the first element in front. */
  lemma {:induction false} InsertSortedAfter<T>(s: seq<T>, x: T, le: (T, T) -> bool)
    requires s != [] && le(s[0], x)
    requires forall e :: e in s[1..] ==> le(s[0], e)
    requires SortedBy(Insert(s[1..], x, le), le)
    ensures SortedBy(Insert(s, x, le), le)
  {
    var t := Insert(s[1..], x, le);
    InsertMembers(s[1..], x, le);
    assert forall e :: e in t ==> le(s[0], e);
    var r := [s[0]] + t;
    assert Insert(s, x, le) == r;
    forall i, j | 0 <= i < j < |r| ensures le(r[i], r[j]) {
      if i == 0 { assert r[j] in t; }
      else { assert r[i] == t[i - 1] && r[j] == t[j - 1]; }
    }
  }

  /** Inserting in front of an element that `x` precedes. */
  lemma {:induction false} InsertSortedBefore<T(!new)>(s: seq<T>, x: T, le: (T, T) -> bool)
    requires TotalPreorder(le) && SortedBy(s, le)
    requires s != [] && !le(s[0], x)
    ensures SortedBy(Insert(s, x, le), le)
  {
    var r := [x] + s;
    assert Insert(s, x, le) == r;
    forall i, j | 0 <= i < j < |r| ensures le(r[i], r[j]) {
      if i == 0 { assert le(x, s[0]); assert j == 1 || le(s[0], s[j - 1]); }
      else { assert r[i] == s[i - 1] && r[j] == s[j - 1]; }
    }
  }

  lemma {:induction false} InsertSorted<T(!new)>(s: seq<T>, x: T, le: (T, T) -> bool)
    requires TotalPreorder(le) && SortedBy(s, le)
    ensures SortedBy(Insert(s, x, le), le)
  {
    if s != [] && le(s[0], x) {
      SortedTail(s, le);
      InsertSorted(s[1..], x, le);
      InsertSortedAfter(s, x, le);
    } else if s != [] {
      InsertSortedBefore(s, x, le);
    }
  }

  lemma {:induction false} TiesAppend<T>(a: seq<T>, b: seq<T>, le: (T, T) -> bool, y: T)
    ensures TiesWith(a + b, le, y) == TiesWith(a, le, y) + TiesWith(b, le, y)
  {
    if a == [] {
      assert a + b == b;
    } else {
      TiesAppend(a[1..], b, le, y);
      var h := if Tied(le, a[0], y) then [a[0]] else [];
      assert (a + b)[0] == a[0];
      assert (a + b)[1..] == a[1..] + b;
      assert TiesWith(a + b, le, y) == h + TiesWith(a[1..] + b, le, y);
      assert TiesWith(a, le, y) == h + TiesWith(a[1..], le, y);
    }
  }

  lemma {:induction false} NoTies<T>(s: seq<T>, le: (T, T) -> bool, y: T)
    requires forall e :: e in s ==> !Tied(le, e, y)
    ensures TiesWith(s, le, y) == []
  {
    if s != [] { NoTies(s[1..], le, y); }
  }

  /** When `x` goes in front of a sorted sequence, nothing in it is tied with
      anything `x` is tied with. */
  lemma {:induction false} NoneTiedAfter<T(!new)>(s: seq<T>, x: T, le: (T, T) -> bool, y: T)
    requires TotalPreorder(le) && SortedBy(s, le)
    requires s != [] && !le(s[0], x) && Tied(le, x, y)
    ensures forall e :: e in s ==> !Tied(le, e, y)
  {
    forall e | e in s ensures !Tied(le, e, y) {
      var k :| 0 <= k < |s| && s[k] == e;
      assert k == 0 || le(s[0], s[k]);
    }
  }

  lemma {:induction false} InsertTies<T(!new)>(s: seq<T>, x: T, le: (T, T) -> bool, y: T)
    requires TotalPreorder(le) && SortedBy(s, le)
    ensures TiesWith(Insert(s, x, le), le, y) == TiesWith(s, le, y) + (if Tied(le, x, y) then [x] else [])
  {
    if s == [] {
    } else if le(s[0], x) {
      SortedTail(s, le);
      InsertTies(s[1..], x, le, y);
      assert ([s[0]] + Insert(s[1..], x, le))[1..] == Insert(s[1..], x, le);
    } else {
      assert ([x] + s)[1..] == s;
      if Tied(le, x, y) {
        NoneTiedAfter(s, x, le, y);
        NoTies(s, le, y);
      }
    }
  }

  /** In a sorted sequence, everything before a cut precedes everything after it. */
  lemma SortedCut<T>(s: seq<T>, k: nat, le: (T, T) -> bool)
    requires SortedBy(s, le) && k <= |s|
    ensures forall y, x :: y in s[..k] && x in s[k..] ==> le(y, x)
  {
    forall y, x | y in s[..k] && x in s[k..] ensures le(y, x) {
      var i :| 0 <= i < k && s[..k][i] == y;
      var j :| 0 <= j < |s| - k && s[k..][j] == x;
      assert s[i] == y && s[k + j] == x;
    }
  }

  /** The sort returns a sorted permutation of its input. */
  lemma {:induction false} SortByCorrect<T(!new)>(s: seq<T>, le: (T, T) -> bool)
    requires TotalPreorder(le)
    ensures SortedBy(SortBy(s, le), le)
    ensures multiset(SortBy(s, le)) == multiset(s)
    ensures |SortBy(s, le)| == |s|
  {
    if s != [] {
      SortByCorrect(s[..|s| - 1], le);
      InsertSorted(SortBy(s[..|s| - 1], le), s[|s| - 1], le);
      InsertPermutes(SortBy(s[..|s| - 1], le), s[|s| - 1], le);
      assert s == s[..|s| - 1] + [s[|s| - 1]];
    }
  }

  /** The last insertion of the sort keeps the ties of what came before and
      appends the inserted element when it is tied. */
  lemma {:induction false} StableStep<T>(s: seq<T>, le: (T, T) -> bool, y: T)
    requires s != []
    requires TiesWith(SortBy(s[..|s| - 1], le), le, y) == TiesWith(s[..|s| - 1], le, y)
    requires TiesWith(Insert(SortBy(s[..|s| - 1], le), s[|s| - 1], le), le, y) ==
      TiesWith(SortBy(s[..|s| - 1], le), le, y) + (if Tied(le, s[|s| - 1], y) then [s[|s| - 1]] else [])
    ensures TiesWith(SortBy(s, le), le, y) == TiesWith(s, le, y)
  {
    var init, x := s[..|s| - 1], s[|s| - 1];
    assert s == init + [x];
    TiesAppend(init, [x], le, y);
    assert TiesWith([x], le, y) == (if Tied(le, x, y) then [x] else []) + TiesWith([], le, y);
  }

  /** The sort is stable: the elements tied with any `y` come out in the order
      they went in. */
  lemma {:induction false} SortByStable<T(!new)>(s: seq<T>, le: (T, T) -> bool, y: T)
    requires TotalPreorder(le)
    ensures TiesWith(SortBy(s, le), le, y) == TiesWith(s, le, y)
  {
    if s != [] {
      var init := s[..|s| - 1];
      SortByStable(init, le, y);
      SortByCorrect(init, le);
      InsertTies(SortBy(init, le), s[|s| - 1], le, y);
      StableStep(s, le, y);
    }
  }

  /** The first `k` of the sorted sequence: in order, drawn from the input,
      and no element left out strictly precedes one kept. */
  lemma SortedPrefix<T(!new)>(s: seq<T>, k: nat, le: (T, T) -> bool)
    requires TotalPreorder(le) && k <= |s|
    ensures |SortBy(s, le)| == |s|
    ensures var p := SortBy(s, le)[..k];
      SortedBy(p, le) && multiset(p) <= multiset(s) &&
      forall y, x :: y in p && x in s && x !in p ==> le(y, x)
  {
    var sorted := SortBy(s, le);
    SortByCorrect(s, le);
    var p := sorted[..k];
    assert sorted == p + sorted[k..];
    calc {
      multiset(s);
      multiset(sorted);
      multiset(p) + multiset(sorted[k..]);
    }
    SortedCut(sorted, k, le);
    forall y, x | y in p && x in s && x !in p ensures le(y, x) {
      assert x in multiset(sorted);
      assert x in sorted[k..];
    }
  }
}
