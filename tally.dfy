/** Python's `collections.Counter` over a sequence, kept as the list of
    (key, count) pairs in first-occurrence order, which is the order the
    resulting dict is serialised in. */
module Tally {

  /** How often `x` occurs in `xs`. */
  function Count<T(==)>(xs: seq<T>, x: T): nat {
    if xs == [] then 0 else Count(xs[..|xs| - 1], x) + (if xs[|xs| - 1] == x then 1 else 0)
  }

  /** The count stored for `k`, 0 when `k` has no entry. */
  function Lookup<T(==)>(r: seq<(T, nat)>, k: T): nat {
    if r == [] then 0 else if r[0].0 == k then r[0].1 else Lookup(r[1..], k)
  }

  function Keys<T>(r: seq<(T, nat)>): seq<T> {
    if r == [] then [] else [r[0].0] + Keys(r[1..])
  }

  function Sum<T>(r: seq<(T, nat)>): nat {
    if r == [] then 0 else r[0].1 + Sum(r[1..])
  }

  ghost predicate DistinctKeys<T>(r: seq<(T, nat)>) {
    forall i, j :: 0 <= i < j < |r| ==> r[i].0 != r[j].0
  }

  ghost predicate Positive<T>(r: seq<(T, nat)>) {
    forall i :: 0 <= i < |r| ==> r[i].1 > 0
  }

  /** `counter[x] += 1`: the entry of `x` grows, or a new one is appended. */
  function Bump<T(==)>(r: seq<(T, nat)>, x: T): seq<(T, nat)> {
    if r == [] then [(x, 1)]
    else if r[0].0 == x then [(x, r[0].1 + 1)] + r[1..]
    else [r[0]] + Bump(r[1..], x)
  }

  /** `Counter(xs)`. */
  function Counter<T(==)>(xs: seq<T>): seq<(T, nat)> {
    if xs == [] then [] else Bump(Counter(xs[..|xs| - 1]), xs[|xs| - 1])
  }

  lemma {:induction false} KeysShape<T>(r: seq<(T, nat)>)
    ensures |Keys(r)| == |r|
    ensures forall i :: 0 <= i < |r| ==> Keys(r)[i] == r[i].0
  {
    if r != [] { KeysShape(r[1..]); }
  }

  lemma {:induction false} BumpLookup<T>(r: seq<(T, nat)>, x: T, k: T)
    ensures Lookup(Bump(r, x), k) == Lookup(r, k) + (if k == x then 1 else 0)
  {
    if r != [] && r[0].0 != x {
      BumpLookup(r[1..], x, k);
    }
  }

  lemma {:induction false} BumpSum<T>(r: seq<(T, nat)>, x: T)
    ensures Sum(Bump(r, x)) == Sum(r) + 1
  {
    if r == [] {
    } else if r[0].0 == x {
      assert Bump(r, x)[1..] == r[1..];
    } else {
      BumpSum(r[1..], x);
      assert Bump(r, x)[1..] == Bump(r[1..], x);
    }
  }

  lemma {:induction false} BumpKeys<T>(r: seq<(T, nat)>, x: T)
    ensures Keys(Bump(r, x)) == if x in Keys(r) then Keys(r) else Keys(r) + [x]
  {
    if r == [] {
    } else if r[0].0 == x {
      assert Bump(r, x)[1..] == r[1..];
    } else {
      BumpKeys(r[1..], x);
      assert Bump(r, x)[1..] == Bump(r[1..], x);
    }
  }

  lemma {:induction false} BumpPositive<T>(r: seq<(T, nat)>, x: T)
    requires Positive(r)
    ensures Positive(Bump(r, x)) && |Bump(r, x)| >= |r|
  {
    if r != [] && r[0].0 != x {
      BumpPositive(r[1..], x);
    }
  }

  lemma {:induction false} DistinctFromKeys<T>(r: seq<(T, nat)>)
    ensures DistinctKeys(r) <==> (forall i, j :: 0 <= i < j < |Keys(r)| ==> Keys(r)[i] != Keys(r)[j])
  {
    KeysShape(r);
  }

  lemma BumpDistinct<T>(r: seq<(T, nat)>, x: T)
    requires DistinctKeys(r)
    ensures DistinctKeys(Bump(r, x))
  {
    BumpKeys(r, x);
    DistinctFromKeys(r);
    DistinctFromKeys(Bump(r, x));
    KeysShape(r);
  }

  lemma {:induction false} CountAppend<T>(xs: seq<T>, y: T, k: T)
    ensures Count(xs + [y], k) == Count(xs, k) + (if y == k then 1 else 0)
  {
    assert (xs + [y])[..|xs + [y]| - 1] == xs;
  }

  lemma {:induction false} CountPositiveIffIn<T>(xs: seq<T>, k: T)
    ensures Count(xs, k) > 0 <==> k in xs
  {
    if xs != [] {
      CountPositiveIffIn(xs[..|xs| - 1], k);
      assert xs == xs[..|xs| - 1] + [xs[|xs| - 1]];
    }
  }

  lemma {:induction false} LookupDistinct<T>(r: seq<(T, nat)>, i: nat)
    requires DistinctKeys(r) && i < |r|
    ensures Lookup(r, r[i].0) == r[i].1
  {
    if i > 0 {
      LookupDistinct(r[1..], i - 1);
    }
  }

  /** The Counter has one entry per distinct element, first-occurrence order
      aside, each holding that element's number of occurrences; their sum is the
      length of the input. */
  lemma {:induction false} CounterCorrect<T>(xs: seq<T>)
    ensures DistinctKeys(Counter(xs)) && Positive(Counter(xs))
    ensures forall k :: Lookup(Counter(xs), k) == Count(xs, k)
    ensures forall k :: k in Keys(Counter(xs)) <==> k in xs
    ensures forall i :: 0 <= i < |Counter(xs)| ==> Counter(xs)[i].1 == Count(xs, Counter(xs)[i].0)
    ensures Sum(Counter(xs)) == |xs|
  {
    if xs != [] {
      var init, x := xs[..|xs| - 1], xs[|xs| - 1];
      assert xs == init + [x];
      CounterCorrect(init);
      var r := Counter(init);
      BumpDistinct(r, x);
      BumpPositive(r, x);
      BumpSum(r, x);
      BumpKeys(r, x);
      forall k ensures Lookup(Counter(xs), k) == Count(xs, k) {
        BumpLookup(r, x, k);
        CountAppend(init, x, k);
      }
      forall i | 0 <= i < |Counter(xs)| ensures Counter(xs)[i].1 == Count(xs, Counter(xs)[i].0) {
        var k := Counter(xs)[i].0;
        LookupDistinct(Counter(xs), i);
        assert Lookup(Counter(xs), k) == Count(xs, k);
      }
    }
  }

  lemma CounterKeysMatchCounts<T>(xs: seq<T>, k: T)
    ensures k in Keys(Counter(xs)) <==> Count(xs, k) > 0
  {
    CounterCorrect(xs);
    CountPositiveIffIn(xs, k);
  }
}
