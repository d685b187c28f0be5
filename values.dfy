/** The data every module exchanges: items shaped {id, text, metadata}, the
    loosely typed metadata values they carry, and the handful of Python
    behaviours (dict.get, truthiness, numeric comparison, slicing, string
    helpers) that the endpoints' decisions depend on. */
module Values {
  import opened Wrappers

  /** A metadata value as the store holds it: JSON-like and untyped. Python's
      int and float are both `Num`. */
  datatype Value =
    | Str(s: string)
    | Num(n: real)
    | Bool(b: bool)
    | Null
    | List(elems: seq<Value>)
    | Dict(entries: map<string, Value>)

  type Metadata = map<string, Value>

  /** A stored unit: opaque id, text and metadata. */
  datatype Item = Item(id: string, text: string, metadata: Metadata)

  /** One row of a nearest-neighbour query: the stored item and its distance. */
  datatype Hit = Hit(id: string, text: string, metadata: Metadata, distance: real)

  /** The items and distances of a query, index-aligned. */
  datatype QueryResult = QueryResult(items: seq<Item>, distances: seq<real>)

  /** A `where` clause entry: plain equality, or `{"$gte": bound}`. */
  datatype Condition = Equals(value: Value) | AtLeast(bound: real)

  type Filter = map<string, Condition>

  /** The nearest-neighbour search of the store, an oracle: collection key,
      query text, number of results, optional filter. */
  type Query = (string, string, nat, Option<Filter>) -> seq<Hit>

  /** Cosine similarity of the embeddings of two texts, an oracle. */
  type Similarity = (string, string) -> real

  function Min(a: int, b: int): int { if a <= b then a else b }

  /** `m.get(k, default)` */
  function Get(m: Metadata, k: string, default: Value): Value {
    if k in m then m[k] else default
  }

  /** `m.get(k) == s` for a string `s`: false when the key is absent. */
  predicate HasStr(m: Metadata, k: string, s: string) {
    k in m && m[k] == Str(s)
  }

  /** The number Python sees in a value; bool is an int subtype. */
  function AsNumber(v: Value): Option<real> {
    match v
    case Num(n) => Some(n)
    case Bool(b) => Some(if b then 1.0 else 0.0)
    case _ => None
  }

  /** Python `v == x` for a number `x`: never raises, false across types. */
  predicate EqualsNumber(v: Value, x: real) {
    AsNumber(v) == Some(x)
  }

  /** Python `v == b` for a bool `b` (so `1 == True`). */
  predicate EqualsBool(v: Value, b: bool) {
    EqualsNumber(v, if b then 1.0 else 0.0)
  }

  /** Python truthiness. */
  predicate Truthy(v: Value) {
    match v
    case Str(s) => s != ""
    case Num(n) => n != 0.0
    case Bool(b) => b
    case Null => false
    case List(elems) => elems != []
    case Dict(entries) => entries != map[]
  }

  /** Python `v >= x`: comparing a non-number with a number raises TypeError. */
  function AtLeastNumber(v: Value, x: real): Result<bool, Error> {
    match AsNumber(v)
    case Some(n) => Ok(n >= x)
    case None => Err(StoreFailure("TypeError: '>=' not supported"))
  }

  /** Python `x in container` for a string `x`: list membership, substring
      test on a string, key test on a dict; anything else is not iterable. */
  function Contains(container: Value, x: string): Result<bool, Error> {
    match container
    case List(elems) => Ok(Str(x) in elems)
    case Str(s) => Ok(IsSubstring(x, s))
    case Dict(entries) => Ok(x in entries)
    case _ => Err(StoreFailure("TypeError: argument is not iterable"))
  }

  /** Some suffix of `s` starts with `x`. */
  predicate IsSubstring(x: string, s: string) {
    StartsWith(s, x) || (s != [] && IsSubstring(x, s[1..]))
  }

  /** Python `s[:n]` for n >= 0. */
  function Take<T>(s: seq<T>, n: nat): seq<T> {
    s[..Min(n, |s|)]
  }

  /** `r` is `s` with some elements left out, the rest in their order in `s`. */
  predicate SubseqOf<T(==)>(r: seq<T>, s: seq<T>)
    decreases |s|
  {
    if s == [] then r == []
    else (r != [] && r[|r| - 1] == s[|s| - 1] && SubseqOf(r[..|r| - 1], s[..|s| - 1])) || SubseqOf(r, s[..|s| - 1])
  }

  lemma {:induction false} SubseqRefl<T>(s: seq<T>)
    ensures SubseqOf(s, s)
    decreases |s|
  {
    if s != [] { SubseqRefl(s[..|s| - 1]); }
  }

  /** Keeping the next element extends a subsequence. */
  lemma SubseqKeep<T>(r: seq<T>, s: seq<T>, x: T)
    requires SubseqOf(r, s)
    ensures SubseqOf(r + [x], s + [x])
  {
    assert (r + [x])[..|r|] == r && (s + [x])[..|s|] == s;
  }

  /** Skipping the next element keeps a subsequence. */
  lemma SubseqSkip<T>(r: seq<T>, s: seq<T>, x: T)
    requires SubseqOf(r, s)
    ensures SubseqOf(r, s + [x])
  {
    assert (s + [x])[..|s|] == s;
  }

  lemma {:induction false} SubseqTrans<T>(a: seq<T>, b: seq<T>, c: seq<T>)
    requires SubseqOf(a, b) && SubseqOf(b, c)
    ensures SubseqOf(a, c)
    decreases |c|
  {
    if c != [] {
      var c' := c[..|c| - 1];
      if SubseqOf(b, c') {
        SubseqTrans(a, b, c');
      } else {
        var b' := b[..|b| - 1];
        if a != [] && a[|a| - 1] == b[|b| - 1] && SubseqOf(a[..|a| - 1], b') {
          SubseqTrans(a[..|a| - 1], b', c');
        } else {
          SubseqTrans(a, b', c');
        }
      }
    }
  }

  /** The display form used in reports: `t[:100] + "..."` when longer than 100. */
  function Shorten(t: string): (r: string)
    ensures |t| <= 100 ==> r == t
    ensures |t| > 100 ==> |r| == 103 && r[..100] == t[..100] && r[100..] == "..."
  {
    if |t| > 100 then t[..100] + "..." else t
  }

  /** Python `s.split("T")[0]`: everything before the first 'T'. */
  function DatePart(s: string): (r: string)
    ensures |r| <= |s| && r == s[..|r|]
    ensures 'T' !in r
    ensures |r| < |s| ==> s[|r|] == 'T'
  {
    if s == [] then [] else if s[0] == 'T' then [] else [s[0]] + DatePart(s[1..])
  }

  /** Python `a < b` on strings: lexicographic by code point. */
  predicate StrLess(a: string, b: string) {
    if a == [] then b != []
    else if b == [] then false
    else if a[0] != b[0] then a[0] < b[0]
    else StrLess(a[1..], b[1..])
  }

  lemma {:induction false} StrLessIrreflexive(a: string)
    ensures !StrLess(a, a)
  {
    if a != [] { StrLessIrreflexive(a[1..]); }
  }

  lemma {:induction false} StrLessAsymmetric(a: string, b: string)
    ensures !(StrLess(a, b) && StrLess(b, a))
  {
    if a != [] && b != [] && a[0] == b[0] { StrLessAsymmetric(a[1..], b[1..]); }
  }

  lemma {:induction false} StrLessTotal(a: string, b: string)
    ensures a == b || StrLess(a, b) || StrLess(b, a)
  {
    if a != [] && b != [] && a[0] == b[0] {
      StrLessTotal(a[1..], b[1..]);
      if a[1..] == b[1..] {
        assert a == [a[0]] + a[1..] && b == [b[0]] + b[1..];
      }
    }
  }

  lemma {:induction false} StrLessTransitive(a: string, b: string, c: string)
    requires StrLess(a, b) && StrLess(b, c)
    ensures StrLess(a, c)
  {
    if a != [] && a[0] == b[0] && b[0] == c[0] {
      StrLessTransitive(a[1..], b[1..], c[1..]);
    }
  }

  predicate StartsWith(s: string, p: string) {
    |p| <= |s| && s[..|p|] == p
  }

  /** Python `s.replace(pat, "")`: every non-overlapping occurrence, scanning
      left to right, is deleted. */
  function RemoveAll(s: string, pat: string): string
    requires pat != []
    decreases |s|
  {
    if |s| < |pat| then s
    else if s[..|pat|] == pat then RemoveAll(s[|pat|..], pat)
    else [s[0]] + RemoveAll(s[1..], pat)
  }

  /** The slice `s[min(offset, n) : min(min(offset, n) + limit, n)]` that every
      listing returns. */
  function Page<T>(s: seq<T>, offset: nat, limit: nat): (p: seq<T>)
    ensures |p| <= limit
    ensures |p| == if offset >= |s| then 0 else Min(limit, |s| - offset)
    ensures forall k :: 0 <= k < |p| ==> p[k] == s[offset + k]
  {
    var start := Min(offset, |s|);
    s[start..Min(start + limit, |s|)]
  }

  /** `existing.copy(); update(changes); ["updated_at"] = now`: the partial
      metadata merge of every update endpoint. */
  function Merged(existing: Metadata, changes: Metadata, now: string): (r: Metadata)
    ensures r.Keys == existing.Keys + changes.Keys + {"updated_at"}
    ensures r["updated_at"] == Str(now)
    ensures forall k :: k in changes && k != "updated_at" ==> r[k] == changes[k]
    ensures forall k :: k in existing && k !in changes && k != "updated_at" ==> r[k] == existing[k]
  {
    (existing + changes)["updated_at" := Str(now)]
  }

  /** The items and distances of the first (only) result row, index by index. */
  function FromHits(hits: seq<Hit>): (r: QueryResult)
    ensures |r.items| == |r.distances| == |hits|
    ensures forall i :: 0 <= i < |hits| ==>
      r.items[i] == Item(hits[i].id, hits[i].text, hits[i].metadata) && r.distances[i] == hits[i].distance
  {
    QueryResult(seq(|hits|, i requires 0 <= i < |hits| => Item(hits[i].id, hits[i].text, hits[i].metadata)),
                seq(|hits|, i requires 0 <= i < |hits| => hits[i].distance))
  }

  /** Appending a hit appends its item and its distance. */
  lemma FromHitsAppend(hits: seq<Hit>, h: Hit)
    ensures FromHits(hits + [h]) ==
      QueryResult(FromHits(hits).items + [Item(h.id, h.text, h.metadata)], FromHits(hits).distances + [h.distance])
  {
    var a, b := FromHits(hits + [h]), FromHits(hits);
    assert a.items == b.items + [Item(h.id, h.text, h.metadata)];
    assert a.distances == b.distances + [h.distance];
  }
}
