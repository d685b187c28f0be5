/** The learnings-and-reflections module: listing with equality and tag
    filters, semantic search with a tag post-filter that stops early, the
    importance-ordered summary with its category counts, and the shared get,
    update and delete endpoints. */
module Learnings {
  import opened Wrappers
  import opened Values
  import opened Database
  import opened Listing
  import opened Sorting
  import opened Tally
  import Crud

  const Key: string := "learnings"

  /** `tag in metadata.get("tags", [])`: raises when the tags value is not iterable. */
  function HasTag(metadata: Metadata, tag: string): Result<bool, Error> {
    Contains(Get(metadata, "tags", Value.List([])), tag)
  }

  /** The list's tag filter: when a tag is given, the items whose tags hold it.
      The comprehension raises as soon as one item's tags are not iterable. */
  function FilterTag(items: seq<Item>, tag: string): (r: Result<seq<Item>, Error>)
    ensures tag == "" ==> r == Ok(items)
    ensures r.Ok? ==> |r.value| <= |items|
    ensures r.Ok? ==> forall it :: it in r.value <==> it in items && (tag == "" || HasTag(it.metadata, tag) == Ok(true))
    ensures r.Err? <==> tag != "" && exists it :: it in items && HasTag(it.metadata, tag).Err?
    ensures r.Ok? ==> SubseqOf(r.value, items)
  {
    if tag == "" || items == [] then SubseqRefl(items); Ok(items)
    else
      var init, last := items[..|items| - 1], items[|items| - 1];
      assert items == init + [last];
      match FilterTag(init, tag)
      case Err(e) => Err(e)
      case Ok(kept) =>
        match HasTag(last.metadata, tag)
        case Err(e) => Err(e)
        case Ok(b) =>
          if b then SubseqKeep(kept, init, last); Ok(kept + [last])
          else SubseqSkip(kept, init, last); Ok(kept)
  }

  function ListFilters(category: string, source: string, importance: string): seq<(string, string)> {
    [("category", category), ("source", source), ("importance", importance)]
  }

  /** `GET /aprendizajes/listar`: the first 100 stored items through the
      category, source, importance and tag filters, then paged. */
  method List(store: VectorStore, limit: nat, offset: nat, category: string, source: string,
              importance: string, tag: string) returns (r: Result<ItemList, Error>)
    requires store.Valid() && 1 <= limit <= 1000
    ensures var byEq := FilterEqs(Take(store.collections[Key], DefaultLimit), ListFilters(category, source, importance));
      var byTag := FilterTag(byEq, tag);
      (byTag.Ok? ==> r == Ok(PageOf(byTag.value, limit, offset))) && (byTag.Err? ==> r == Err(byTag.error))
    ensures r.Ok? ==> |r.value.items| <= limit && r.value.total <= DefaultLimit
    ensures r.Ok? ==> forall it :: it in r.value.items ==>
      it in store.collections[Key] && MatchesEq(it, "category", category) && MatchesEq(it, "source", source) &&
      MatchesEq(it, "importance", importance) && (tag == "" || HasTag(it.metadata, tag) == Ok(true))
  {
    var all := store.ListItems(Key, DefaultLimit, 0);
    ListAllSeesFirst100(store.collections[Key]);
    var fs := ListFilters(category, source, importance);
    var byEq := FilterEqs(all.value, fs);
    var byTag := FilterTag(byEq, tag);
    if byTag.Err? {
      return Err(byTag.error);
    }
    var page := PageOf(byTag.value, limit, offset);
    forall it | it in page.items
      ensures it in store.collections[Key] && MatchesEq(it, "category", category) && MatchesEq(it, "source", source) &&
        MatchesEq(it, "importance", importance) && (tag == "" || HasTag(it.metadata, tag) == Ok(true))
    {
      var k :| 0 <= k < |page.items| && page.items[k] == it;
      assert it in byTag.value && it in byEq;
      assert MatchesEq(it, fs[0].0, fs[0].1) && MatchesEq(it, fs[1].0, fs[1].1) && MatchesEq(it, fs[2].0, fs[2].1);
    }
    r := Ok(page);
  }

  /** The search `where` dictionary: category, source and importance when
      supplied, never the tag (it is applied after the query), None when empty. */
  function SearchFilter(category: string, source: string, importance: string): (r: Option<Filter>)
    ensures r.None? <==> category == "" && source == "" && importance == ""
    ensures r.Some? ==> (r.value.Keys ==
      (if category != "" then {"category"} else {}) +
      (if source != "" then {"source"} else {}) +
      (if importance != "" then {"importance"} else {}))
    ensures r.Some? && category != "" ==> r.value["category"] == Equals(Str(category))
    ensures r.Some? && source != "" ==> r.value["source"] == Equals(Str(source))
    ensures r.Some? && importance != "" ==> r.value["importance"] == Equals(Str(importance))
  {
    var fs := ListFilters(category, source, importance);
    EqFilterOfThree(fs[0], fs[1], fs[2]);
    EqFilter(fs)
  }

  /** `r` with `prefix` in front, errors passed through. */
  function Prepend<T>(prefix: seq<T>, r: Result<seq<T>, Error>): Result<seq<T>, Error> {
    match r
    case Ok(s) => Ok(prefix + s)
    case Err(e) => Err(e)
  }

  lemma PrependPrepend<T>(a: seq<T>, b: seq<T>, r: Result<seq<T>, Error>)
    ensures Prepend(a, Prepend(b, r)) == Prepend(a + b, r)
  {
    if r.Ok? {
      assert a + (b + r.value) == (a + b) + r.value;
    }
  }

  /** Whether the search keeps a hit: always without a tag, otherwise when its
      tags hold the tag (raising when they are not iterable). */
  function Keep(h: Hit, tag: string): Result<bool, Error> {
    if tag == "" then Ok(true) else HasTag(h.metadata, tag)
  }

  /** The search loop's outcome: hits are taken in order, those lacking the tag
      are skipped, and the scan stops once `n` are kept; a hit whose tags are
      not iterable raises, but only if the scan reaches it. */
  function TagScan(hits: seq<Hit>, tag: string, n: nat): Result<seq<Hit>, Error>
    decreases |hits|
  {
    if hits == [] || n == 0 then Ok([])
    else
      match Keep(hits[0], tag)
      case Err(e) => Err(e)
      case Ok(false) => TagScan(hits[1..], tag, n)
      case Ok(true) => Prepend([hits[0]], TagScan(hits[1..], tag, n - 1))
  }

  /** Reference definition: all hits carrying the tag, the first raise aborting. */
  function TaggedHits(hits: seq<Hit>, tag: string): Result<seq<Hit>, Error> {
    if hits == [] then Ok([])
    else
      match Keep(hits[0], tag)
      case Err(e) => Err(e)
      case Ok(b) => Prepend(if b then [hits[0]] else [], TaggedHits(hits[1..], tag))
  }

  /** When no hit raises, the early-stopping scan is the filter followed by
      `[:n]`; without a tag it is plain `[:n]`. */
  lemma {:induction false} TagScanIsFilterThenTake(hits: seq<Hit>, tag: string, n: nat)
    requires TaggedHits(hits, tag).Ok?
    ensures TagScan(hits, tag, n) == Ok(Take(TaggedHits(hits, tag).value, n))
    ensures tag == "" ==> TaggedHits(hits, tag) == Ok(hits)
  {
    if hits != [] {
      var h := hits[0];
      TagScanIsFilterThenTake(hits[1..], tag, n);
      var rest := TaggedHits(hits[1..], tag).value;
      if tag == "" {
        assert hits == [h] + hits[1..];
      }
      if n > 0 && Keep(h, tag) == Ok(true) {
        TagScanIsFilterThenTake(hits[1..], tag, n - 1);
        assert TaggedHits(hits, tag).value == [h] + rest;
        assert Take([h] + rest, n) == [h] + Take(rest, n - 1);
      } else if n > 0 && Keep(h, tag) == Ok(false) {
        assert [] + rest == rest;
      }
    }
  }

  /** Every kept hit comes from the query, carries the tag, and there are at
      most `n` of them. */
  lemma {:induction false} TagScanSound(hits: seq<Hit>, tag: string, n: nat)
    requires TagScan(hits, tag, n).Ok?
    ensures |TagScan(hits, tag, n).value| <= n
    ensures forall h :: h in TagScan(hits, tag, n).value ==>
      h in hits && (tag == "" || HasTag(h.metadata, tag) == Ok(true))
  {
    if hits != [] && n > 0 {
      if Keep(hits[0], tag) == Ok(false) {
        TagScanSound(hits[1..], tag, n);
      } else {
        TagScanSound(hits[1..], tag, n - 1);
      }
    }
  }

  /** One step of the search loop at index `i`, with `kept` collected so far. */
  lemma ScanStep(hits: seq<Hit>, i: nat, tag: string, kept: seq<Hit>, n: nat)
    requires i < |hits| && |kept| < n
    requires TagScan(hits, tag, n) == Prepend(kept, TagScan(hits[i..], tag, n - |kept|))
    ensures Keep(hits[i], tag).Err? ==> TagScan(hits, tag, n) == Err(Keep(hits[i], tag).error)
    ensures Keep(hits[i], tag) == Ok(false) ==>
      TagScan(hits, tag, n) == Prepend(kept, TagScan(hits[i + 1..], tag, n - |kept|))
    ensures Keep(hits[i], tag) == Ok(true) ==>
      TagScan(hits, tag, n) == Prepend(kept + [hits[i]], TagScan(hits[i + 1..], tag, n - |kept| - 1))
  {
    assert hits[i..][1..] == hits[i + 1..];
    if Keep(hits[i], tag) == Ok(true) {
      PrependPrepend(kept, [hits[i]], TagScan(hits[i + 1..], tag, n - |kept| - 1));
    }
  }

  /** `GET /aprendizajes/buscar`: asks for `2 * n` hits, then scans them with
      the tag post-filter and stops at `n`; items and distances are appended
      together, so they stay aligned. */
  method Search(query: Query, text: string, n: nat, category: string, source: string, importance: string, tag: string)
    returns (r: Result<QueryResult, Error>)
    requires |text| >= 1 && 1 <= n <= 100
    ensures var scan := TagScan(query(Key, text, 2 * n, SearchFilter(category, source, importance)), tag, n);
      (scan.Ok? ==> r == Ok(FromHits(scan.value))) && (scan.Err? ==> r == Err(scan.error))
  {
    var hits := query(Key, text, 2 * n, SearchFilter(category, source, importance));
    r := ScanHits(hits, tag, n);
  }

  /** The search loop over the hits: each kept hit's item and distance are
      appended together, and the loop ends once `n` are kept. */
  method ScanHits(hits: seq<Hit>, tag: string, n: nat) returns (r: Result<QueryResult, Error>)
    requires n >= 1
    ensures TagScan(hits, tag, n).Ok? ==> r == Ok(FromHits(TagScan(hits, tag, n).value))
    ensures TagScan(hits, tag, n).Err? ==> r == Err(TagScan(hits, tag, n).error)
  {
    var items: seq<Item> := [];
    var distances: seq<real> := [];
    ghost var kept: seq<Hit> := [];
    var i := 0;
    assert hits[0..] == hits;
    ghost var whole := TagScan(hits, tag, n);
    if whole.Ok? {
      assert kept + whole.value == whole.value;
    }
    while i < |hits|
      invariant 0 <= i <= |hits| && |kept| < n
      invariant QueryResult(items, distances) == FromHits(kept)
      invariant TagScan(hits, tag, n) == Prepend(kept, TagScan(hits[i..], tag, n - |kept|))
    {
      ScanStep(hits, i, tag, kept, n);
      if tag != "" {
        var keep := HasTag(hits[i].metadata, tag);
        if keep.Err? {
          return Err(keep.error);
        }
        if !keep.value {
          i := i + 1;
          continue;
        }
      }
      items := items + [Item(hits[i].id, hits[i].text, hits[i].metadata)];
      distances := distances + [hits[i].distance];
      FromHitsAppend(kept, hits[i]);
      kept := kept + [hits[i]];
      if |items| >= n {
        assert TagScan(hits[i + 1..], tag, 0) == Ok([]);
        assert kept + [] == kept;
        return Ok(QueryResult(items, distances));
      }
      i := i + 1;
    }
    assert hits[i..] == [];
    assert kept + [] == kept;
    r := Ok(QueryResult(items, distances));
  }

  datatype SummaryRequest = SummaryRequest(category: string, tags: seq<string>, importance: string, maxItems: nat)

  /** The summary response; `categories` is the Counter of the items' categories. */
  datatype Summary = Summary(items: seq<Item>, total: nat, categories: seq<(Value, nat)>)

  /** `any(tag in tags_value for tag in tags)`, stopping at the first hit. */
  function AnyTag(metadata: Metadata, tags: seq<string>): Result<bool, Error> {
    if tags == [] then Ok(false)
    else
      match HasTag(metadata, tags[0])
      case Err(e) => Err(e)
      case Ok(true) => Ok(true)
      case Ok(false) => AnyTag(metadata, tags[1..])
  }

  lemma {:induction false} AnyTagMeansSomeTag(metadata: Metadata, tags: seq<string>)
    ensures AnyTag(metadata, tags) == Ok(true) <==>
      exists i :: 0 <= i < |tags| && HasTag(metadata, tags[i]) == Ok(true) &&
        forall j :: 0 <= j < i ==> HasTag(metadata, tags[j]) == Ok(false)
  {
    if tags != [] {
      AnyTagMeansSomeTag(metadata, tags[1..]);
      if HasTag(metadata, tags[0]) == Ok(false) && AnyTag(metadata, tags[1..]) == Ok(true) {
        var i :| 0 <= i < |tags[1..]| && HasTag(metadata, tags[1..][i]) == Ok(true) &&
          forall j :: 0 <= j < i ==> HasTag(metadata, tags[1..][j]) == Ok(false);
        assert HasTag(metadata, tags[i + 1]) == Ok(true);
        assert forall j :: 0 <= j < i + 1 ==> HasTag(metadata, tags[j]) == Ok(false) by {
          forall j | 0 <= j < i + 1 ensures HasTag(metadata, tags[j]) == Ok(false) {
            if j > 0 { assert tags[j] == tags[1..][j - 1]; }
          }
        }
      }
      if exists i :: 0 <= i < |tags| && HasTag(metadata, tags[i]) == Ok(true) &&
          forall j :: 0 <= j < i ==> HasTag(metadata, tags[j]) == Ok(false) {
        var i :| 0 <= i < |tags| && HasTag(metadata, tags[i]) == Ok(true) &&
          forall j :: 0 <= j < i ==> HasTag(metadata, tags[j]) == Ok(false);
        if i > 0 {
          assert HasTag(metadata, tags[1..][i - 1]) == Ok(true);
          assert forall j :: 0 <= j < i - 1 ==> HasTag(metadata, tags[1..][j]) == Ok(false) by {
            forall j | 0 <= j < i - 1 ensures HasTag(metadata, tags[1..][j]) == Ok(false) {
              assert tags[1..][j] == tags[j + 1];
            }
          }
        }
      }
    }
  }

  /** The summary's tag filter (only when tags are requested): the items
      sharing at least one requested tag. */
  function FilterAnyTag(items: seq<Item>, tags: seq<string>): (r: Result<seq<Item>, Error>)
    ensures tags == [] ==> r == Ok(items)
    ensures r.Ok? ==> |r.value| <= |items|
    ensures r.Ok? ==> forall it :: it in r.value <==> it in items && (tags == [] || AnyTag(it.metadata, tags) == Ok(true))
    ensures r.Ok? ==> SubseqOf(r.value, items)
  {
    if tags == [] || items == [] then SubseqRefl(items); Ok(items)
    else
      var init, last := items[..|items| - 1], items[|items| - 1];
      assert items == init + [last];
      match FilterAnyTag(init, tags)
      case Err(e) => Err(e)
      case Ok(kept) =>
        match AnyTag(last.metadata, tags)
        case Err(e) => Err(e)
        case Ok(b) =>
          if b then SubseqKeep(kept, init, last); Ok(kept + [last])
          else SubseqSkip(kept, init, last); Ok(kept)
  }

  /** `importance_order.get(importance, 3)`: high 0, medium 1, low 2, any other
      hashable value 3; a list or dict cannot be looked up. */
  function Rank(importance: Value): Option<nat> {
    match importance
    case Str(s) => Some(if s == "high" then 0 else if s == "medium" then 1 else if s == "low" then 2 else 3)
    case List(_) => None
    case Dict(_) => None
    case _ => Some(3)
  }

  /** The sort key `(importance_order.get(importance, 3), created_at)`, read
      with the defaults "low" and ""; None when the importance is a list or a
      dict, which `dict.get` cannot hash. */
  function PyKey(it: Item): Option<(nat, Value)> {
    var rank := Rank(Get(it.metadata, "importance", Str("low")));
    if rank.None? then None else Some((rank.value, Get(it.metadata, "created_at", Str(""))))
  }

  /** Python `a == b` on two created_at values: numbers (bool included) by
      value, anything else structurally. */
  predicate PyEq(a: Value, b: Value) {
    if AsNumber(a).Some? && AsNumber(b).Some? then AsNumber(a) == AsNumber(b) else a == b
  }

  /** Python `a < b` on two created_at values: numbers with numbers, strings
      with strings; None where Python raises TypeError. */
  function PyLess(a: Value, b: Value): Option<bool> {
    if AsNumber(a).Some? && AsNumber(b).Some? then Some(AsNumber(a).value < AsNumber(b).value)
    else if a.Str? && b.Str? then Some(StrLess(a.s, b.s))
    else None
  }

  /** Python `<` on two key tuples: the first component that differs decides;
      equal tuples are not less. */
  function KeyLess(x: (nat, Value), y: (nat, Value)): Option<bool> {
    if x.0 != y.0 then Some(x.0 < y.0)
    else if PyEq(x.1, y.1) then Some(false)
    else PyLess(x.1, y.1)
  }

  /** The keys of both items can be computed and compared without a TypeError. */
  predicate Comparable(a: Item, b: Item) {
    PyKey(a).Some? && PyKey(b).Some? && KeyLess(PyKey(a).value, PyKey(b).value).Some?
  }

  /** Numbers first, then strings, then every other value. */
  function TypeRank(v: Value): nat {
    if AsNumber(v).Some? then 0 else if v.Str? then 1 else 2
  }

  /** A strict weak order on all created_at values that agrees with `PyLess`
      wherever Python can compare; the values Python cannot order are tied. */
  predicate CreatedBefore(a: Value, b: Value) {
    TypeRank(a) < TypeRank(b) ||
    (AsNumber(a).Some? && AsNumber(b).Some? && AsNumber(a).value < AsNumber(b).value) ||
    (a.Str? && b.Str? && StrLess(a.s, b.s))
  }

  /** The key the model sorts by: `PyKey` with rank 3 for an unhashable importance. */
  function SortKey(it: Item): (nat, Value) {
    var rank := Rank(Get(it.metadata, "importance", Str("low")));
    (if rank.Some? then rank.value else 3, Get(it.metadata, "created_at", Str("")))
  }

  /** Tuple order on the sort keys. */
  predicate KeyLe(a: Item, b: Item) {
    SortKey(a).0 < SortKey(b).0 || (SortKey(a).0 == SortKey(b).0 && !CreatedBefore(SortKey(b).1, SortKey(a).1))
  }

  lemma CreatedBeforeWeak(x: Value, y: Value, z: Value)
    ensures !(CreatedBefore(x, y) && CreatedBefore(y, x))
    ensures CreatedBefore(x, z) ==> CreatedBefore(x, y) || CreatedBefore(y, z)
  {
    if x.Str? && y.Str? { StrLessAsymmetric(x.s, y.s); }
    if x.Str? && y.Str? && z.Str? && StrLess(x.s, z.s) {
      StrLessTotal(x.s, y.s);
      if StrLess(y.s, x.s) { StrLessTransitive(y.s, x.s, z.s); }
    }
  }

  lemma KeyLeIsTotalPreorder()
    ensures TotalPreorder(KeyLe)
  {
    forall a: Item, b: Item ensures KeyLe(a, b) || KeyLe(b, a) {
      CreatedBeforeWeak(SortKey(a).1, SortKey(b).1, SortKey(a).1);
    }
    forall a: Item, b: Item, c: Item | KeyLe(a, b) && KeyLe(b, c) ensures KeyLe(a, c) {
      CreatedBeforeWeak(SortKey(c).1, SortKey(b).1, SortKey(a).1);
    }
  }

  /** Wherever Python can compare two keys, its `key(a) < key(b)` is exactly
      "not KeyLe(b, a)": so on inputs where no comparison raises, the model's
      stable sort by KeyLe and Python's `sorted` order the candidates alike. */
  lemma KeyLeAgrees(a: Item, b: Item)
    requires Comparable(a, b)
    ensures SortKey(a) == PyKey(a).value && SortKey(b) == PyKey(b).value
    ensures KeyLess(PyKey(a).value, PyKey(b).value) == Some(!KeyLe(b, a))
  {
    var x, y := SortKey(a).1, SortKey(b).1;
    if x.Str? && y.Str? { StrLessIrreflexive(x.s); }
  }

  /** A missing importance sorts as "low"; high before medium before low before
      anything else. */
  lemma RankOrder(it: Item)
    ensures "importance" !in it.metadata ==> SortKey(it).0 == 2
    ensures Rank(Str("high")) == Some(0) && Rank(Str("medium")) == Some(1) && Rank(Str("low")) == Some(2)
    ensures forall v :: v !in {Str("high"), Str("medium"), Str("low")} && Rank(v).Some? ==> Rank(v) == Some(3)
  {
  }

  /** The summary's category counter input: `.get("category", "general")`. */
  function Categories(items: seq<Item>): (r: seq<Value>)
    ensures |r| == |items|
    ensures forall i :: 0 <= i < |items| ==> r[i] == Get(items[i].metadata, "category", Str("general"))
  {
    seq(|items|, i requires 0 <= i < |items| => Get(items[i].metadata, "category", Str("general")))
  }

  /** A value a Counter can use as a key. */
  predicate Hashable(v: Value) {
    !v.List? && !v.Dict?
  }

  /** The summary line can be printed: the category (default "general") and
      the importance (default "medium") are strings, so `.upper()` exists. */
  predicate Labelled(it: Item) {
    Get(it.metadata, "category", Str("general")).Str? && Get(it.metadata, "importance", Str("medium")).Str?
  }

  /** The items the summary draws from: the equality filters, then the tag filter. */
  function SummaryCandidates(all: seq<Item>, req: SummaryRequest): Result<seq<Item>, Error> {
    FilterAnyTag(FilterEqs(all, [("category", req.category), ("importance", req.importance)]), req.tags)
  }

  /** Some two candidates' keys cannot be computed or compared: `sorted` raises. */
  predicate SortRaises(candidates: seq<Item>) {
    exists a, b :: a in candidates && b in candidates && !Comparable(a, b)
  }

  /** Some category cannot be a Counter key. */
  predicate Unhashable(categories: seq<Value>) {
    exists c :: c in categories && !Hashable(c)
  }

  /** Some kept item cannot be printed in the summary text. */
  predicate Unprintable(items: seq<Item>) {
    exists it :: it in items && !Labelled(it)
  }

  /** The first `max` candidates in the sort order. */
  function Top(candidates: seq<Item>, max: nat): seq<Item> {
    Take(SortBy(candidates, KeyLe), max)
  }

  /** `summarize_learnings` over the listed items. Computing the keys or
      comparing two of them may raise; so may the Counter of categories and the
      `.upper()` calls of the summary text. */
  function Summarize(all: seq<Item>, req: SummaryRequest): Result<Summary, Error> {
    match SummaryCandidates(all, req)
    case Err(e) => Err(e)
    case Ok(candidates) =>
      if SortRaises(candidates) then Err(StoreFailure("TypeError: sort keys not comparable"))
      else
        var items := Top(candidates, req.maxItems);
        if Unhashable(Categories(items)) then Err(StoreFailure("TypeError: unhashable type"))
        else if Unprintable(items) then Err(StoreFailure("AttributeError: no attribute 'upper'"))
        else Ok(Summary(items, |items|, Counter(Categories(items))))
  }

  /** A category that cannot be hashed cannot be upper-cased either. */
  lemma UnhashableUnprintable(items: seq<Item>)
    requires Unhashable(Categories(items))
    ensures Unprintable(items)
  {
    var categories := Categories(items);
    var v :| v in categories && !Hashable(v);
    var i :| 0 <= i < |categories| && categories[i] == v;
    assert items[i] in items && !Labelled(items[i]);
  }

  /** Once the candidates are filtered, the summary fails exactly when two of
      the candidates' keys cannot be compared, or when a kept item's category
      or importance is not a string. */
  lemma SummarizeErrors(all: seq<Item>, req: SummaryRequest)
    requires SummaryCandidates(all, req).Ok?
    ensures var c := SummaryCandidates(all, req).value;
      Summarize(all, req).Err? <==> SortRaises(c) || Unprintable(Top(c, req.maxItems))
  {
    var c := SummaryCandidates(all, req).value;
    if Unhashable(Categories(Top(c, req.maxItems))) {
      UnhashableUnprintable(Top(c, req.maxItems));
    }
  }

  /** A kept item whose category or importance is not a string (a number, say)
      makes the summary fail. */
  lemma UnlabelledFails(all: seq<Item>, req: SummaryRequest, it: Item)
    requires SummaryCandidates(all, req).Ok?
    requires it in Top(SummaryCandidates(all, req).value, req.maxItems) && !Labelled(it)
    ensures Summarize(all, req).Err?
  {
    SummarizeErrors(all, req);
  }

  /** Keys whose created_at values are all numbers compare without raising,
      whichever pairs the sort happens to compare. */
  lemma NumbersNeverRaise(candidates: seq<Item>)
    requires forall it :: it in candidates ==>
      PyKey(it).Some? && AsNumber(Get(it.metadata, "created_at", Str(""))).Some?
    ensures !SortRaises(candidates)
  {
  }

  /** A single candidate with a hashable importance sorts without raising,
      whatever its created_at holds. */
  lemma SingleNeverRaises(it: Item)
    requires PyKey(it).Some?
    ensures !SortRaises([it])
  {
    assert forall a, b :: a in [it] && b in [it] ==> a == it && b == it;
  }

  /** The first `max` of the candidates sorted by rank: as many as there are
      (up to `max`), in rank order, drawn from the candidates, and none of the
      candidates left out ranks strictly before one kept. */
  lemma {:induction false} TopByRank(candidates: seq<Item>, max: nat)
    ensures var items := Take(SortBy(candidates, KeyLe), max);
      |items| == Min(max, |candidates|) &&
      SortedBy(items, KeyLe) &&
      multiset(items) <= multiset(candidates) &&
      forall y, x :: y in items && x in candidates && x !in items ==> KeyLe(y, x)
  {
    KeyLeIsTotalPreorder();
    SortByCorrect(candidates, KeyLe);
    SortedPrefix(candidates, Min(max, |candidates|), KeyLe);
  }

  /** Every candidate of the summary is a listed item passing the category and
      importance filters and, when tags are given, carrying one of them. */
  lemma CandidatesFiltered(all: seq<Item>, req: SummaryRequest, it: Item)
    requires SummaryCandidates(all, req).Ok? && it in SummaryCandidates(all, req).value
    ensures it in all && MatchesEq(it, "category", req.category) && MatchesEq(it, "importance", req.importance)
    ensures req.tags == [] || AnyTag(it.metadata, req.tags) == Ok(true)
  {
    var fs := [("category", req.category), ("importance", req.importance)];
    assert it in FilterEqs(all, fs);
    assert MatchesEq(it, fs[0].0, fs[0].1) && MatchesEq(it, fs[1].0, fs[1].1);
  }

  /** The summary holds the `max_items` best-ranked candidates, in rank order
      (ties by created_at), each passing the filters; its total is its length
      and its category counts sum to the total, one entry per category with
      that category's number of items. */
  lemma {:induction false} SummarizeCorrect(all: seq<Item>, req: SummaryRequest)
    requires Summarize(all, req).Ok?
    ensures var s := Summarize(all, req).value;
      var candidates := SummaryCandidates(all, req).value;
      |s.items| == Min(req.maxItems, |candidates|) && s.total == |s.items| &&
      SortedBy(s.items, KeyLe) &&
      multiset(s.items) <= multiset(candidates) &&
      forall y, x :: y in s.items && x in candidates && x !in s.items ==> KeyLe(y, x)
    ensures var s := Summarize(all, req).value;
      forall it :: it in s.items ==> (it in all && MatchesEq(it, "category", req.category) &&
        MatchesEq(it, "importance", req.importance) && (req.tags == [] || AnyTag(it.metadata, req.tags) == Ok(true)))
    ensures var s := Summarize(all, req).value;
      Sum(s.categories) == s.total && DistinctKeys(s.categories) &&
      forall c :: Lookup(s.categories, c) == Count(Categories(s.items), c)
  {
    var candidates := SummaryCandidates(all, req).value;
    var items := Top(candidates, req.maxItems);
    assert !SortRaises(candidates);
    assert Summarize(all, req).value == Summary(items, |items|, Counter(Categories(items)));
    var s := Summarize(all, req).value;
    TopByRank(candidates, req.maxItems);
    forall it | it in s.items
      ensures it in all && MatchesEq(it, "category", req.category) &&
        MatchesEq(it, "importance", req.importance) && (req.tags == [] || AnyTag(it.metadata, req.tags) == Ok(true))
    {
      assert it in multiset(s.items);
      CandidatesFiltered(all, req, it);
    }
    CounterCorrect(Categories(s.items));
  }

  /** Candidates whose sort does not raise compare in Python exactly as KeyLe
      orders them. */
  lemma SortAgrees(candidates: seq<Item>)
    requires !SortRaises(candidates)
    ensures forall a, b :: a in candidates && b in candidates ==>
      Comparable(a, b) && KeyLess(PyKey(a).value, PyKey(b).value) == Some(!KeyLe(b, a))
  {
    forall a, b | a in candidates && b in candidates
      ensures Comparable(a, b) && KeyLess(PyKey(a).value, PyKey(b).value) == Some(!KeyLe(b, a))
    {
      KeyLeAgrees(a, b);
    }
  }

  /** Printable items have string categories, so their category counts are
      keyed by strings. */
  lemma LabelledKeys(items: seq<Item>)
    requires !Unprintable(items)
    ensures forall it :: it in items ==> Labelled(it)
    ensures forall k :: k in Keys(Counter(Categories(items))) ==> k.Str?
  {
    var categories := Categories(items);
    CounterCorrect(categories);
    forall k | k in Keys(Counter(categories)) ensures k.Str? {
      var i :| 0 <= i < |categories| && categories[i] == k;
      assert items[i] in items;
    }
  }

  /** A summary that succeeds sorted candidates whose keys Python compares
      without raising and exactly as KeyLe orders them; every kept item has a
      string category and importance, so the category counts are keyed by
      strings. */
  lemma SummaryAsPython(all: seq<Item>, req: SummaryRequest)
    requires Summarize(all, req).Ok?
    ensures var c := SummaryCandidates(all, req).value;
      forall a, b :: a in c && b in c ==>
        Comparable(a, b) && KeyLess(PyKey(a).value, PyKey(b).value) == Some(!KeyLe(b, a))
    ensures var s := Summarize(all, req).value;
      (forall it :: it in s.items ==> Labelled(it)) && forall k :: k in Keys(s.categories) ==> k.Str?
  {
    var c := SummaryCandidates(all, req).value;
    var items := Top(c, req.maxItems);
    assert !SortRaises(c) && !Unprintable(items);
    assert Summarize(all, req).value == Summary(items, |items|, Counter(Categories(items)));
    SortAgrees(c);
    LabelledKeys(items);
  }

  /** `POST /aprendizajes/resumir`: the summary of the first 100 stored items. */
  method SummarizeLearnings(store: VectorStore, req: SummaryRequest) returns (r: Result<Summary, Error>)
    requires store.Valid() && 1 <= req.maxItems <= 50
    ensures r == Summarize(Take(store.collections[Key], DefaultLimit), req)
  {
    var all := store.ListItems(Key, DefaultLimit, 0);
    ListAllSeesFirst100(store.collections[Key]);
    r := Summarize(all.value, req);
  }

  method GetLearning(store: VectorStore, id: string) returns (r: Result<Item, Error>)
    requires store.Valid()
    ensures r == Crud.GetResult(store.collections[Key], id)
  {
    r := Crud.Get(store, Key, id);
  }

  method Update(store: VectorStore, id: string, text: Option<string>, changes: Option<Metadata>, now: string)
    returns (r: Result<Item, Error>)
    requires store.Valid()
    modifies store
    ensures store.Valid()
    ensures Crud.Updated(old(store.collections), store.collections, Key, id, text, changes, now, r)
  {
    r := Crud.Update(store, Key, id, text, changes, now);
  }

  method Delete(store: VectorStore, id: string) returns (r: Result<(), Error>)
    requires store.Valid()
    modifies store
    ensures store.Valid()
    ensures Crud.Deleted(old(store.collections), store.collections, Key, id, r)
  {
    r := Crud.Delete(store, Key, id);
  }
}
