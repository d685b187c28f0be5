/** The priority reviewer. A review walks the analysable modules, pairs up
    near-duplicate items (each pair of positions i < j once, by the similarity
    of their texts) and scores each item's relevance from its text length or
    its priority record; `adjust` writes a priority record keyed by the item's
    id and module; the listing filters and pages the records. Every lookup of
    a priority record sees only the first 100 records the store lists. */
module Priorities {
  import opened Wrappers
  import opened Values
  import opened Database
  import opened Listing
  import Crud

  const Key: string := "priorities"

  /** The levels `adjust` accepts. */
  const Levels: seq<string> := ["high", "medium", "low"]

  /** A duplicate pair above this similarity is to be merged. */
  const MergeThreshold: real := 0.95
  /** An item scoring below this is reported. */
  const ReportThreshold: real := 0.3
  /** A reported, never-used item scoring below this is to be archived. */
  const ArchiveThreshold: real := 0.2

  /** The modules a request covers: the one it names, or all of them. */
  function Modules(moduleKey: string): (r: seq<string>)
    ensures (forall m :: m in r ==> m in AnalyzableModules) <==> moduleKey == "" || moduleKey in AnalyzableModules
    ensures moduleKey != "" ==> moduleKey in r
  {
    if moduleKey != "" then [moduleKey] else AnalyzableModules
  }

  /** The store holds every collection the reviewer reads. */
  predicate Shaped(cols: map<string, seq<Item>>) {
    Key in cols && forall m :: m in AnalyzableModules ==> m in cols
  }

  // ---------------------------------------------------------------------
  // Priority records

  /** `p["metadata"].get("item_id") == item_id and p["metadata"].get("module") == module` */
  predicate RecordFor(p: Item, itemId: string, m: string) {
    HasStr(p.metadata, "item_id", itemId) && HasStr(p.metadata, "module", m)
  }

  /** `next((p for p in records if ...), None)`: the first record of the item. */
  function FirstRecord(records: seq<Item>, itemId: string, m: string): Option<Item> {
    if records == [] then None
    else if RecordFor(records[0], itemId, m) then Some(records[0])
    else FirstRecord(records[1..], itemId, m)
  }

  /** The lookup finds nothing exactly when no record is the item's, and
      otherwise the first record that is. */
  lemma {:induction false} FirstRecordFacts(records: seq<Item>, itemId: string, m: string)
    ensures FirstRecord(records, itemId, m).None? <==> forall p :: p in records ==> !RecordFor(p, itemId, m)
    ensures FirstRecord(records, itemId, m).Some? ==> exists k :: (0 <= k < |records| &&
      records[k] == FirstRecord(records, itemId, m).value && RecordFor(records[k], itemId, m) &&
      forall j :: 0 <= j < k ==> !RecordFor(records[j], itemId, m))
  {
    if records != [] && !RecordFor(records[0], itemId, m) {
      FirstRecordFacts(records[1..], itemId, m);
      assert forall j :: 1 <= j < |records| ==> records[j] == records[1..][j - 1];
      assert forall p :: p in records ==> p == records[0] || p in records[1..];
      var r := FirstRecord(records, itemId, m);
      if r.Some? {
        var k :| 0 <= k < |records[1..]| && records[1..][k] == r.value && RecordFor(records[1..][k], itemId, m) &&
          forall j :: 0 <= j < k ==> !RecordFor(records[1..][j], itemId, m);
        assert records[k + 1] == r.value;
      }
    }
  }

  /** The record a lookup finds: the first one for the item among the first
      100 stored records. */
  function RecordOf(prios: seq<Item>, itemId: string, m: string): Option<Item> {
    FirstRecord(Take(prios, DefaultLimit), itemId, m)
  }

  /** Replacing a record by one that agrees with it on whether it belongs to
      the item leaves the lookup pointing at the same position. */
  lemma {:induction false} FirstRecordReplaced(records: seq<Item>, id: string, x: Item, itemId: string, m: string)
    requires forall k :: 0 <= k < |records| && records[k].id == id ==> (RecordFor(records[k], itemId, m) <==> RecordFor(x, itemId, m))
    ensures FirstRecord(Replaced(records, id, x), itemId, m) ==
      match FirstRecord(records, itemId, m)
      case None => None
      case Some(q) => if q.id == id then Some(x) else Some(q)
  {
    if records != [] {
      var tail := Replaced(records[1..], id, x);
      var head := if records[0].id == id then x else records[0];
      assert Replaced(records, id, x) == [head] + tail;
      assert ([head] + tail)[1..] == tail;
      forall k | 0 <= k < |records[1..]| && records[1..][k].id == id
        ensures RecordFor(records[1..][k], itemId, m) <==> RecordFor(x, itemId, m)
      {
        assert records[1..][k] == records[k + 1];
      }
      FirstRecordReplaced(records[1..], id, x, itemId, m);
    }
  }

  lemma TakeReplaced(s: seq<Item>, n: nat, id: string, x: Item)
    ensures Take(Replaced(s, id, x), n) == Replaced(Take(s, n), id, x)
  {
    ReplacedShape(s, id, x);
    ReplacedShape(Take(s, n), id, x);
  }

  /** Rewriting a found record in place, keeping its id, item id and module,
      makes the lookup find the rewritten record; a lookup for another item
      (with distinct record ids) finds what it found before. */
  lemma RecordOfReplaced(prios: seq<Item>, itemId: string, m: string, x: Item, otherId: string, otherModule: string)
    requires UniqueIds(prios)
    requires RecordOf(prios, itemId, m).Some? && x.id == RecordOf(prios, itemId, m).value.id && RecordFor(x, itemId, m)
    ensures RecordOf(Replaced(prios, x.id, x), itemId, m) == Some(x)
    ensures (otherId, otherModule) != (itemId, m) ==>
      RecordOf(Replaced(prios, x.id, x), otherId, otherModule) == RecordOf(prios, otherId, otherModule)
  {
    var w := Take(prios, DefaultLimit);
    var p := RecordOf(prios, itemId, m).value;
    FirstRecordFacts(w, itemId, m);
    FirstRecordFacts(w, otherId, otherModule);
    TakeReplaced(prios, DefaultLimit, x.id, x);
    forall k | 0 <= k < |w| && w[k].id == x.id ensures w[k] == p {
      var i :| 0 <= i < |w| && w[i] == p;
      assert w[i] == prios[i] && w[k] == prios[k];
    }
    FirstRecordReplaced(w, x.id, x, itemId, m);
    if (otherId, otherModule) != (itemId, m) {
      forall k | 0 <= k < |w| && w[k].id == x.id
        ensures RecordFor(w[k], otherId, otherModule) <==> RecordFor(x, otherId, otherModule)
      {
        assert !RecordFor(p, otherId, otherModule);
      }
      FirstRecordReplaced(w, x.id, x, otherId, otherModule);
      var q := RecordOf(prios, otherId, otherModule);
      if q.Some? {
        assert q.value != p;
        var i :| 0 <= i < |w| && w[i] == q.value;
        var k :| 0 <= k < |w| && w[k] == p;
        assert w[i] == prios[i] && w[k] == prios[k];
      }
    }
  }

  /** A record added once 100 records are stored is never seen by a lookup. */
  lemma AddedBeyondWindow(prios: seq<Item>, x: Item, itemId: string, m: string)
    requires |prios| >= DefaultLimit
    ensures RecordOf(Added(prios, x), itemId, m) == RecordOf(prios, itemId, m)
  {
    assert Take(Added(prios, x), DefaultLimit) == Take(prios, DefaultLimit);
  }

  /** A record with a fresh id added while fewer than 100 are stored, for an
      item that had none, is what the next lookup finds. */
  lemma AddedWithinWindow(prios: seq<Item>, x: Item, itemId: string, m: string)
    requires |prios| < DefaultLimit && !HasId(prios, x.id)
    requires RecordOf(prios, itemId, m).None? && RecordFor(x, itemId, m)
    ensures RecordOf(Added(prios, x), itemId, m) == Some(x)
  {
    var w := Take(prios + [x], DefaultLimit);
    assert w == prios + [x];
    assert Take(prios, DefaultLimit) == prios;
    FirstRecordFacts(prios, itemId, m);
    FirstRecordFacts(w, itemId, m);
    assert forall j :: 0 <= j < |prios| ==> w[j] in prios;
  }

  // ---------------------------------------------------------------------
  // Review: duplicate pairs

  datatype ReviewRequest = ReviewRequest(moduleKey: string, minSimilarity: real, maxItems: nat,
                                         includeLowRelevance: bool, includeDuplicates: bool)

  /** An item as a review reports it: id, shortened text and module. */
  datatype Ref = Ref(id: string, text: string, moduleKey: string)

  datatype DuplicatePair = DuplicatePair(item1: Ref, item2: Ref, similarity: real, suggestedAction: string)

  datatype LowRelevance = LowRelevance(id: string, text: string, moduleKey: string, relevanceScore: real,
                                       usageCount: Value, suggestedAction: string)

  /** A suggested action; its `reason` text is display only. */
  datatype Action =
    | MergeDuplicates(first: string, second: string, moduleKey: string, similarity: real)
    | ArchiveItem(itemId: string, moduleKey: string, relevanceScore: real)

  datatype Review = Review(totalReviewed: nat, duplicates: seq<DuplicatePair>, lowRelevance: seq<LowRelevance>,
                           actions: seq<Action>)

  /** The texts at positions i and j are similar enough to be reported. */
  predicate Close(items: seq<Item>, sim: Similarity, min: real, i: nat, j: nat)
    requires i < |items| && j < |items|
  {
    sim(items[i].text, items[j].text) >= min
  }

  /** `p` comes before `q` in the order of the i, j loops. */
  predicate Before(p: (nat, nat), q: (nat, nat)) {
    p.0 < q.0 || (p.0 == q.0 && p.1 < q.1)
  }

  /** The pairs (i, j) with i < j < k whose texts are close, by j. */
  function Row(items: seq<Item>, sim: Similarity, min: real, i: nat, k: nat): seq<(nat, nat)>
    requires i < |items| && k <= |items|
  {
    if k == 0 then []
    else
      var rest := Row(items, sim, min, i, k - 1);
      if i < k - 1 && Close(items, sim, min, i, k - 1) then rest + [(i, k - 1)] else rest
  }

  /** Every pair is of positions of `items`. */
  predicate Within(items: seq<Item>, ps: seq<(nat, nat)>) {
    forall k :: 0 <= k < |ps| ==> ps[k].0 < |items| && ps[k].1 < |items|
  }

  /** A row holds close pairs (i, j) with i < j < k, by increasing j. */
  lemma {:induction false} RowFacts(items: seq<Item>, sim: Similarity, min: real, i: nat, k: nat)
    requires i < |items| && k <= |items|
    ensures forall a :: 0 <= a < |Row(items, sim, min, i, k)| ==>
      Row(items, sim, min, i, k)[a].0 == i && i < Row(items, sim, min, i, k)[a].1 < k &&
      Close(items, sim, min, i, Row(items, sim, min, i, k)[a].1)
    ensures forall a, b :: 0 <= a < b < |Row(items, sim, min, i, k)| ==>
      Row(items, sim, min, i, k)[a].1 < Row(items, sim, min, i, k)[b].1
  {
    if k > 0 {
      var j: nat := k - 1;
      RowFacts(items, sim, min, i, j);
    }
  }

  /** The close pairs whose first position is below `i`, row by row. */
  function PairsBefore(items: seq<Item>, sim: Similarity, min: real, i: nat): (r: seq<(nat, nat)>)
    requires i <= |items|
    ensures Within(items, r)
  {
    if i == 0 then []
    else
      RowFacts(items, sim, min, i - 1, |items|);
      PairsBefore(items, sim, min, i - 1) + Row(items, sim, min, i - 1, |items|)
  }

  /** Every listed pair is a close pair i < j with i below the bound. */
  lemma {:induction false} PairsFacts(items: seq<Item>, sim: Similarity, min: real, i: nat)
    requires i <= |items|
    ensures forall a :: 0 <= a < |PairsBefore(items, sim, min, i)| ==>
      PairsBefore(items, sim, min, i)[a].0 < i &&
      PairsBefore(items, sim, min, i)[a].0 < PairsBefore(items, sim, min, i)[a].1 < |items| &&
      Close(items, sim, min, PairsBefore(items, sim, min, i)[a].0, PairsBefore(items, sim, min, i)[a].1)
  {
    if i > 0 {
      var j: nat := i - 1;
      PairsFacts(items, sim, min, j);
      RowFacts(items, sim, min, j, |items|);
      var rest, row := PairsBefore(items, sim, min, j), Row(items, sim, min, j, |items|);
      assert PairsBefore(items, sim, min, i) == rest + row;
    }
  }

  /** Every close pair (i, j) with j < k is in the row. */
  lemma {:induction false} RowComplete(items: seq<Item>, sim: Similarity, min: real, i: nat, k: nat, j: nat)
    requires i < j < k <= |items| && Close(items, sim, min, i, j)
    ensures (i, j) in Row(items, sim, min, i, k)
  {
    if j < k - 1 {
      RowComplete(items, sim, min, i, k - 1, j);
    }
  }

  /** Every close pair whose first position is below `i` is listed. */
  lemma {:induction false} PairsComplete(items: seq<Item>, sim: Similarity, min: real, i: nat, p: (nat, nat))
    requires i <= |items| && p.0 < i && p.0 < p.1 < |items| && Close(items, sim, min, p.0, p.1)
    ensures p in PairsBefore(items, sim, min, i)
  {
    var j: nat := i - 1;
    var rest, row := PairsBefore(items, sim, min, j), Row(items, sim, min, j, |items|);
    assert PairsBefore(items, sim, min, i) == rest + row;
    if p.0 == j {
      RowComplete(items, sim, min, j, |items|, p.1);
      assert p in rest + row;
    } else {
      PairsComplete(items, sim, min, j, p);
      assert p in rest + row;
    }
  }

  /** The pairs are in strictly increasing loop order. */
  predicate Ordered(ps: seq<(nat, nat)>) {
    forall a, b :: 0 <= a < b < |ps| ==> Before(ps[a], ps[b])
  }

  /** A sorted run of pairs followed by a row of a later first position,
      itself sorted by second position, is sorted. */
  lemma AppendRow(rest: seq<(nat, nat)>, row: seq<(nat, nat)>, i: nat)
    requires Ordered(rest)
    requires forall a :: 0 <= a < |rest| ==> rest[a].0 < i
    requires forall a :: 0 <= a < |row| ==> row[a].0 == i
    requires forall a, b :: 0 <= a < b < |row| ==> row[a].1 < row[b].1
    ensures Ordered(rest + row)
  {
    var r := rest + row;
    forall a, b | 0 <= a < b < |r| ensures Before(r[a], r[b]) {
      if b < |rest| {
        assert r[a] == rest[a] && r[b] == rest[b];
      } else if a < |rest| {
        assert r[a] == rest[a] && r[b] == row[b - |rest|];
      } else {
        assert r[a] == row[a - |rest|] && r[b] == row[b - |rest|];
      }
    }
  }

  /** The pairs come in loop order, so none comes twice. */
  lemma {:induction false} PairsOrdered(items: seq<Item>, sim: Similarity, min: real, i: nat)
    requires i <= |items|
    ensures Ordered(PairsBefore(items, sim, min, i))
  {
    if i > 0 {
      var j: nat := i - 1;
      PairsOrdered(items, sim, min, j);
      PairsFacts(items, sim, min, j);
      RowFacts(items, sim, min, j, |items|);
      AppendRow(PairsBefore(items, sim, min, j), Row(items, sim, min, j, |items|), j);
    }
  }

  lemma NoPairsBelowTwo(items: seq<Item>, sim: Similarity, min: real)
    requires |items| <= 1
    ensures PairsBefore(items, sim, min, |items|) == []
  {
    if |items| == 1 {
      assert PairsBefore(items, sim, min, 1) == PairsBefore(items, sim, min, 0) + Row(items, sim, min, 0, 1);
    }
  }

  /** The report of the pair at positions `p`. */
  function Pair(items: seq<Item>, m: string, sim: Similarity, p: (nat, nat)): DuplicatePair
    requires p.0 < |items| && p.1 < |items|
  {
    var s := sim(items[p.0].text, items[p.1].text);
    DuplicatePair(Ref(items[p.0].id, Shorten(items[p.0].text), m), Ref(items[p.1].id, Shorten(items[p.1].text), m),
                  s, if s > MergeThreshold then "merge" else "review")
  }

  /** The reports of the pairs at positions `ps`, in order. */
  function Described(items: seq<Item>, m: string, sim: Similarity, ps: seq<(nat, nat)>): seq<DuplicatePair>
    requires Within(items, ps)
  {
    if ps == [] then []
    else Described(items, m, sim, ps[..|ps| - 1]) + [Pair(items, m, sim, ps[|ps| - 1])]
  }

  lemma {:induction false} DescribedFacts(items: seq<Item>, m: string, sim: Similarity, ps: seq<(nat, nat)>)
    requires Within(items, ps)
    ensures |Described(items, m, sim, ps)| == |ps|
    ensures forall k :: 0 <= k < |ps| ==> Described(items, m, sim, ps)[k] == Pair(items, m, sim, ps[k])
  {
    if ps != [] {
      var init := ps[..|ps| - 1];
      DescribedFacts(items, m, sim, init);
      var r, head := Described(items, m, sim, ps), Described(items, m, sim, init);
      assert r == head + [Pair(items, m, sim, ps[|ps| - 1])];
      forall k | 0 <= k < |ps| ensures r[k] == Pair(items, m, sim, ps[k]) {
        if k < |init| {
          assert r[k] == head[k] && init[k] == ps[k];
        }
      }
    }
  }

  /** The duplicate pairs of one module's items, in the order of the i, j loops. */
  function Duplicates(items: seq<Item>, m: string, sim: Similarity, min: real): seq<DuplicatePair> {
    Described(items, m, sim, PairsBefore(items, sim, min, |items|))
  }

  /** Every reported pair is two positions i < j of the module's items whose
      similarity reaches the threshold, to be merged exactly when it exceeds
      0.95. */
  lemma DuplicatesSound(items: seq<Item>, m: string, sim: Similarity, min: real, d: DuplicatePair)
    requires d in Duplicates(items, m, sim, min)
    ensures exists i, j :: 0 <= i < j < |items| && d == Pair(items, m, sim, (i, j)) && Close(items, sim, min, i, j)
    ensures d.item1.moduleKey == m && d.item2.moduleKey == m && d.similarity >= min
    ensures d.suggestedAction == "merge" <==> d.similarity > MergeThreshold
  {
    var ps := PairsBefore(items, sim, min, |items|);
    var ds := Duplicates(items, m, sim, min);
    PairsFacts(items, sim, min, |items|);
    DescribedFacts(items, m, sim, ps);
    var k :| 0 <= k < |ds| && ds[k] == d;
    assert d == Pair(items, m, sim, (ps[k].0, ps[k].1));
  }

  /** Every pair of positions i < j whose similarity reaches the threshold is reported. */
  lemma DuplicatesComplete(items: seq<Item>, m: string, sim: Similarity, min: real, i: nat, j: nat)
    requires i < j < |items| && Close(items, sim, min, i, j)
    ensures Pair(items, m, sim, (i, j)) in Duplicates(items, m, sim, min)
  {
    var ps := PairsBefore(items, sim, min, |items|);
    PairsComplete(items, sim, min, |items|, (i, j));
    DescribedFacts(items, m, sim, ps);
    var k :| 0 <= k < |ps| && ps[k] == (i, j);
    assert Duplicates(items, m, sim, min)[k] == Pair(items, m, sim, (i, j));
  }

  /** With distinct ids no item is paired with itself and no two reports are
      of the same two items. */
  lemma DuplicatesDistinct(items: seq<Item>, m: string, sim: Similarity, min: real)
    requires UniqueIds(items)
    ensures var ds := Duplicates(items, m, sim, min);
      (forall d :: d in ds ==> d.item1.id != d.item2.id) &&
      forall a, b :: 0 <= a < b < |ds| ==> (ds[a].item1.id, ds[a].item2.id) != (ds[b].item1.id, ds[b].item2.id)
  {
    var ps := PairsBefore(items, sim, min, |items|);
    var ds := Duplicates(items, m, sim, min);
    PairsOrdered(items, sim, min, |items|);
    PairsFacts(items, sim, min, |items|);
    DescribedFacts(items, m, sim, ps);
    forall d | d in ds ensures d.item1.id != d.item2.id {
      var k :| 0 <= k < |ds| && ds[k] == d;
      assert d.item1.id == items[ps[k].0].id && d.item2.id == items[ps[k].1].id;
    }
    forall a, b | 0 <= a < b < |ds| ensures (ds[a].item1.id, ds[a].item2.id) != (ds[b].item1.id, ds[b].item2.id) {
      var pa, pb := ps[a], ps[b];
      assert ds[a].item1.id == items[pa.0].id && ds[a].item2.id == items[pa.1].id;
      assert ds[b].item1.id == items[pb.0].id && ds[b].item2.id == items[pb.1].id;
      assert Before(pa, pb);
    }
  }

  function MergeAction(d: DuplicatePair): Action {
    MergeDuplicates(d.item1.id, d.item2.id, d.item1.moduleKey, d.similarity)
  }

  /** The merge actions of the pairs above the merge threshold, in pair order. */
  function Merges(ds: seq<DuplicatePair>): seq<Action> {
    if ds == [] then []
    else Merges(ds[..|ds| - 1]) + (if ds[|ds| - 1].similarity > MergeThreshold then [MergeAction(ds[|ds| - 1])] else [])
  }

  /** Exactly the pairs above the merge threshold raise merge actions. */
  lemma {:induction false} MergesMembers(ds: seq<DuplicatePair>, a: Action)
    ensures a in Merges(ds) <==> exists d :: d in ds && d.similarity > MergeThreshold && a == MergeAction(d)
  {
    if ds != [] {
      var init, last := ds[..|ds| - 1], ds[|ds| - 1];
      assert ds == init + [last];
      MergesMembers(init, a);
    }
  }

  // ---------------------------------------------------------------------
  // Review: relevance

  /** `min(1.0, len(text) / 1000)` */
  function Baseline(text: string): real {
    var x := (|text| as real) / 1000.0;
    if 1.0 <= x then 1.0 else x
  }

  /** An item's relevance score and usage count. */
  datatype Score = Score(relevance: real, usage: Value)

  /** The score of an item: the baseline and no use without a record;
      with one, its stored score (the baseline when absent) and its usage
      count, the score cut to 80% when the item was never used. A stored
      score that is not a number makes the scaling or the comparison raise. */
  function ScoreOf(it: Item, record: Option<Item>): (r: Result<Score, Error>)
    ensures record.None? ==> r == Ok(Score(Baseline(it.text), Num(0.0)))
    ensures record.Some? ==>
      var stored := Get(record.value.metadata, "relevance_score", Num(Baseline(it.text)));
      var usage := Get(record.value.metadata, "usage_count", Num(0.0));
      (r.Err? <==> AsNumber(stored).None?) &&
      (r.Err? ==> r.error.StoreFailure?) &&
      (r.Ok? ==> r.value.usage == usage &&
                 r.value.relevance == if EqualsNumber(usage, 0.0) then AsNumber(stored).value * 0.8
                                      else AsNumber(stored).value)
  {
    var base := Baseline(it.text);
    match record
    case None => Ok(Score(base, Num(0.0)))
    case Some(p) =>
      var usage := Get(p.metadata, "usage_count", Num(0.0));
      match AsNumber(Get(p.metadata, "relevance_score", Num(base)))
      case None => Err(StoreFailure("TypeError: relevance_score is not a number"))
      case Some(n) => Ok(Score(if EqualsNumber(usage, 0.0) then n * 0.8 else n, usage))
  }

  predicate Archivable(s: Score) {
    s.relevance < ArchiveThreshold && EqualsNumber(s.usage, 0.0)
  }

  /** The report of an item scoring below 0.3: archive when below 0.2 and
      never used, review otherwise. */
  function LowEntry(it: Item, m: string, s: Score): seq<LowRelevance> {
    if s.relevance < ReportThreshold then
      [LowRelevance(it.id, Shorten(it.text), m, s.relevance, s.usage, if Archivable(s) then "archive" else "review")]
    else []
  }

  function ScoreIn(records: seq<Item>, m: string, it: Item): Result<Score, Error> {
    ScoreOf(it, FirstRecord(records, it.id, m))
  }

  /** The low-relevance reports of a module's items, in item order; the first
      score that raises aborts the review. */
  function Lows(items: seq<Item>, records: seq<Item>, m: string): (r: Result<seq<LowRelevance>, Error>)
    ensures r.Err? ==> r.error.StoreFailure?
  {
    if items == [] then Ok([])
    else
      var init, last := items[..|items| - 1], items[|items| - 1];
      match Lows(init, records, m)
      case Err(e) => Err(e)
      case Ok(ls) =>
        match ScoreIn(records, m, last)
        case Err(e) => Err(e)
        case Ok(s) => Ok(ls + LowEntry(last, m, s))
  }

  /** The reports are those of the items scoring below 0.3. */
  lemma {:induction false} LowsMembers(items: seq<Item>, records: seq<Item>, m: string, l: LowRelevance)
    requires Lows(items, records, m).Ok?
    ensures l in Lows(items, records, m).value <==>
      exists i :: (0 <= i < |items| && ScoreIn(records, m, items[i]).Ok? &&
        l in LowEntry(items[i], m, ScoreIn(records, m, items[i]).value))
  {
    if items != [] {
      var init, last := items[..|items| - 1], items[|items| - 1];
      assert forall i :: 0 <= i < |init| ==> init[i] == items[i];
      LowsMembers(init, records, m, l);
    }
  }

  function ArchiveAction(l: LowRelevance): Action {
    ArchiveItem(l.id, l.moduleKey, l.relevanceScore)
  }

  /** The archive actions of the reports scoring below 0.2 and never used. */
  function Archives(ls: seq<LowRelevance>): seq<Action> {
    if ls == [] then []
    else
      var last := ls[|ls| - 1];
      Archives(ls[..|ls| - 1]) + (if Archivable(Score(last.relevanceScore, last.usageCount)) then [ArchiveAction(last)] else [])
  }

  /** Exactly the reports scoring below 0.2 and never used raise archive actions. */
  lemma {:induction false} ArchivesMembers(ls: seq<LowRelevance>, a: Action)
    ensures a in Archives(ls) <==> exists l :: (l in ls &&
      Archivable(Score(l.relevanceScore, l.usageCount)) && a == ArchiveAction(l))
  {
    if ls != [] {
      var init, last := ls[..|ls| - 1], ls[|ls| - 1];
      assert ls == init + [last];
      ArchivesMembers(init, a);
    }
  }

  /** An item without a record is reported exactly when its text is shorter
      than 300 characters, to be archived when shorter than 200. */
  lemma UnrecordedRules(it: Item, m: string)
    ensures var s := ScoreOf(it, None).value;
      (LowEntry(it, m, s) != [] <==> |it.text| < 300) &&
      (LowEntry(it, m, s) != [] ==> (LowEntry(it, m, s)[0].suggestedAction == "archive" <==> |it.text| < 200))
  {
  }

  /** A never-used item whose record stores no score gets the baseline cut to
      80%: it is reported below 375 characters and archived below 250. */
  lemma UnscoredUnusedRules(it: Item, m: string, p: Item)
    requires "relevance_score" !in p.metadata && "usage_count" !in p.metadata
    ensures ScoreOf(it, Some(p)).Ok?
    ensures var s := ScoreOf(it, Some(p)).value;
      s.relevance == Baseline(it.text) * 0.8 &&
      (LowEntry(it, m, s) != [] <==> |it.text| < 375) &&
      (LowEntry(it, m, s) != [] ==> (LowEntry(it, m, s)[0].suggestedAction == "archive" <==> |it.text| < 250))
  {
  }

  /** A report is archived exactly when it raises an archive action. */
  lemma LowEntryAction(it: Item, m: string, s: Score, l: LowRelevance)
    requires l in LowEntry(it, m, s)
    ensures l.relevanceScore < ReportThreshold && l.id == it.id && l.moduleKey == m
    ensures l.suggestedAction == "archive" <==> Archivable(Score(l.relevanceScore, l.usageCount))
  {
  }

  // ---------------------------------------------------------------------
  // Review: the whole

  /** The items of a module a review analyses: the first 100 listed, cut to `max_items`. */
  function Reviewable(coll: seq<Item>, maxItems: nat): seq<Item> {
    Take(Take(coll, DefaultLimit), maxItems)
  }

  /** The review of one module. Its count is of every listed item, before the
      cut to `max_items`. */
  function ModuleReview(coll: seq<Item>, records: seq<Item>, m: string, req: ReviewRequest, sim: Similarity)
    : Result<Review, Error>
  {
    var listed := Take(coll, DefaultLimit);
    var items := Take(listed, req.maxItems);
    var dups := if req.includeDuplicates && |items| > 1 then Duplicates(items, m, sim, req.minSimilarity) else [];
    var lows := if req.includeLowRelevance then Lows(items, records, m) else Ok([]);
    match lows
    case Err(e) => Err(e)
    case Ok(ls) => Ok(Review(|listed|, dups, ls, Merges(dups) + Archives(ls)))
  }

  /** A module review fails only on a store failure; it counts every listed
      item; its pairs are those of the reviewed items (all of them when asked
      for), its reports those of the scoring, and its actions the merges of
      its pairs followed by the archivings of its reports. */
  lemma ModuleReviewFacts(coll: seq<Item>, records: seq<Item>, m: string, req: ReviewRequest, sim: Similarity)
    ensures var r := ModuleReview(coll, records, m, req, sim);
      (r.Err? ==> r.error.StoreFailure?) &&
      (r.Ok? ==> r.value.totalReviewed == Min(DefaultLimit, |coll|)) &&
      (r.Ok? ==> r.value.actions == Merges(r.value.duplicates) + Archives(r.value.lowRelevance)) &&
      (r.Ok? ==> r.value.duplicates == if req.includeDuplicates
                 then Duplicates(Reviewable(coll, req.maxItems), m, sim, req.minSimilarity) else []) &&
      (r.Ok? && req.includeLowRelevance ==> Lows(Reviewable(coll, req.maxItems), records, m) == Ok(r.value.lowRelevance)) &&
      (r.Ok? && !req.includeLowRelevance ==> r.value.lowRelevance == [])
  {
    var items := Reviewable(coll, req.maxItems);
    if |items| <= 1 {
      NoPairsBelowTwo(items, sim, req.minSimilarity);
    }
  }

  function Part(cols: map<string, seq<Item>>, sim: Similarity, req: ReviewRequest, m: string): Result<Review, Error>
    requires Shaped(cols) && m in AnalyzableModules
  {
    ModuleReview(cols[m], Take(cols[Key], DefaultLimit), m, req, sim)
  }

  function Combine(a: Review, b: Review): Review {
    Review(a.totalReviewed + b.totalReviewed, a.duplicates + b.duplicates, a.lowRelevance + b.lowRelevance,
           a.actions + b.actions)
  }

  /** At most 100 listed items per module. */
  function Listed(cols: map<string, seq<Item>>, modules: seq<string>): nat
    requires forall m :: m in modules ==> m in cols
  {
    if modules == [] then 0 else Listed(cols, modules[..|modules| - 1]) + Min(DefaultLimit, |cols[modules[|modules| - 1]]|)
  }

  /** The module reviews concatenated in module order; the first error aborts. */
  function Reviewed(cols: map<string, seq<Item>>, sim: Similarity, req: ReviewRequest, modules: seq<string>)
    : (r: Result<Review, Error>)
    requires Shaped(cols) && forall m :: m in modules ==> m in AnalyzableModules
    ensures r.Err? ==> r.error.StoreFailure?
    ensures r.Ok? ==> r.value.totalReviewed == Listed(cols, modules) <= DefaultLimit * |modules|
  {
    if modules == [] then Ok(Review(0, [], [], []))
    else
      var init, m := modules[..|modules| - 1], modules[|modules| - 1];
      assert forall x :: x in init ==> x in modules;
      ModuleReviewFacts(cols[m], Take(cols[Key], DefaultLimit), m, req, sim);
      match Reviewed(cols, sim, req, init)
      case Err(e) => Err(e)
      case Ok(acc) =>
        match Part(cols, sim, req, m)
        case Err(e) => Err(e)
        case Ok(part) =>
          assert DefaultLimit * |modules| == DefaultLimit * |init| + DefaultLimit;
          Ok(Combine(acc, part))
  }

  /** `POST /prioridad/revisar`: an unknown module is invalid; otherwise the
      module reviews in order. */
  function ReviewOf(cols: map<string, seq<Item>>, sim: Similarity, req: ReviewRequest): (r: Result<Review, Error>)
    requires Shaped(cols)
    ensures r.Err? && r.error.InvalidInput? <==> req.moduleKey != "" && req.moduleKey !in AnalyzableModules
    ensures r.Err? && !r.error.InvalidInput? ==> r.error.StoreFailure?
  {
    if req.moduleKey != "" && req.moduleKey !in AnalyzableModules then
      Err(InvalidInput("module '" + req.moduleKey + "' is not valid"))
    else Reviewed(cols, sim, req, Modules(req.moduleKey))
  }

  /** What a module contributes to a review; nothing when it fails. */
  function Contribution(cols: map<string, seq<Item>>, sim: Similarity, req: ReviewRequest, m: string): Review
    requires Shaped(cols) && m in AnalyzableModules
  {
    var p := Part(cols, sim, req, m);
    if p.Ok? then p.value else Review(0, [], [], [])
  }

  /** A review succeeds exactly when every module's review does. */
  lemma {:induction false} ReviewedOk(cols: map<string, seq<Item>>, sim: Similarity, req: ReviewRequest, modules: seq<string>)
    requires Shaped(cols) && forall m :: m in modules ==> m in AnalyzableModules
    ensures Reviewed(cols, sim, req, modules).Ok? <==> forall m :: m in modules ==> Part(cols, sim, req, m).Ok?
  {
    if modules != [] {
      var init, m := modules[..|modules| - 1], modules[|modules| - 1];
      assert modules == init + [m];
      assert forall x :: x in init ==> x in modules;
      ReviewedOk(cols, sim, req, init);
    }
  }

  /** A review's pairs are those of its modules. */
  lemma {:induction false} ReviewedDuplicate(cols: map<string, seq<Item>>, sim: Similarity, req: ReviewRequest,
                                             modules: seq<string>, d: DuplicatePair)
    requires Shaped(cols) && forall m :: m in modules ==> m in AnalyzableModules
    requires Reviewed(cols, sim, req, modules).Ok?
    ensures d in Reviewed(cols, sim, req, modules).value.duplicates <==>
      exists m :: m in modules && d in Contribution(cols, sim, req, m).duplicates
  {
    if modules != [] {
      var init, m := modules[..|modules| - 1], modules[|modules| - 1];
      assert modules == init + [m];
      assert forall x :: x in init ==> x in modules;
      ReviewedDuplicate(cols, sim, req, init, d);
    }
  }

  /** A review's low-relevance reports are those of its modules. */
  lemma {:induction false} ReviewedLow(cols: map<string, seq<Item>>, sim: Similarity, req: ReviewRequest,
                                       modules: seq<string>, l: LowRelevance)
    requires Shaped(cols) && forall m :: m in modules ==> m in AnalyzableModules
    requires Reviewed(cols, sim, req, modules).Ok?
    ensures l in Reviewed(cols, sim, req, modules).value.lowRelevance <==>
      exists m :: m in modules && l in Contribution(cols, sim, req, m).lowRelevance
  {
    if modules != [] {
      var init, m := modules[..|modules| - 1], modules[|modules| - 1];
      assert modules == init + [m];
      assert forall x :: x in init ==> x in modules;
      ReviewedLow(cols, sim, req, init, l);
    }
  }

  /** A review's actions are those of its modules. */
  lemma {:induction false} ReviewedAction(cols: map<string, seq<Item>>, sim: Similarity, req: ReviewRequest,
                                          modules: seq<string>, a: Action)
    requires Shaped(cols) && forall m :: m in modules ==> m in AnalyzableModules
    requires Reviewed(cols, sim, req, modules).Ok?
    ensures a in Reviewed(cols, sim, req, modules).value.actions <==>
      exists m :: m in modules && a in Contribution(cols, sim, req, m).actions
  {
    if modules != [] {
      var init, m := modules[..|modules| - 1], modules[|modules| - 1];
      assert modules == init + [m];
      assert forall x :: x in init ==> x in modules;
      ReviewedAction(cols, sim, req, init, a);
    }
  }

  /** A module's low-relevance report is one of its reviewed items scoring
      below 0.3, archived exactly when it is archivable. */
  lemma LowFromModule(cols: map<string, seq<Item>>, sim: Similarity, req: ReviewRequest, m: string, l: LowRelevance)
    requires Shaped(cols) && m in AnalyzableModules && Part(cols, sim, req, m).Ok?
    requires l in Part(cols, sim, req, m).value.lowRelevance
    ensures l.relevanceScore < ReportThreshold && l.moduleKey == m
    ensures l.suggestedAction == "archive" <==> Archivable(Score(l.relevanceScore, l.usageCount))
    ensures exists i :: 0 <= i < |Reviewable(cols[m], req.maxItems)| && Reviewable(cols[m], req.maxItems)[i].id == l.id
  {
    var items := Reviewable(cols[m], req.maxItems);
    var records := Take(cols[Key], DefaultLimit);
    LowsMembers(items, records, m, l);
    var i :| 0 <= i < |items| && ScoreIn(records, m, items[i]).Ok? &&
      l in LowEntry(items[i], m, ScoreIn(records, m, items[i]).value);
    LowEntryAction(items[i], m, ScoreIn(records, m, items[i]).value, l);
  }

  /** The module a reported pair comes from. */
  lemma PartOfDuplicate(cols: map<string, seq<Item>>, sim: Similarity, req: ReviewRequest, d: DuplicatePair)
    returns (m: string)
    requires Shaped(cols) && ReviewOf(cols, sim, req).Ok? && d in ReviewOf(cols, sim, req).value.duplicates
    ensures m in Modules(req.moduleKey) && m in AnalyzableModules
    ensures Part(cols, sim, req, m).Ok? && d in Part(cols, sim, req, m).value.duplicates
  {
    var modules := Modules(req.moduleKey);
    ReviewedOk(cols, sim, req, modules);
    ReviewedDuplicate(cols, sim, req, modules, d);
    m :| m in modules && d in Contribution(cols, sim, req, m).duplicates;
  }

  /** The module a low-relevance report comes from. */
  lemma PartOfLow(cols: map<string, seq<Item>>, sim: Similarity, req: ReviewRequest, l: LowRelevance)
    returns (m: string)
    requires Shaped(cols) && ReviewOf(cols, sim, req).Ok? && l in ReviewOf(cols, sim, req).value.lowRelevance
    ensures m in Modules(req.moduleKey) && m in AnalyzableModules
    ensures Part(cols, sim, req, m).Ok? && l in Part(cols, sim, req, m).value.lowRelevance
  {
    var modules := Modules(req.moduleKey);
    ReviewedOk(cols, sim, req, modules);
    ReviewedLow(cols, sim, req, modules, l);
    m :| m in modules && l in Contribution(cols, sim, req, m).lowRelevance;
  }

  /** Every action of a review is the merge of a pair to be merged or the
      archiving of a report to be archived. */
  lemma ReviewActionSound(cols: map<string, seq<Item>>, sim: Similarity, req: ReviewRequest, a: Action)
    requires Shaped(cols) && ReviewOf(cols, sim, req).Ok? && a in ReviewOf(cols, sim, req).value.actions
    ensures (exists d :: d in ReviewOf(cols, sim, req).value.duplicates && d.suggestedAction == "merge" && a == MergeAction(d)) ||
      (exists l :: l in ReviewOf(cols, sim, req).value.lowRelevance && l.suggestedAction == "archive" && a == ArchiveAction(l))
  {
    var modules := Modules(req.moduleKey);
    ReviewedOk(cols, sim, req, modules);
    ReviewedAction(cols, sim, req, modules, a);
    var m :| m in modules && a in Contribution(cols, sim, req, m).actions;
    var p := Part(cols, sim, req, m).value;
    if a in Merges(p.duplicates) {
      var d := MergeOfModule(cols, sim, req, m, a);
      ReviewedDuplicate(cols, sim, req, modules, d);
    } else {
      var l := ArchiveOfModule(cols, sim, req, m, a);
      ReviewedLow(cols, sim, req, modules, l);
    }
  }

  lemma MergeOfModule(cols: map<string, seq<Item>>, sim: Similarity, req: ReviewRequest, m: string, a: Action)
    returns (d: DuplicatePair)
    requires Shaped(cols) && m in AnalyzableModules && Part(cols, sim, req, m).Ok?
    requires a in Merges(Part(cols, sim, req, m).value.duplicates)
    ensures d in Contribution(cols, sim, req, m).duplicates && d.suggestedAction == "merge" && a == MergeAction(d)
  {
    var p := Part(cols, sim, req, m).value;
    MergesMembers(p.duplicates, a);
    d :| d in p.duplicates && d.similarity > MergeThreshold && a == MergeAction(d);
    DuplicatesSound(Reviewable(cols[m], req.maxItems), m, sim, req.minSimilarity, d);
  }

  lemma ArchiveOfModule(cols: map<string, seq<Item>>, sim: Similarity, req: ReviewRequest, m: string, a: Action)
    returns (l: LowRelevance)
    requires Shaped(cols) && m in AnalyzableModules && Part(cols, sim, req, m).Ok?
    requires a in Archives(Part(cols, sim, req, m).value.lowRelevance)
    ensures l in Contribution(cols, sim, req, m).lowRelevance && l.suggestedAction == "archive" && a == ArchiveAction(l)
  {
    var p := Part(cols, sim, req, m).value;
    ArchivesMembers(p.lowRelevance, a);
    l :| l in p.lowRelevance && Archivable(Score(l.relevanceScore, l.usageCount)) && a == ArchiveAction(l);
    LowFromModule(cols, sim, req, m, l);
  }

  /** Every pair to be merged raises its merge action. */
  lemma ReviewMergeActs(cols: map<string, seq<Item>>, sim: Similarity, req: ReviewRequest, d: DuplicatePair)
    requires Shaped(cols) && ReviewOf(cols, sim, req).Ok? && d in ReviewOf(cols, sim, req).value.duplicates
    requires d.suggestedAction == "merge"
    ensures MergeAction(d) in ReviewOf(cols, sim, req).value.actions
  {
    var modules := Modules(req.moduleKey);
    var m := PartOfDuplicate(cols, sim, req, d);
    DuplicatesSound(Reviewable(cols[m], req.maxItems), m, sim, req.minSimilarity, d);
    MergesMembers(Contribution(cols, sim, req, m).duplicates, MergeAction(d));
    assert MergeAction(d) in Contribution(cols, sim, req, m).actions;
    ReviewedAction(cols, sim, req, modules, MergeAction(d));
  }

  /** Every report to be archived raises its archive action. */
  lemma ReviewArchiveActs(cols: map<string, seq<Item>>, sim: Similarity, req: ReviewRequest, l: LowRelevance)
    requires Shaped(cols) && ReviewOf(cols, sim, req).Ok? && l in ReviewOf(cols, sim, req).value.lowRelevance
    requires l.suggestedAction == "archive"
    ensures ArchiveAction(l) in ReviewOf(cols, sim, req).value.actions
  {
    var modules := Modules(req.moduleKey);
    var m := PartOfLow(cols, sim, req, l);
    LowFromModule(cols, sim, req, m, l);
    ArchivesMembers(Contribution(cols, sim, req, m).lowRelevance, ArchiveAction(l));
    assert ArchiveAction(l) in Contribution(cols, sim, req, m).actions;
    ReviewedAction(cols, sim, req, modules, ArchiveAction(l));
  }

  /** Every reported pair is a close pair of positions i < j within the first
      `max_items` of the first 100 items of one reviewed module. */
  lemma ReviewDuplicateSound(cols: map<string, seq<Item>>, sim: Similarity, req: ReviewRequest, d: DuplicatePair)
    requires Shaped(cols) && ReviewOf(cols, sim, req).Ok? && d in ReviewOf(cols, sim, req).value.duplicates
    ensures d.item1.moduleKey in Modules(req.moduleKey) && d.item2.moduleKey == d.item1.moduleKey
    ensures var items := Reviewable(cols[d.item1.moduleKey], req.maxItems);
      exists i, j :: 0 <= i < j < |items| && d == Pair(items, d.item1.moduleKey, sim, (i, j)) &&
        Close(items, sim, req.minSimilarity, i, j)
    ensures d.suggestedAction == "merge" <==> d.similarity > MergeThreshold
  {
    var m := PartOfDuplicate(cols, sim, req, d);
    DuplicatesSound(Reviewable(cols[m], req.maxItems), m, sim, req.minSimilarity, d);
  }

  /** Every low-relevance report is one of the first `max_items` of the first
      100 items of one reviewed module, scoring below 0.3. */
  lemma ReviewLowSound(cols: map<string, seq<Item>>, sim: Similarity, req: ReviewRequest, l: LowRelevance)
    requires Shaped(cols) && ReviewOf(cols, sim, req).Ok? && l in ReviewOf(cols, sim, req).value.lowRelevance
    ensures l.relevanceScore < ReportThreshold && l.moduleKey in Modules(req.moduleKey)
    ensures exists i :: (0 <= i < |Reviewable(cols[l.moduleKey], req.maxItems)| &&
      Reviewable(cols[l.moduleKey], req.maxItems)[i].id == l.id)
    ensures l.suggestedAction == "archive" <==> Archivable(Score(l.relevanceScore, l.usageCount))
  {
    var m := PartOfLow(cols, sim, req, l);
    LowFromModule(cols, sim, req, m, l);
  }

  // ---------------------------------------------------------------------
  // Review: the loops

  /** Appending a pair to the positions appends its report. */
  lemma DescribedStep(items: seq<Item>, m: string, sim: Similarity, ps: seq<(nat, nat)>, p: (nat, nat))
    requires Within(items, ps) && p.0 < |items| && p.1 < |items|
    ensures Within(items, ps + [p])
    ensures Described(items, m, sim, ps + [p]) == Described(items, m, sim, ps) + [Pair(items, m, sim, p)]
  {
    assert (ps + [p])[..|ps|] == ps;
  }

  /** The pairs the loops have found once they reach positions i, j. */
  function Scanned(items: seq<Item>, sim: Similarity, min: real, i: nat, j: nat): (r: seq<(nat, nat)>)
    requires i < |items| && j <= |items|
    ensures Within(items, r)
  {
    RowFacts(items, sim, min, i, j);
    PairsBefore(items, sim, min, i) + Row(items, sim, min, i, j)
  }

  lemma ScannedStep(items: seq<Item>, sim: Similarity, min: real, i: nat, j: nat)
    requires i < |items| && j < |items|
    ensures Scanned(items, sim, min, i, j + 1) ==
      Scanned(items, sim, min, i, j) + if i < j && Close(items, sim, min, i, j) then [(i, j)] else []
  {
  }

  lemma ScannedEnds(items: seq<Item>, sim: Similarity, min: real, i: nat)
    requires i < |items|
    ensures Scanned(items, sim, min, i, 0) == PairsBefore(items, sim, min, i)
    ensures Scanned(items, sim, min, i, |items|) == PairsBefore(items, sim, min, i + 1)
  {
    assert Row(items, sim, min, i, 0) == [];
  }

  lemma MergesStep(ds: seq<DuplicatePair>, d: DuplicatePair)
    ensures Merges(ds + [d]) == Merges(ds) + if d.similarity > MergeThreshold then [MergeAction(d)] else []
  {
    assert (ds + [d])[..|ds|] == ds;
  }

  lemma ArchivesStep(ls: seq<LowRelevance>, ext: seq<LowRelevance>)
    requires |ext| <= 1
    ensures Archives(ls + ext) == Archives(ls) + Archives(ext)
  {
    if ext != [] {
      assert (ls + ext)[..|ls|] == ls;
      assert ext[..0] == [];
    } else {
      assert ls + ext == ls;
    }
  }

  /** The reports of the pairs found before row `i`. */
  function FoundBefore(items: seq<Item>, m: string, sim: Similarity, min: real, i: nat): seq<DuplicatePair>
    requires i <= |items|
  {
    Described(items, m, sim, PairsBefore(items, sim, min, i))
  }

  /** The reports of the pairs found once the loops reach positions i, j,
      one comparison at a time. */
  function Compared(items: seq<Item>, m: string, sim: Similarity, min: real, i: nat, j: nat): seq<DuplicatePair>
    requires i < |items| && j <= |items|
  {
    if j == 0 then FoundBefore(items, m, sim, min, i)
    else
      var k: nat := j - 1;
      Compared(items, m, sim, min, i, k) + if i < k && Close(items, sim, min, i, k) then [Pair(items, m, sim, (i, k))] else []
  }

  /** Comparing one at a time reports the pairs scanned so far. */
  lemma {:induction false} ComparedScanned(items: seq<Item>, m: string, sim: Similarity, min: real, i: nat, j: nat)
    requires i < |items| && j <= |items|
    ensures Compared(items, m, sim, min, i, j) == Described(items, m, sim, Scanned(items, sim, min, i, j))
  {
    if j == 0 {
      ScannedEnds(items, sim, min, i);
    } else {
      var k: nat := j - 1;
      ComparedScanned(items, m, sim, min, i, k);
      ScannedStep(items, sim, min, i, k);
      var ps := Scanned(items, sim, min, i, k);
      if i < k && Close(items, sim, min, i, k) {
        assert Scanned(items, sim, min, i, j) == ps + [(i, k)];
        DescribedStep(items, m, sim, ps, (i, k));
      } else {
        assert Scanned(items, sim, min, i, j) == ps;
      }
    }
  }

  /** A full row of comparisons reports every pair before the next row. */
  lemma FoundEnds(items: seq<Item>, m: string, sim: Similarity, min: real, i: nat)
    requires i < |items|
    ensures Compared(items, m, sim, min, i, 0) == FoundBefore(items, m, sim, min, i)
    ensures Compared(items, m, sim, min, i, |items|) == FoundBefore(items, m, sim, min, i + 1)
  {
    ComparedScanned(items, m, sim, min, i, |items|);
    ScannedEnds(items, sim, min, i);
  }

  /** One comparison of the inner loop: items i and j, kept when i < j and
      their similarity reaches `min`, with a merge action above 0.95. */
  method CompareAt(items: seq<Item>, m: string, sim: Similarity, min: real, i: nat, j: nat,
                   dups0: seq<DuplicatePair>, merges0: seq<Action>)
    returns (dups: seq<DuplicatePair>, merges: seq<Action>)
    requires i < |items| && j < |items| && dups0 == Compared(items, m, sim, min, i, j) && merges0 == Merges(dups0)
    ensures dups == Compared(items, m, sim, min, i, j + 1) && merges == Merges(dups)
  {
    dups, merges := dups0, merges0;
    if i < j {
      var similarity := sim(items[i].text, items[j].text);
      if similarity >= min {
        var d := DuplicatePair(Ref(items[i].id, Shorten(items[i].text), m),
                               Ref(items[j].id, Shorten(items[j].text), m),
                               similarity, if similarity > MergeThreshold then "merge" else "review");
        assert d == Pair(items, m, sim, (i, j));
        MergesStep(dups, d);
        dups := dups + [d];
        if similarity > MergeThreshold {
          merges := merges + [MergeDuplicates(items[i].id, items[j].id, m, similarity)];
        }
      }
    }
  }

  /** One pass of the inner loop: item i against every position j. */
  method ScanRow(items: seq<Item>, m: string, sim: Similarity, min: real, i: nat,
                 dups0: seq<DuplicatePair>, merges0: seq<Action>)
    returns (dups: seq<DuplicatePair>, merges: seq<Action>)
    requires i < |items| && dups0 == Compared(items, m, sim, min, i, 0) && merges0 == Merges(dups0)
    ensures dups == Compared(items, m, sim, min, i, |items|) && merges == Merges(dups)
  {
    dups, merges := dups0, merges0;
    var j := 0;
    while j < |items|
      invariant 0 <= j <= |items| && dups == Compared(items, m, sim, min, i, j) && merges == Merges(dups)
    {
      dups, merges := CompareAt(items, m, sim, min, i, j, dups, merges);
      j := j + 1;
    }
    assert j == |items|;
  }

  /** The i, j loops over all positions, keeping the pairs i < j whose
      similarity reaches `min`, with their merge actions. */
  method FindDuplicates(items: seq<Item>, m: string, sim: Similarity, min: real)
    returns (dups: seq<DuplicatePair>, merges: seq<Action>)
    ensures dups == Duplicates(items, m, sim, min)
    ensures merges == Merges(dups)
  {
    dups, merges := [], [];
    for i := 0 to |items|
      invariant dups == FoundBefore(items, m, sim, min, i) && merges == Merges(dups)
    {
      FoundEnds(items, m, sim, min, i);
      dups, merges := ScanRow(items, m, sim, min, i, dups, merges);
    }
  }

  /** The first error of a left fold is the fold's error. */
  lemma {:induction false} LowsStopsAt(items: seq<Item>, records: seq<Item>, m: string, k: nat)
    requires k < |items| && Lows(items[..k], records, m).Ok? && ScoreIn(records, m, items[k]).Err?
    ensures Lows(items, records, m) == Err(ScoreIn(records, m, items[k]).error)
  {
    var init := items[..|items| - 1];
    if k < |items| - 1 {
      assert init[..k] == items[..k];
      LowsStopsAt(init, records, m, k);
    } else {
      assert init == items[..k];
    }
  }

  /** One item's score: its record looked up in a fresh listing of the
      records, the stored score (cut to 80% when never used) or the baseline. */
  method ScoreOne(store: VectorStore, it: Item, m: string) returns (r: Result<Score, Error>)
    requires store.Valid()
    ensures Shaped(store.collections)
    ensures r == ScoreIn(Take(store.collections[Key], DefaultLimit), m, it)
  {
    var listed := store.ListItems(Key, DefaultLimit, 0);
    ListAllSeesFirst100(store.collections[Key]);
    var record := FirstRecord(listed.value, it.id, m);
    var relevance := Baseline(it.text);
    var usage := Num(0.0);
    if record.Some? {
      var stored := Get(record.value.metadata, "relevance_score", Num(relevance));
      usage := Get(record.value.metadata, "usage_count", Num(0.0));
      var n := AsNumber(stored);
      if n.None? {
        return Err(StoreFailure("TypeError: relevance_score is not a number"));
      }
      relevance := if EqualsNumber(usage, 0.0) then n.value * 0.8 else n.value;
    }
    r := Ok(Score(relevance, usage));
  }

  /** The scoring loop over a module's items; the first score that raises ends it. */
  method ScoreItems(store: VectorStore, items: seq<Item>, m: string)
    returns (r: Result<seq<LowRelevance>, Error>, archives: seq<Action>)
    requires store.Valid()
    ensures Shaped(store.collections)
    ensures r == Lows(items, Take(store.collections[Key], DefaultLimit), m)
    ensures r.Ok? ==> archives == Archives(r.value)
  {
    var records := Take(store.collections[Key], DefaultLimit);
    var lows: seq<LowRelevance> := [];
    archives := [];
    for i := 0 to |items|
      invariant Lows(items[..i], records, m) == Ok(lows)
      invariant archives == Archives(lows)
    {
      var it := items[i];
      var scored := ScoreOne(store, it, m);
      if scored.Err? {
        LowsStopsAt(items, records, m, i);
        return Err(scored.error), archives;
      }
      var s := scored.value;
      var entry := LowEntry(it, m, s);
      assert items[..i + 1][..i] == items[..i];
      assert Lows(items[..i + 1], records, m) == Ok(lows + entry);
      ArchivesStep(lows, entry);
      if s.relevance < ReportThreshold {
        var l := LowRelevance(it.id, Shorten(it.text), m, s.relevance, s.usage, if Archivable(s) then "archive" else "review");
        assert entry == [l];
        lows := lows + [l];
        if Archivable(s) {
          archives := archives + [ArchiveItem(it.id, m, s.relevance)];
        }
      } else {
        assert lows + entry == lows;
      }
    }
    assert items[..|items|] == items;
    r := Ok(lows);
  }

  /** One module's review: the first 100 items counted, cut to `max_items`,
      paired when asked and when more than one, then scored when asked. */
  method ReviewModule(store: VectorStore, sim: Similarity, req: ReviewRequest, m: string)
    returns (r: Result<Review, Error>)
    requires store.Valid() && m in AnalyzableModules
    ensures Shaped(store.collections)
    ensures r == Part(store.collections, sim, req, m)
  {
    var listed := store.ListItems(m, DefaultLimit, 0);
    ListAllSeesFirst100(store.collections[m]);
    var items := listed.value;
    var total := |items|;
    if |items| > req.maxItems {
      items := items[..req.maxItems];
    }
    assert items == Reviewable(store.collections[m], req.maxItems);
    var dups: seq<DuplicatePair>, merges: seq<Action> := [], [];
    if req.includeDuplicates && |items| > 1 {
      dups, merges := FindDuplicates(items, m, sim, req.minSimilarity);
    }
    var lows: seq<LowRelevance>, archives: seq<Action> := [], [];
    if req.includeLowRelevance {
      var scored;
      scored, archives := ScoreItems(store, items, m);
      if scored.Err? {
        return Err(scored.error);
      }
      lows := scored.value;
    }
    assert |items| <= 1 ==> PairsBefore(items, sim, req.minSimilarity, |items|) == [] by {
      if |items| <= 1 { NoPairsBelowTwo(items, sim, req.minSimilarity); }
    }
    r := Ok(Review(total, dups, lows, merges + archives));
  }

  /** The first failing module's error is the review's error. */
  lemma {:induction false} ReviewedStopsAt(cols: map<string, seq<Item>>, sim: Similarity, req: ReviewRequest,
                                           modules: seq<string>, k: nat)
    requires Shaped(cols) && forall m :: m in modules ==> m in AnalyzableModules
    requires k < |modules| && Reviewed(cols, sim, req, modules[..k]).Ok? && Part(cols, sim, req, modules[k]).Err?
    ensures Reviewed(cols, sim, req, modules) == Err(Part(cols, sim, req, modules[k]).error)
  {
    var init := modules[..|modules| - 1];
    assert forall x :: x in init ==> x in modules;
    if k < |modules| - 1 {
      assert init[..k] == modules[..k];
      ReviewedStopsAt(cols, sim, req, init, k);
    } else {
      assert init == modules[..k];
    }
  }

  /** `POST /prioridad/revisar`: the named module must be analysable; the
      modules are reviewed in order and their results concatenated. */
  method ReviewPriorities(store: VectorStore, sim: Similarity, req: ReviewRequest) returns (r: Result<Review, Error>)
    requires store.Valid()
    ensures Shaped(store.collections)
    ensures r == ReviewOf(store.collections, sim, req)
  {
    var modules := Modules(req.moduleKey);
    var k := 0;
    while k < |modules|
      invariant 0 <= k <= |modules|
      invariant forall x :: x in modules[..k] ==> x in AnalyzableModules
    {
      if modules[k] !in AnalyzableModules {
        return Err(InvalidInput("module '" + modules[k] + "' is not valid"));
      }
      assert modules[..k + 1] == modules[..k] + [modules[k]];
      k := k + 1;
    }
    assert modules[..k] == modules;
    var acc := Review(0, [], [], []);
    var i := 0;
    while i < |modules|
      invariant 0 <= i <= |modules|
      invariant Reviewed(store.collections, sim, req, modules[..i]) == Ok(acc)
    {
      var part := ReviewModule(store, sim, req, modules[i]);
      if part.Err? {
        ReviewedStopsAt(store.collections, sim, req, modules, i);
        return Err(part.error);
      }
      assert modules[..i + 1][..i] == modules[..i];
      assert forall x :: x in modules[..i + 1] ==> x in AnalyzableModules;
      acc := Combine(acc, part.value);
      i := i + 1;
    }
    assert modules[..i] == modules;
    r := Ok(acc);
  }

  // ---------------------------------------------------------------------
  // Adjust

  datatype AdjustRequest = AdjustRequest(itemId: string, moduleKey: string, priorityLevel: string,
                                         relevanceScore: Option<real>)

  /** The text of an item's priority record: the item's first 50 characters and its module. */
  function RecordText(itemText: string, m: string): string {
    "Prioridad para item '" + Take(itemText, 50) + "...' en módulo '" + m + "'"
  }

  /** A found record's new metadata: a copy with the level set, the score set
      when one is supplied, and updated_at refreshed. */
  function AdjustedMetadata(md: Metadata, req: AdjustRequest, now: string): Metadata {
    var leveled := md["priority_level" := Str(req.priorityLevel)];
    var scored := if req.relevanceScore.Some? then leveled["relevance_score" := Num(req.relevanceScore.value)] else leveled;
    scored["updated_at" := Str(now)]
  }

  /** A new record's metadata: the item, its module and level, the supplied
      score or 0.5, never used, not a duplicate, all timestamps `now`. */
  function NewRecordMetadata(req: AdjustRequest, now: string): Metadata {
    map["item_id" := Str(req.itemId), "module" := Str(req.moduleKey), "priority_level" := Str(req.priorityLevel),
        "relevance_score" := Num(req.relevanceScore.GetOr(0.5)), "usage_count" := Num(0.0),
        "last_accessed" := Str(now), "is_duplicate" := Bool(false), "duplicate_of" := Null,
        "created_at" := Str(now), "updated_at" := Str(now)]
  }

  /** What an adjustment answers and the priority records it leaves. */
  datatype Adjustment = Adjustment(result: Result<Item, Error>, priorities: seq<Item>)

  /** `POST /prioridad/ajustar`: the module, then the level, then the item are
      checked; the item's record among the first 100 is rewritten in place,
      or a new record is added under the id `id`. */
  function Adjust(cols: map<string, seq<Item>>, req: AdjustRequest, now: string, id: string): Adjustment
    requires Shaped(cols)
  {
    var prios := cols[Key];
    if req.moduleKey !in AnalyzableModules then
      Adjustment(Err(InvalidInput("module '" + req.moduleKey + "' is not valid")), prios)
    else if req.priorityLevel !in Levels then
      Adjustment(Err(InvalidInput("priority level '" + req.priorityLevel + "' is not valid")), prios)
    else
      match Find(cols[req.moduleKey], req.itemId)
      case None => Adjustment(Err(NotFound("item '" + req.itemId + "' not found in module '" + req.moduleKey + "'")), prios)
      case Some(it) =>
        var text := RecordText(it.text, req.moduleKey);
        match RecordOf(prios, req.itemId, req.moduleKey)
        case Some(p) =>
          var x := Item(p.id, text, AdjustedMetadata(p.metadata, req, now));
          Adjustment(Ok(x), Replaced(prios, p.id, x))
        case None =>
          var x := Item(id, text, NewRecordMetadata(req, now));
          Adjustment(Ok(x), Added(prios, x))
  }

  /** A rejected adjustment writes nothing: an invalid module or level is
      InvalidInput, checked before the item; an absent item is NotFound. */
  lemma AdjustRejects(cols: map<string, seq<Item>>, req: AdjustRequest, now: string, id: string)
    requires Shaped(cols)
    ensures var a := Adjust(cols, req, now, id);
      (a.result.Err? ==> a.priorities == cols[Key]) &&
      (a.result.Err? && a.result.error.InvalidInput? <==>
        req.moduleKey !in AnalyzableModules || req.priorityLevel !in Levels) &&
      (a.result.Err? && a.result.error.NotFound? <==>
        req.moduleKey in AnalyzableModules && req.priorityLevel in Levels && !HasId(cols[req.moduleKey], req.itemId)) &&
      (a.result.Err? ==> a.result.error.InvalidInput? || a.result.error.NotFound?)
  {
  }

  /** Adding a record that is not the item's leaves the item's lookup as it was. */
  lemma {:induction false} FirstRecordAppend(records: seq<Item>, x: Item, itemId: string, m: string)
    ensures FirstRecord(records + [x], itemId, m) ==
      if FirstRecord(records, itemId, m).Some? then FirstRecord(records, itemId, m)
      else if RecordFor(x, itemId, m) then Some(x) else None
  {
    if records != [] {
      assert (records + [x])[1..] == records[1..] + [x];
      FirstRecordAppend(records[1..], x, itemId, m);
    }
  }

  lemma AddedOther(prios: seq<Item>, x: Item, itemId: string, m: string)
    requires !RecordFor(x, itemId, m)
    ensures RecordOf(Added(prios, x), itemId, m) == RecordOf(prios, itemId, m)
  {
    if !HasId(prios, x.id) && |prios| < DefaultLimit {
      assert Take(prios + [x], DefaultLimit) == prios + [x];
      assert Take(prios, DefaultLimit) == prios;
      FirstRecordAppend(prios, x, itemId, m);
    } else if !HasId(prios, x.id) {
      AddedBeyondWindow(prios, x, itemId, m);
    }
  }

  /** The record an accepted adjustment answers with is the item's, at the
      requested level, with the supplied score (0.5 for a new record without
      one); its text names the item's first 50 characters. */
  lemma AdjustedRecord(cols: map<string, seq<Item>>, req: AdjustRequest, now: string, id: string)
    requires Shaped(cols) && Adjust(cols, req, now, id).result.Ok?
    ensures var x := Adjust(cols, req, now, id).result.value;
      RecordFor(x, req.itemId, req.moduleKey) &&
      HasStr(x.metadata, "priority_level", req.priorityLevel) && HasStr(x.metadata, "updated_at", now) &&
      x.text == RecordText(Find(cols[req.moduleKey], req.itemId).value.text, req.moduleKey) &&
      (req.relevanceScore.Some? ==> x.metadata["relevance_score"] == Num(req.relevanceScore.value)) &&
      (RecordOf(cols[Key], req.itemId, req.moduleKey).None? ==>
        x.id == id && x.metadata == NewRecordMetadata(req, now))
  {
    var r := RecordOf(cols[Key], req.itemId, req.moduleKey);
    var x := Adjust(cols, req, now, id).result.value;
    if r.Some? {
      FirstRecordFacts(Take(cols[Key], DefaultLimit), req.itemId, req.moduleKey);
      AdjustedMetadataKeeps(r.value.metadata, req, now);
    } else {
      NewRecordMetadataHas(req, now);
    }
  }

  /** The rewritten metadata keeps the item id and module and carries the
      level, the supplied score and the new updated_at. */
  lemma AdjustedMetadataKeeps(md: Metadata, req: AdjustRequest, now: string)
    ensures var a := AdjustedMetadata(md, req, now);
      (forall k :: k in md && k !in {"priority_level", "relevance_score", "updated_at"} ==> k in a && a[k] == md[k]) &&
      a["priority_level"] == Str(req.priorityLevel) && a["updated_at"] == Str(now) &&
      (req.relevanceScore.Some? ==> a["relevance_score"] == Num(req.relevanceScore.value)) &&
      (req.relevanceScore.None? && "relevance_score" in md ==> a["relevance_score"] == md["relevance_score"])
  {
  }

  lemma NewRecordMetadataHas(req: AdjustRequest, now: string)
    ensures var md := NewRecordMetadata(req, now);
      HasStr(md, "item_id", req.itemId) && HasStr(md, "module", req.moduleKey) &&
      HasStr(md, "priority_level", req.priorityLevel) && HasStr(md, "updated_at", now) &&
      md["relevance_score"] == Num(req.relevanceScore.GetOr(0.5))
  {
  }

  /** After an accepted adjustment the next lookup of the item finds the
      record it answered with, provided the item already had a record or
      fewer than 100 records were stored and the new id is unused; every other
      item's lookup is unchanged. */
  lemma AdjustThenLookup(cols: map<string, seq<Item>>, req: AdjustRequest, now: string, id: string,
                         otherId: string, otherModule: string)
    requires Shaped(cols) && UniqueIds(cols[Key]) && Adjust(cols, req, now, id).result.Ok?
    requires RecordOf(cols[Key], req.itemId, req.moduleKey).None? ==> |cols[Key]| < DefaultLimit && !HasId(cols[Key], id)
    ensures var a := Adjust(cols, req, now, id);
      RecordOf(a.priorities, req.itemId, req.moduleKey) == Some(a.result.value) &&
      ((otherId, otherModule) != (req.itemId, req.moduleKey) ==>
        RecordOf(a.priorities, otherId, otherModule) == RecordOf(cols[Key], otherId, otherModule))
  {
    var a := Adjust(cols, req, now, id);
    var x := a.result.value;
    AdjustedRecord(cols, req, now, id);
    if RecordOf(cols[Key], req.itemId, req.moduleKey).Some? {
      RecordOfReplaced(cols[Key], req.itemId, req.moduleKey, x, otherId, otherModule);
    } else {
      AddedWithinWindow(cols[Key], x, req.itemId, req.moduleKey);
      if (otherId, otherModule) != (req.itemId, req.moduleKey) {
        AddedOther(cols[Key], x, otherId, otherModule);
      }
    }
  }

  /** Once 100 records are stored, adjusting an item without a visible record
      adds a record no later lookup sees: the item still has none. */
  lemma AdjustBeyondWindow(cols: map<string, seq<Item>>, req: AdjustRequest, now: string, id: string)
    requires Shaped(cols) && Adjust(cols, req, now, id).result.Ok?
    requires RecordOf(cols[Key], req.itemId, req.moduleKey).None? && |cols[Key]| >= DefaultLimit
    ensures RecordOf(Adjust(cols, req, now, id).priorities, req.itemId, req.moduleKey).None?
  {
    AddedBeyondWindow(cols[Key], Adjust(cols, req, now, id).result.value, req.itemId, req.moduleKey);
  }

  /** The adjust endpoint: the checks in order, a lookup of the item, a fresh
      listing of the records, then the update or the addition. */
  method AdjustPriority(store: VectorStore, req: AdjustRequest, now: string, id: string)
    returns (r: Result<Item, Error>)
    requires store.Valid()
    modifies store
    ensures store.Valid() && Shaped(old(store.collections))
    ensures var a := Adjust(old(store.collections), req, now, id);
      r == a.result && store.collections == old(store.collections)[Key := a.priorities]
  {
    if req.moduleKey !in AnalyzableModules {
      return Err(InvalidInput("module '" + req.moduleKey + "' is not valid"));
    }
    if req.priorityLevel !in Levels {
      return Err(InvalidInput("priority level '" + req.priorityLevel + "' is not valid"));
    }
    var found := store.GetItem(req.moduleKey, req.itemId);
    if found.value.None? {
      return Err(NotFound("item '" + req.itemId + "' not found in module '" + req.moduleKey + "'"));
    }
    var it := found.value.value;
    var text := RecordText(it.text, req.moduleKey);
    var listed := store.ListItems(Key, DefaultLimit, 0);
    ListAllSeesFirst100(store.collections[Key]);
    var record := FirstRecord(listed.value, req.itemId, req.moduleKey);
    if record.Some? {
      var p := record.value;
      FirstRecordFacts(listed.value, req.itemId, req.moduleKey);
      assert p in store.collections[Key];
      var updated := store.UpdateItem(Key, p.id, Some(text), Some(AdjustedMetadata(p.metadata, req, now)));
      r := Ok(updated.value);
    } else {
      var metadata := NewRecordMetadata(req, now);
      var added := store.AddItem(Key, id, text, Some(metadata));
      r := Ok(Item(added.value.id, added.value.text, metadata));
    }
  }

  // ---------------------------------------------------------------------
  // Listing, get and delete

  function ListFilters(moduleKey: string, level: string): seq<(string, string)> {
    [("module", moduleKey), ("priority_level", level)]
  }

  /** `GET /prioridad/`: the first 100 records through the module, level and
      duplicate filters, then paged. */
  method ListPriorities(store: VectorStore, limit: nat, offset: nat, moduleKey: string, level: string,
                        isDuplicate: Option<bool>) returns (r: ItemList)
    requires store.Valid() && 1 <= limit <= 1000
    ensures r == PageOf(FilterBool(FilterEqs(Take(store.collections[Key], DefaultLimit),
                                             ListFilters(moduleKey, level)), "is_duplicate", isDuplicate), limit, offset)
    ensures |r.items| <= limit && r.total <= DefaultLimit
    ensures forall it :: it in r.items ==>
      it in store.collections[Key] && MatchesEq(it, "module", moduleKey) &&
      MatchesEq(it, "priority_level", level) && MatchesBool(it, "is_duplicate", isDuplicate)
  {
    var all := store.ListItems(Key, DefaultLimit, 0);
    ListAllSeesFirst100(store.collections[Key]);
    var fs := ListFilters(moduleKey, level);
    var filtered := FilterBool(FilterEqs(all.value, fs), "is_duplicate", isDuplicate);
    r := PageOf(filtered, limit, offset);
    forall it | it in r.items
      ensures it in store.collections[Key] && MatchesEq(it, "module", moduleKey) &&
        MatchesEq(it, "priority_level", level) && MatchesBool(it, "is_duplicate", isDuplicate)
    {
      var k :| 0 <= k < |r.items| && r.items[k] == it;
      assert it in filtered && it in FilterEqs(all.value, fs);
      assert MatchesEq(it, fs[0].0, fs[0].1) && MatchesEq(it, fs[1].0, fs[1].1);
    }
  }

  method GetPriority(store: VectorStore, id: string) returns (r: Result<Item, Error>)
    requires store.Valid()
    ensures r == Crud.GetResult(store.collections[Key], id)
  {
    r := Crud.Get(store, Key, id);
  }

  method DeletePriority(store: VectorStore, id: string) returns (r: Result<(), Error>)
    requires store.Valid()
    modifies store
    ensures store.Valid()
    ensures Crud.Deleted(old(store.collections), store.collections, Key, id, r)
  {
    r := Crud.Delete(store, Key, id);
  }
}
