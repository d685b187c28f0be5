/** The suggestion generator: from the first 100 items of each analysed module
    it derives up to two insights (from a fixed five-way split of all texts by
    position), up to two actions (items whose priority record was last accessed
    on another day) and up to two connections (the most similar cross-module
    pairs among each module's first five items). Every generated suggestion is
    stored; the response keeps those that reach the minimum relevance, at most
    `max_suggestions` of them, with counts recomputed from what is returned.
    Also the listing, update and mark-as-implemented endpoints. */
module Suggestions {
  import opened Wrappers
  import opened Values
  import opened Database
  import opened Listing
  import Priorities
  import Tally
  import Sorting
  import Crud

  const Key: string := "suggestions"

  /** The suggestion kinds a request may ask for. */
  const SuggestionTypes: seq<string> := ["action", "insight", "connection"]

  /** Texts are split into this many groups by position. */
  const BucketCount: nat := 5

  /** No stage contributes more than this many suggestions. */
  const StageCap: nat := 2

  /** The number of leading items of a module compared for connections. */
  const RepresentativeCount: nat := 5

  const ConnectionThreshold: real := 0.7
  const InsightRelevance: real := 0.8
  const ActionRelevance: real := 0.7

  /** `POST /sugerencias/obtener`; the bounds on `maxSuggestions` (1..20) and
      `minRelevance` ([0, 1]) are those of its schema. */
  datatype SuggestionRequest = SuggestionRequest(modules: Option<seq<string>>, maxSuggestions: nat,
                                                 types: Option<seq<string>>, minRelevance: real)

  /** The response without its human-readable summary. */
  datatype SuggestionResult = SuggestionResult(suggestions: seq<Item>, total: nat, byType: seq<(Value, nat)>)

  /** The modules and kinds a request resolves to. */
  datatype Plan = Plan(modules: seq<string>, types: seq<string>)

  /** What a run returns and everything it wrote to the suggestions collection,
      in order, whether or not the run then failed. */
  datatype Generation = Generation(result: Result<SuggestionResult, Error>, written: seq<Item>)

  predicate ValidRequest(req: SuggestionRequest) {
    1 <= req.maxSuggestions <= 20 && 0.0 <= req.minRelevance <= 1.0
  }

  // ---------------------------------------------------------------------
  // Validation

  /** `given if given else all`: an absent or empty list means every value. */
  function Chosen(given: Option<seq<string>>, all: seq<string>): seq<string> {
    if given.Some? && given.value != [] then given.value else all
  }

  /** The first element of `xs` that is not in `valid`. */
  function FirstOutside(xs: seq<string>, valid: seq<string>): (r: Option<string>)
    ensures r.None? <==> forall x :: x in xs ==> x in valid
    ensures r.Some? ==> r.value in xs && r.value !in valid
  {
    if xs == [] then None
    else if xs[0] !in valid then Some(xs[0])
    else
      assert forall x :: x in xs ==> x == xs[0] || x in xs[1..];
      FirstOutside(xs[1..], valid)
  }

  /** The module check, then the kind check: the first value outside its list
      is a client error, raised before anything is read or written. */
  function Checked(req: SuggestionRequest): (r: Result<Plan, Error>)
    ensures r.Ok? <==>
      (forall m :: m in Chosen(req.modules, AnalyzableModules) ==> m in AnalyzableModules) &&
      (forall t :: t in Chosen(req.types, SuggestionTypes) ==> t in SuggestionTypes)
    ensures r.Err? ==> r.error.InvalidInput?
    ensures r.Ok? ==> r.value == Plan(Chosen(req.modules, AnalyzableModules), Chosen(req.types, SuggestionTypes))
  {
    var modules := Chosen(req.modules, AnalyzableModules);
    var types := Chosen(req.types, SuggestionTypes);
    match FirstOutside(modules, AnalyzableModules)
    case Some(m) => Err(InvalidInput("module '" + m + "' is not valid"))
    case None =>
      match FirstOutside(types, SuggestionTypes)
      case Some(t) => Err(InvalidInput("suggestion type '" + t + "' is not valid"))
      case None => Ok(Plan(modules, types))
  }

  // ---------------------------------------------------------------------
  // Gathering

  /** `all_data`: each analysed module, in first-mention order, with the
      items `list_items` returns for it. */
  type Data = seq<(string, seq<Item>)>

  predicate Gathers(d: Data, m: string) {
    exists i :: 0 <= i < |d| && d[i].0 == m
  }

  /** `all_data[module] = list_items(module)` for each module in turn: a module
      named twice keeps its first position (and the same items). */
  function Gathered(cols: map<string, seq<Item>>, ms: seq<string>): Data
    requires forall m :: m in ms ==> m in cols
  {
    if ms == [] then []
    else
      var init, m := ms[..|ms| - 1], ms[|ms| - 1];
      assert forall x :: x in init ==> x in ms;
      var d := Gathered(cols, init);
      if Gathers(d, m) then d else d + [(m, Take(cols[m], DefaultLimit))]
  }

  lemma GathersAppend(d: Data, e: (string, seq<Item>))
    ensures forall x :: Gathers(d + [e], x) <==> Gathers(d, x) || x == e.0
  {
    var de := d + [e];
    forall x | Gathers(de, x) ensures Gathers(d, x) || x == e.0 {
      var i :| 0 <= i < |de| && de[i].0 == x;
      if i < |d| { assert d[i].0 == x; }
    }
    forall x | Gathers(d, x) ensures Gathers(de, x) {
      var i :| 0 <= i < |d| && d[i].0 == x;
      assert de[i].0 == x;
    }
    assert de[|d|].0 == e.0;
  }

  /** Each named module is gathered exactly once, with its first 100 items. */
  lemma {:induction false} GatheredFacts(cols: map<string, seq<Item>>, ms: seq<string>)
    requires forall m :: m in ms ==> m in cols
    ensures var d := Gathered(cols, ms);
      (forall i :: 0 <= i < |d| ==> d[i].0 in ms && d[i].1 == Take(cols[d[i].0], DefaultLimit)) &&
      (forall m :: Gathers(d, m) <==> m in ms) &&
      (forall i, j :: 0 <= i < j < |d| ==> d[i].0 != d[j].0)
  {
    if ms != [] {
      var init, m := ms[..|ms| - 1], ms[|ms| - 1];
      assert forall x :: x in init ==> x in ms;
      assert ms == init + [m];
      GatheredFacts(cols, init);
      var d := Gathered(cols, init);
      if !Gathers(d, m) {
        GathersAppend(d, (m, Take(cols[m], DefaultLimit)));
      }
    }
  }

  method GatherData(store: VectorStore, ms: seq<string>) returns (d: Data)
    requires forall m :: m in ms ==> m in store.collections
    ensures d == Gathered(store.collections, ms)
  {
    d := [];
    for i := 0 to |ms|
      invariant forall m :: m in ms[..i] ==> m in store.collections
      invariant d == Gathered(store.collections, ms[..i])
    {
      var m := ms[i];
      assert ms[..i + 1][..i] == ms[..i] && ms[..i + 1][i] == m;
      var listed := store.ListItems(m, DefaultLimit, 0);
      ListAllSeesFirst100(store.collections[m]);
      if !Gathers(d, m) {
        d := d + [(m, listed.value)];
      }
    }
    assert ms[..|ms|] == ms;
  }

  // ---------------------------------------------------------------------
  // Insights

  function ItemTexts(items: seq<Item>): (r: seq<string>)
    ensures |r| == |items| && forall i :: 0 <= i < |items| ==> r[i] == items[i].text
  {
    seq(|items|, i requires 0 <= i < |items| => items[i].text)
  }

  /** `all_texts`: every gathered text, module by module. */
  function AllTexts(d: Data): seq<string> {
    if d == [] then [] else AllTexts(d[..|d| - 1]) + ItemTexts(d[|d| - 1].1)
  }

  method CollectTexts(d: Data) returns (texts: seq<string>)
    ensures texts == AllTexts(d)
  {
    texts := [];
    for i := 0 to |d|
      invariant texts == AllTexts(d[..i])
    {
      assert d[..i + 1][..i] == d[..i];
      texts := texts + ItemTexts(d[i].1);
    }
    assert d[..|d|] == d;
  }

  /** The texts at the positions congruent to `k` modulo five, in order. */
  function Bucket(texts: seq<string>, k: nat): seq<string> {
    if texts == [] then []
    else
      Bucket(texts[..|texts| - 1], k) +
      (if (|texts| - 1) % BucketCount == k then [texts[|texts| - 1]] else [])
  }

  /** `clusters`: one group per residue that occurs, in the order the
      residues first occur (0, 1, 2, 3, 4). */
  function Clusters(texts: seq<string>): (r: seq<seq<string>>)
    ensures |r| == Min(BucketCount, |texts|)
    ensures forall k :: 0 <= k < |r| ==> r[k] == Bucket(texts, k)
  {
    seq(Min(BucketCount, |texts|), k requires 0 <= k < Min(BucketCount, |texts|) => Bucket(texts, k))
  }

  lemma BucketStep(texts: seq<string>, i: nat, k: nat)
    requires i < |texts|
    ensures Bucket(texts[..i + 1], k) == Bucket(texts[..i], k) + (if i % BucketCount == k then [texts[i]] else [])
  {
    assert texts[..i + 1][..i] == texts[..i];
  }

  /** No position below `|texts|` is congruent to a residue at or above it. */
  lemma {:induction false} BucketEmpty(texts: seq<string>, k: nat)
    requires |texts| <= k
    ensures Bucket(texts, k) == []
  {
    if texts != [] {
      BucketEmpty(texts[..|texts| - 1], k);
    }
  }

  /** A group holds its residue's text first, and a second text exactly when
      there are more than residue + 5 texts. */
  lemma {:induction false} BucketFacts(texts: seq<string>, k: nat)
    requires k < BucketCount
    ensures |texts| <= k ==> Bucket(texts, k) == []
    ensures k < |texts| <= k + BucketCount ==> Bucket(texts, k) == [texts[k]]
    ensures k + BucketCount < |texts| ==> |Bucket(texts, k)| > 1 && Bucket(texts, k)[0] == texts[k]
  {
    if texts != [] {
      var n := |texts|;
      var init := texts[..n - 1];
      BucketFacts(init, k);
      if n - 1 > k {
        assert init[k] == texts[k];
      }
    }
  }

  /** Text `i` joins the group of its residue, which is created when the
      residue first occurs (at i < 5). */
  lemma ClustersStep(texts: seq<string>, i: nat, clusters: seq<seq<string>>)
    requires i < |texts| && |clusters| == Min(BucketCount, i)
    requires forall k :: 0 <= k < |clusters| ==> clusters[k] == Bucket(texts[..i], k)
    ensures var c := i % BucketCount;
      var next := if c < |clusters| then clusters[c := clusters[c] + [texts[i]]] else clusters + [[texts[i]]];
      |next| == Min(BucketCount, i + 1) && forall k :: 0 <= k < |next| ==> next[k] == Bucket(texts[..i + 1], k)
  {
    var c := i % BucketCount;
    forall k ensures Bucket(texts[..i + 1], k) == Bucket(texts[..i], k) + (if i % BucketCount == k then [texts[i]] else []) {
      BucketStep(texts, i, k);
    }
    if c >= |clusters| {
      BucketEmpty(texts[..i], c);
    }
  }

  /** `clusters` by `clusters[i % 5].append(text)`, a group being created
      the first time its residue occurs. */
  method BuildClusters(texts: seq<string>) returns (clusters: seq<seq<string>>)
    ensures clusters == Clusters(texts)
  {
    clusters := [];
    for i := 0 to |texts|
      invariant |clusters| == Min(BucketCount, i)
      invariant forall k :: 0 <= k < |clusters| ==> clusters[k] == Bucket(texts[..i], k)
    {
      ClustersStep(texts, i, clusters);
      var c := i % BucketCount;
      if c < |clusters| {
        clusters := clusters[c := clusters[c] + [texts[i]]];
      } else {
        clusters := clusters + [[texts[i]]];
      }
    }
    assert texts[..|texts|] == texts;
  }

  /** A theme: the first 100 characters of a group's first text, then "...". */
  function Theme(t: string): string {
    Take(t, 100) + "..."
  }

  /** `main_themes`: every group with more than one text gives its theme. */
  function Themes(clusters: seq<seq<string>>): seq<string> {
    if clusters == [] then []
    else
      var last := clusters[|clusters| - 1];
      Themes(clusters[..|clusters| - 1]) + (if |last| > 1 then [Theme(last[0])] else [])
  }

  method MainThemes(clusters: seq<seq<string>>) returns (themes: seq<string>)
    ensures themes == Themes(clusters)
  {
    themes := [];
    for j := 0 to |clusters|
      invariant themes == Themes(clusters[..j])
    {
      assert clusters[..j + 1][..j] == clusters[..j];
      if |clusters[j]| > 1 {
        themes := themes + [Theme(clusters[j][0])];
      }
    }
    assert clusters[..|clusters|] == clusters;
  }

  /** How many of the first `j` groups have a theme. */
  function ThemedAmong(j: nat, n: nat): nat {
    if n <= BucketCount then 0 else Min(j, n - BucketCount)
  }

  lemma {:induction false} ThemesPrefix(texts: seq<string>, j: nat)
    requires j <= Min(BucketCount, |texts|)
    ensures Themes(Clusters(texts)[..j]) ==
      seq(ThemedAmong(j, |texts|), k requires 0 <= k < ThemedAmong(j, |texts|) => Theme(texts[k]))
  {
    var c, n := Clusters(texts), |texts|;
    if j > 0 {
      assert c[..j][..j - 1] == c[..j - 1] && c[..j][j - 1] == c[j - 1] == Bucket(texts, j - 1);
      ThemesPrefix(texts, j - 1);
      BucketFacts(texts, j - 1);
      var prev := seq(ThemedAmong(j - 1, n), k requires 0 <= k < ThemedAmong(j - 1, n) => Theme(texts[k]));
      var cur := seq(ThemedAmong(j, n), k requires 0 <= k < ThemedAmong(j, n) => Theme(texts[k]));
      if j - 1 + BucketCount < n {
        assert ThemedAmong(j, n) == j && ThemedAmong(j - 1, n) == j - 1;
        assert cur == prev + [Theme(texts[j - 1])];
      } else {
        assert ThemedAmong(j, n) == ThemedAmong(j - 1, n);
        assert |c[j - 1]| <= 1;
        assert cur == prev;
      }
    }
  }

  /** How many themes n texts give: min(5, n - 5), none when n <= 5. */
  function ThemeCount(n: nat): nat {
    ThemedAmong(BucketCount, n)
  }

  /** The themes do not depend on grouping at all: with n texts there are
      min(5, n - 5) of them (none when n <= 5), the k-th taken from the k-th
      text. */
  lemma ThemesExactly(texts: seq<string>)
    ensures var themes := Themes(Clusters(texts));
      |themes| == (if |texts| <= BucketCount then 0 else Min(BucketCount, |texts| - BucketCount)) &&
      |themes| == ThemeCount(|texts|) &&
      forall k :: 0 <= k < |themes| ==> themes[k] == Theme(texts[k])
  {
    var c := Clusters(texts);
    ThemesPrefix(texts, |c|);
    assert c[..|c|] == c;
  }

  // ---------------------------------------------------------------------
  // Suggestion records

  function Strs(xs: seq<string>): seq<Value> {
    seq(|xs|, i requires 0 <= i < |xs| => Str(xs[i]))
  }

  /** The metadata every generated suggestion is stored with. */
  function Stamped(kind: string, context: string, relevance: real, modules: seq<string>, items: seq<string>,
                   now: string): Metadata {
    map["type" := Str(kind), "context" := Str(context), "relevance_score" := Num(relevance),
        "source_modules" := List(Strs(modules)), "source_items" := List(Strs(items)),
        "is_implemented" := Bool(false), "implementation_date" := Null,
        "created_at" := Str(now), "updated_at" := Str(now)]
  }

  function InsightText(theme: string): string {
    "Se ha identificado un tema recurrente: '" + theme + "'. Considera profundizar en este tema."
  }

  /** An insight names every analysed module (as requested, repeats included)
      and no item. */
  function Insight(theme: string, modules: seq<string>, id: string, now: string): Item {
    Item(id, InsightText(theme), Stamped("insight", "análisis de temas", InsightRelevance, modules, [], now))
  }

  /** The insights of the given themes, the k-th taking the id generated for
      the suggestion at position `base + k`. */
  function Insights(themes: seq<string>, modules: seq<string>, now: string, newId: nat -> string, base: nat)
    : (r: seq<Item>)
    ensures |r| == |themes|
    ensures forall k :: 0 <= k < |themes| ==> r[k] == Insight(themes[k], modules, newId(base + k), now)
  {
    seq(|themes|, k requires 0 <= k < |themes| => Insight(themes[k], modules, newId(base + k), now))
  }

  /** One `add_item` into the suggestions collection. */
  method Save(store: VectorStore, ghost before: map<string, seq<Item>>, ghost written: seq<Item>, s: Item)
    requires store.Valid() && Key in before
    requires store.collections == before[Key := AddedAll(before[Key], written)]
    modifies store
    ensures store.Valid()
    ensures store.collections == before[Key := AddedAll(before[Key], written + [s])]
  {
    var added := store.AddItem(Key, s.id, s.text, Some(s.metadata));
    AddedAllStep(before[Key], written, s);
  }

  /** A stage's loop: each of its suggestions in turn is stored and appended
      to `suggestions`. */
  method Emit(store: VectorStore, ghost before: map<string, seq<Item>>, suggestions0: seq<Item>, records: seq<Item>)
    returns (suggestions: seq<Item>)
    requires store.Valid() && Key in before
    requires store.collections == before[Key := AddedAll(before[Key], suggestions0)]
    modifies store
    ensures store.Valid()
    ensures suggestions == suggestions0 + records
    ensures store.collections == before[Key := AddedAll(before[Key], suggestions)]
  {
    suggestions := suggestions0;
    for k := 0 to |records|
      invariant store.Valid()
      invariant suggestions == suggestions0 + records[..k]
      invariant store.collections == before[Key := AddedAll(before[Key], suggestions)]
    {
      Save(store, before, suggestions, records[k]);
      assert records[..k + 1] == records[..k] + [records[k]];
      suggestions := suggestions + [records[k]];
    }
    assert records[..|records|] == records;
  }

  /** Room left for a stage: `min(2, max_suggestions - len(suggestions))`. */
  function Room(max: nat, used: nat): nat
    requires used <= max
  {
    Min(StageCap, max - used)
  }

  /** The insights of a run: up to min(2, max) of the themes, and none unless
      insights were asked for. */
  function InsightStage(d: Data, plan: Plan, max: nat, now: string, newId: nat -> string): (r: seq<Item>)
    ensures |r| <= Min(StageCap, max)
  {
    var themes := Themes(Clusters(AllTexts(d)));
    if "insight" in plan.types && themes != [] then
      Insights(Take(themes, Room(max, 0)), plan.modules, now, newId, 0)
    else []
  }

  // ---------------------------------------------------------------------
  // Actions

  /** A gathered item as the action and connection stages carry it. */
  datatype Source = Source(id: string, text: string, moduleKey: string)

  /** The item's priority record (the first of the first 100 records with its
      item_id and module) has a `last_accessed` whose date part differs from
      today's. A truthy non-string timestamp has no `split` and raises. */
  function Stale(prios: seq<Item>, m: string, it: Item, today: string): (r: Result<bool, Error>)
    ensures r == Ok(true) <==>
      Priorities.RecordOf(prios, it.id, m).Some? &&
      var seen := Get(Priorities.RecordOf(prios, it.id, m).value.metadata, "last_accessed", Null);
      seen.Str? && seen.s != "" && DatePart(seen.s) != today
    ensures r.Err? ==> r.error.StoreFailure?
  {
    match Priorities.RecordOf(prios, it.id, m)
    case None => Ok(false)
    case Some(p) =>
      var seen := Get(p.metadata, "last_accessed", Null);
      if !Truthy(seen) then Ok(false)
      else if seen.Str? then Ok(DatePart(seen.s) != today)
      else Err(StoreFailure("AttributeError: 'last_accessed' has no attribute 'split'"))
  }

  /** The inactive items of one module, in order; the first failure aborts. */
  function InactiveIn(prios: seq<Item>, m: string, items: seq<Item>, today: string): Result<seq<Source>, Error> {
    if items == [] then Ok([])
    else
      var it := items[|items| - 1];
      match InactiveIn(prios, m, items[..|items| - 1], today)
      case Err(e) => Err(e)
      case Ok(found) =>
        match Stale(prios, m, it, today)
        case Err(e) => Err(e)
        case Ok(b) => Ok(if b then found + [Source(it.id, it.text, m)] else found)
  }

  /** `inactive_items` over every gathered module, in order. */
  function Inactive(prios: seq<Item>, d: Data, today: string): Result<seq<Source>, Error> {
    if d == [] then Ok([])
    else
      var last := d[|d| - 1];
      match Inactive(prios, d[..|d| - 1], today)
      case Err(e) => Err(e)
      case Ok(found) =>
        match InactiveIn(prios, last.0, last.1, today)
        case Err(e) => Err(e)
        case Ok(more) => Ok(found + more)
  }

  /** One module's scan finds exactly its stale items, and fails exactly when
      some item's timestamp cannot be split. */
  lemma {:induction false} InactiveInExactly(prios: seq<Item>, m: string, items: seq<Item>, today: string)
    ensures InactiveIn(prios, m, items, today).Err? <==> exists it :: it in items && Stale(prios, m, it, today).Err?
    ensures InactiveIn(prios, m, items, today).Ok? ==> forall s :: s in InactiveIn(prios, m, items, today).value <==>
      s.moduleKey == m && exists it :: (it in items && Stale(prios, m, it, today) == Ok(true) &&
        s == Source(it.id, it.text, m))
  {
    if items != [] {
      var init, it := items[..|items| - 1], items[|items| - 1];
      assert items == init + [it];
      InactiveInExactly(prios, m, init, today);
    }
  }

  /** A gathered (module, item) pair. */
  predicate Entry(d: Data, m: string, it: Item) {
    exists i :: 0 <= i < |d| && d[i].0 == m && it in d[i].1
  }

  /** The scan finds exactly the stale gathered items, and fails exactly when
      some gathered item's timestamp cannot be split. */
  lemma {:induction false} InactiveExactly(prios: seq<Item>, d: Data, today: string)
    ensures Inactive(prios, d, today).Err? <==> exists m, it :: Entry(d, m, it) && Stale(prios, m, it, today).Err?
    ensures Inactive(prios, d, today).Ok? ==> forall s :: s in Inactive(prios, d, today).value <==>
      exists it :: (Entry(d, s.moduleKey, it) && Stale(prios, s.moduleKey, it, today) == Ok(true) &&
        s == Source(it.id, it.text, s.moduleKey))
  {
    if d != [] {
      var init, last := d[..|d| - 1], d[|d| - 1];
      InactiveExactly(prios, init, today);
      InactiveInExactly(prios, last.0, last.1, today);
      EntrySnoc(d);
    }
  }

  /** The gathered pairs of `d` are those of all but its last module, and
      that module's items. */
  lemma EntrySnoc(d: Data)
    requires d != []
    ensures var init, last := d[..|d| - 1], d[|d| - 1];
      forall m, it :: Entry(d, m, it) <==> Entry(init, m, it) || (m == last.0 && it in last.1)
  {
    var init, last := d[..|d| - 1], d[|d| - 1];
    forall m, it | Entry(d, m, it) ensures Entry(init, m, it) || (m == last.0 && it in last.1) {
      var i :| 0 <= i < |d| && d[i].0 == m && it in d[i].1;
      if i < |init| { assert init[i] == d[i]; }
    }
    forall m, it | Entry(init, m, it) ensures Entry(d, m, it) {
      var i :| 0 <= i < |init| && init[i].0 == m && it in init[i].1;
      assert d[i] == init[i];
    }
    assert d[|d| - 1] == last;
  }

  lemma {:induction false} InactiveInSticks(prios: seq<Item>, m: string, items: seq<Item>, j: nat, today: string)
    requires j <= |items| && InactiveIn(prios, m, items[..j], today).Err?
    ensures InactiveIn(prios, m, items, today) == InactiveIn(prios, m, items[..j], today)
  {
    if j < |items| {
      var init := items[..|items| - 1];
      assert init[..j] == items[..j];
      InactiveInSticks(prios, m, init, j, today);
    } else {
      assert items[..j] == items;
    }
  }

  lemma {:induction false} InactiveSticks(prios: seq<Item>, d: Data, i: nat, today: string)
    requires i <= |d| && Inactive(prios, d[..i], today).Err?
    ensures Inactive(prios, d, today) == Inactive(prios, d[..i], today)
  {
    if i < |d| {
      var init := d[..|d| - 1];
      assert init[..i] == d[..i];
      InactiveSticks(prios, init, i, today);
    } else {
      assert d[..i] == d;
    }
  }

  /** `priority_records = list_items("priorities")` and the record lookup for
      one item, then the date comparison. */
  method CheckStale(store: VectorStore, m: string, it: Item, today: string) returns (r: Result<bool, Error>)
    requires Priorities.Key in store.collections
    ensures r == Stale(store.collections[Priorities.Key], m, it, today)
  {
    var records := store.ListItems(Priorities.Key, DefaultLimit, 0);
    ListAllSeesFirst100(store.collections[Priorities.Key]);
    var record := Priorities.FirstRecord(records.value, it.id, m);
    if record.None? {
      return Ok(false);
    }
    var seen := Get(record.value.metadata, "last_accessed", Null);
    if !Truthy(seen) {
      return Ok(false);
    }
    if !seen.Str? {
      return Err(StoreFailure("AttributeError: 'last_accessed' has no attribute 'split'"));
    }
    r := Ok(DatePart(seen.s) != today);
  }

  /** The inner loop of the scan, over one module's items. */
  method ScanModule(store: VectorStore, m: string, items: seq<Item>, today: string) returns (r: Result<seq<Source>, Error>)
    requires Priorities.Key in store.collections
    ensures r == InactiveIn(store.collections[Priorities.Key], m, items, today)
  {
    ghost var prios := store.collections[Priorities.Key];
    var found: seq<Source> := [];
    for j := 0 to |items|
      invariant InactiveIn(prios, m, items[..j], today) == Ok(found)
    {
      assert items[..j + 1][..j] == items[..j] && items[..j + 1][j] == items[j];
      var stale := CheckStale(store, m, items[j], today);
      if stale.Err? {
        InactiveInSticks(prios, m, items, j + 1, today);
        return Err(stale.error);
      }
      if stale.value {
        found := found + [Source(items[j].id, items[j].text, m)];
      }
    }
    assert items[..|items|] == items;
    r := Ok(found);
  }

  /** The outer loop of the scan, over the gathered modules. */
  method ScanInactive(store: VectorStore, d: Data, today: string) returns (r: Result<seq<Source>, Error>)
    requires Priorities.Key in store.collections
    ensures r == Inactive(store.collections[Priorities.Key], d, today)
  {
    ghost var prios := store.collections[Priorities.Key];
    var found: seq<Source> := [];
    for i := 0 to |d|
      invariant Inactive(prios, d[..i], today) == Ok(found)
    {
      assert d[..i + 1][..i] == d[..i] && d[..i + 1][i] == d[i];
      var more := ScanModule(store, d[i].0, d[i].1, today);
      if more.Err? {
        InactiveSticks(prios, d, i + 1, today);
        return Err(more.error);
      }
      found := found + more.value;
    }
    assert d[..|d|] == d;
    r := Ok(found);
  }

  function ActionText(t: string): string {
    "Revisa y actualiza el item: '" + Take(t, 100) + "...'"
  }

  /** An action names the inactive item and its module. */
  function Action(s: Source, id: string, now: string): Item {
    Item(id, ActionText(s.text), Stamped("action", "items inactivos", ActionRelevance, [s.moduleKey], [s.id], now))
  }

  function Actions(sources: seq<Source>, now: string, newId: nat -> string, base: nat): (r: seq<Item>)
    ensures |r| == |sources|
    ensures forall k :: 0 <= k < |sources| ==> r[k] == Action(sources[k], newId(base + k), now)
  {
    seq(|sources|, k requires 0 <= k < |sources| => Action(sources[k], newId(base + k), now))
  }

  /** The actions of a run, after `used` suggestions: the first inactive
      items, at most min(2, max - used); a failing scan fails the run. */
  function ActionStage(prios: seq<Item>, d: Data, plan: Plan, max: nat, used: nat, now: string,
                       newId: nat -> string): (r: Result<seq<Item>, Error>)
    requires used <= max
    ensures r.Ok? ==> |r.value| <= Room(max, used)
  {
    if "action" !in plan.types then Ok([])
    else
      match Inactive(prios, d, DatePart(now))
      case Err(e) => Err(e)
      case Ok(inactive) =>
        Ok(if inactive != [] then Actions(Take(inactive, Room(max, used)), now, newId, used) else [])
  }

  // ---------------------------------------------------------------------
  // Connections

  /** A candidate connection: both items (text shortened to 100 characters
      plus "...") and their similarity. */
  datatype Link = Link(item1: Source, item2: Source, similarity: real)

  function Excerpt(it: Item, m: string): Source {
    Source(it.id, Shorten(it.text), m)
  }

  /** `representative_items`: the first five items of each gathered module
      that has any. */
  function Reps(d: Data): Data {
    if d == [] then []
    else
      var last := d[|d| - 1];
      Reps(d[..|d| - 1]) + (if last.1 != [] then [(last.0, Take(last.1, RepresentativeCount))] else [])
  }

  method Representatives(d: Data) returns (reps: Data)
    ensures reps == Reps(d)
  {
    reps := [];
    for i := 0 to |d|
      invariant reps == Reps(d[..i])
    {
      assert d[..i + 1][..i] == d[..i] && d[..i + 1][i] == d[i];
      if d[i].1 != [] {
        reps := reps + [(d[i].0, Take(d[i].1, RepresentativeCount))];
      }
    }
    assert d[..|d|] == d;
  }

  /** The modules of `Reps` are the gathered modules with items, each with its
      first five items. */
  lemma {:induction false} RepsExactly(d: Data)
    ensures forall a :: a in Reps(d) <==> exists j :: 0 <= j < |d| && d[j].1 != [] && a == (d[j].0, Take(d[j].1, RepresentativeCount))
  {
    if d != [] {
      var init, last := d[..|d| - 1], d[|d| - 1];
      RepsExactly(init);
      forall a ensures a in Reps(d) <==> exists j :: 0 <= j < |d| && d[j].1 != [] && a == (d[j].0, Take(d[j].1, RepresentativeCount)) {
        if a in Reps(init) {
          var j :| 0 <= j < |init| && init[j].1 != [] && a == (init[j].0, Take(init[j].1, RepresentativeCount));
          assert d[j] == init[j];
        }
        if exists j :: 0 <= j < |d| && d[j].1 != [] && a == (d[j].0, Take(d[j].1, RepresentativeCount)) {
          var j :| 0 <= j < |d| && d[j].1 != [] && a == (d[j].0, Take(d[j].1, RepresentativeCount));
          if j < |init| { assert init[j] == d[j]; }
        }
      }
    }
  }

  /** `similarity >= 0.7` */
  predicate Similar(sim: Similarity, x: Item, y: Item) {
    sim(x.text, y.text) >= ConnectionThreshold
  }

  function Pair(sim: Similarity, m1: string, x: Item, m2: string, y: Item): Link {
    Link(Excerpt(x, m1), Excerpt(y, m2), sim(x.text, y.text))
  }

  /** The innermost loop: `x` against each item of the second module. */
  function Row(sim: Similarity, m1: string, x: Item, m2: string, ys: seq<Item>): seq<Link> {
    if ys == [] then []
    else
      var y := ys[|ys| - 1];
      Row(sim, m1, x, m2, ys[..|ys| - 1]) + (if Similar(sim, x, y) then [Pair(sim, m1, x, m2, y)] else [])
  }

  /** Every item of the first module against every item of the second. */
  function Cross(sim: Similarity, m1: string, xs: seq<Item>, m2: string, ys: seq<Item>): seq<Link> {
    if xs == [] then [] else Cross(sim, m1, xs[..|xs| - 1], m2, ys) + Row(sim, m1, xs[|xs| - 1], m2, ys)
  }

  /** One module against each module it precedes by name: `module1 >= module2`
      is skipped. */
  function Against(sim: Similarity, a: (string, seq<Item>), bs: Data): seq<Link> {
    if bs == [] then []
    else
      var b := bs[|bs| - 1];
      Against(sim, a, bs[..|bs| - 1]) + (if StrLess(a.0, b.0) then Cross(sim, a.0, a.1, b.0, b.1) else [])
  }

  /** `potential_connections`: every module of `as` against the modules of `bs`. */
  function Potential(sim: Similarity, firsts: Data, bs: Data): seq<Link> {
    if firsts == [] then [] else Potential(sim, firsts[..|firsts| - 1], bs) + Against(sim, firsts[|firsts| - 1], bs)
  }

  lemma {:induction false} RowExactly(sim: Similarity, m1: string, x: Item, m2: string, ys: seq<Item>)
    ensures forall l :: l in Row(sim, m1, x, m2, ys) <==>
      exists y :: y in ys && Similar(sim, x, y) && l == Pair(sim, m1, x, m2, y)
  {
    if ys != [] {
      var init := ys[..|ys| - 1];
      assert ys == init + [ys[|ys| - 1]];
      RowExactly(sim, m1, x, m2, init);
    }
  }

  lemma {:induction false} CrossExactly(sim: Similarity, m1: string, xs: seq<Item>, m2: string, ys: seq<Item>)
    ensures forall l :: l in Cross(sim, m1, xs, m2, ys) <==>
      exists x, y :: x in xs && y in ys && Similar(sim, x, y) && l == Pair(sim, m1, x, m2, y)
  {
    if xs != [] {
      var init := xs[..|xs| - 1];
      assert xs == init + [xs[|xs| - 1]];
      CrossExactly(sim, m1, init, m2, ys);
      RowExactly(sim, m1, xs[|xs| - 1], m2, ys);
    }
  }

  lemma {:induction false} AgainstExactly(sim: Similarity, a: (string, seq<Item>), bs: Data)
    ensures forall l :: l in Against(sim, a, bs) <==>
      exists b :: b in bs && StrLess(a.0, b.0) && l in Cross(sim, a.0, a.1, b.0, b.1)
  {
    if bs != [] {
      var init := bs[..|bs| - 1];
      assert bs == init + [bs[|bs| - 1]];
      AgainstExactly(sim, a, init);
    }
  }

  /** A candidate is exactly a similar pair of items from two modules whose
      names are in increasing order. */
  lemma {:induction false} PotentialExactly(sim: Similarity, firsts: Data, bs: Data)
    ensures forall l :: l in Potential(sim, firsts, bs) <==>
      exists a, b :: a in firsts && b in bs && StrLess(a.0, b.0) && l in Cross(sim, a.0, a.1, b.0, b.1)
  {
    if firsts != [] {
      var init, a := firsts[..|firsts| - 1], firsts[|firsts| - 1];
      assert firsts == init + [a];
      PotentialExactly(sim, init, bs);
      AgainstExactly(sim, a, bs);
    }
  }

  method LinksRow(sim: Similarity, m1: string, x: Item, m2: string, ys: seq<Item>) returns (links: seq<Link>)
    ensures links == Row(sim, m1, x, m2, ys)
  {
    links := [];
    for j := 0 to |ys|
      invariant links == Row(sim, m1, x, m2, ys[..j])
    {
      assert ys[..j + 1][..j] == ys[..j] && ys[..j + 1][j] == ys[j];
      var similarity := sim(x.text, ys[j].text);
      if similarity >= ConnectionThreshold {
        links := links + [Link(Excerpt(x, m1), Excerpt(ys[j], m2), similarity)];
      }
    }
    assert ys[..|ys|] == ys;
  }

  method LinksCross(sim: Similarity, m1: string, xs: seq<Item>, m2: string, ys: seq<Item>) returns (links: seq<Link>)
    ensures links == Cross(sim, m1, xs, m2, ys)
  {
    links := [];
    for i := 0 to |xs|
      invariant links == Cross(sim, m1, xs[..i], m2, ys)
    {
      assert xs[..i + 1][..i] == xs[..i] && xs[..i + 1][i] == xs[i];
      var row := LinksRow(sim, m1, xs[i], m2, ys);
      links := links + row;
    }
    assert xs[..|xs|] == xs;
  }

  method LinksAgainst(sim: Similarity, a: (string, seq<Item>), bs: Data) returns (links: seq<Link>)
    ensures links == Against(sim, a, bs)
  {
    links := [];
    for j := 0 to |bs|
      invariant links == Against(sim, a, bs[..j])
    {
      assert bs[..j + 1][..j] == bs[..j] && bs[..j + 1][j] == bs[j];
      if StrLess(a.0, bs[j].0) {
        var cross := LinksCross(sim, a.0, a.1, bs[j].0, bs[j].1);
        links := links + cross;
      }
    }
    assert bs[..|bs|] == bs;
  }

  method PotentialLinks(sim: Similarity, reps: Data) returns (links: seq<Link>)
    ensures links == Potential(sim, reps, reps)
  {
    links := [];
    for i := 0 to |reps|
      invariant links == Potential(sim, reps[..i], reps)
    {
      assert reps[..i + 1][..i] == reps[..i] && reps[..i + 1][i] == reps[i];
      var more := LinksAgainst(sim, reps[i], reps);
      links := links + more;
    }
    assert reps[..|reps|] == reps;
  }

  /** `key=lambda x: x["similarity"], reverse=True`: `a` may precede `b`. */
  predicate Stronger(a: Link, b: Link) {
    a.similarity >= b.similarity
  }

  lemma StrongerPreorder()
    ensures Sorting.TotalPreorder(Stronger)
  {
  }

  /** `sorted_connections`: most similar first, ties in discovery order. */
  function Ranked(links: seq<Link>): seq<Link> {
    Sorting.SortBy(links, Stronger)
  }

  function ConnectionText(l: Link): string {
    "Se ha detectado una posible conexión entre '" + l.item1.text + "' y '" + l.item2.text + "'"
  }

  /** A connection suggestion carries the pair's similarity as its relevance
      and names both modules and both items. */
  function ConnectionSuggestion(l: Link, id: string, now: string): Item {
    Item(id, ConnectionText(l),
         Stamped("connection", "conexiones entre módulos", l.similarity, [l.item1.moduleKey, l.item2.moduleKey],
                 [l.item1.id, l.item2.id], now))
  }

  function ConnectionSuggestions(links: seq<Link>, now: string, newId: nat -> string, base: nat): (r: seq<Item>)
    ensures |r| == |links|
    ensures forall k :: 0 <= k < |links| ==> r[k] == ConnectionSuggestion(links[k], newId(base + k), now)
  {
    seq(|links|, k requires 0 <= k < |links| => ConnectionSuggestion(links[k], newId(base + k), now))
  }

  /** The candidates of a run: only when connections were asked for and more
      than one module was named (repeats count). */
  function Candidates(sim: Similarity, d: Data, plan: Plan): seq<Link> {
    if "connection" in plan.types && |plan.modules| > 1 then Potential(sim, Reps(d), Reps(d)) else []
  }

  /** The connections of a run, after `used` suggestions: the strongest
      candidates, at most min(2, max - used). */
  function ConnectionStage(sim: Similarity, d: Data, plan: Plan, max: nat, used: nat, now: string,
                           newId: nat -> string): (r: seq<Item>)
    requires used <= max
    ensures |r| <= Room(max, used)
  {
    var links := Candidates(sim, d, plan);
    if links != [] then ConnectionSuggestions(Take(Ranked(links), Room(max, used)), now, newId, used) else []
  }

  // ---------------------------------------------------------------------
  // The run

  /** `[s["metadata"].get("type", "unknown") for s in suggestions]` */
  function TypesOf(ss: seq<Item>): (r: seq<Value>)
    ensures |r| == |ss| && forall i :: 0 <= i < |ss| ==> r[i] == Get(ss[i].metadata, "type", Str("unknown"))
  {
    seq(|ss|, i requires 0 <= i < |ss| => Get(ss[i].metadata, "type", Str("unknown")))
  }

  /** The response for the generated suggestions: those reaching the minimum
      relevance (when it is positive), at most `max_suggestions` of them, with
      the total and the per-kind counts taken from that final list. */
  function Outcome(generated: seq<Item>, req: SuggestionRequest): Result<SuggestionResult, Error> {
    match FilterAtLeast(generated, "relevance_score", req.minRelevance)
    case Err(e) => Err(e)
    case Ok(relevant) =>
      var kept := Take(relevant, req.maxSuggestions);
      Ok(SuggestionResult(kept, |kept|, Tally.Counter(TypesOf(kept))))
  }

  /** The stages in order: what they wrote, and the failure that ended them
      early, if any. */
  datatype Stages = Stages(failure: Option<Error>, written: seq<Item>)

  function RunStages(prios: seq<Item>, sim: Similarity, d: Data, plan: Plan, max: nat, now: string,
                     newId: nat -> string): Stages
  {
    var insights := InsightStage(d, plan, max, now, newId);
    match ActionStage(prios, d, plan, max, |insights|, now, newId)
    case Err(e) => Stages(Some(e), insights)
    case Ok(actions) =>
      var acted := insights + actions;
      Stages(None, acted + ConnectionStage(sim, d, plan, max, |acted|, now, newId))
  }

  lemma RunStagesFailed(prios: seq<Item>, sim: Similarity, d: Data, plan: Plan, max: nat, now: string,
                        newId: nat -> string)
    requires ActionStage(prios, d, plan, max, |InsightStage(d, plan, max, now, newId)|, now, newId).Err?
    ensures RunStages(prios, sim, d, plan, max, now, newId) == Stages(
      Some(ActionStage(prios, d, plan, max, |InsightStage(d, plan, max, now, newId)|, now, newId).error),
      InsightStage(d, plan, max, now, newId))
  {
  }

  lemma RunStagesDone(prios: seq<Item>, sim: Similarity, d: Data, plan: Plan, max: nat, now: string,
                      newId: nat -> string, insights: seq<Item>, actions: seq<Item>, acted: seq<Item>)
    requires insights == InsightStage(d, plan, max, now, newId)
    requires ActionStage(prios, d, plan, max, |insights|, now, newId) == Ok(actions)
    requires acted == insights + actions
    ensures |acted| <= max
    ensures RunStages(prios, sim, d, plan, max, now, newId) ==
      Stages(None, acted + ConnectionStage(sim, d, plan, max, |acted|, now, newId))
  {
  }

  /** `get_suggestions` over the collections as they are when it starts. A
      failing inactivity scan ends the run after the insights were stored. */
  function Suggest(cols: map<string, seq<Item>>, sim: Similarity, req: SuggestionRequest, now: string,
                   newId: nat -> string): Generation
    requires Priorities.Shaped(cols)
  {
    match Checked(req)
    case Err(e) => Generation(Err(e), [])
    case Ok(plan) =>
      var st := RunStages(cols[Priorities.Key], sim, Gathered(cols, plan.modules), plan, req.maxSuggestions, now, newId);
      if st.failure.Some? then Generation(Err(st.failure.value), st.written)
      else Generation(Outcome(st.written, req), st.written)
  }

  /** A request that fails validation writes nothing. */
  lemma SuggestRejected(cols: map<string, seq<Item>>, sim: Similarity, req: SuggestionRequest, now: string,
                        newId: nat -> string)
    requires Priorities.Shaped(cols) && Checked(req).Err?
    ensures Suggest(cols, sim, req, now, newId) == Generation(Err(Checked(req).error), [])
  {
  }

  /** A run whose inactivity scan fails keeps the insights it stored. */
  lemma SuggestFailed(cols: map<string, seq<Item>>, sim: Similarity, req: SuggestionRequest, now: string,
                      newId: nat -> string, plan: Plan, d: Data, insights: seq<Item>, e: Error)
    requires Priorities.Shaped(cols) && Checked(req) == Ok(plan) && d == Gathered(cols, plan.modules)
    requires insights == InsightStage(d, plan, req.maxSuggestions, now, newId)
    requires ActionStage(cols[Priorities.Key], d, plan, req.maxSuggestions, |insights|, now, newId) == Err(e)
    ensures Suggest(cols, sim, req, now, newId) == Generation(Err(e), insights)
  {
    RunStagesFailed(cols[Priorities.Key], sim, d, plan, req.maxSuggestions, now, newId);
  }

  /** A run that gets through every stage answers with the outcome of all it
      stored. */
  lemma SuggestCompleted(cols: map<string, seq<Item>>, sim: Similarity, req: SuggestionRequest, now: string,
                         newId: nat -> string, plan: Plan, d: Data, insights: seq<Item>, actions: seq<Item>,
                         acted: seq<Item>, written: seq<Item>)
    requires Priorities.Shaped(cols) && Checked(req) == Ok(plan) && d == Gathered(cols, plan.modules)
    requires insights == InsightStage(d, plan, req.maxSuggestions, now, newId)
    requires ActionStage(cols[Priorities.Key], d, plan, req.maxSuggestions, |insights|, now, newId) == Ok(actions)
    requires acted == insights + actions && |acted| <= req.maxSuggestions
    requires written == acted + ConnectionStage(sim, d, plan, req.maxSuggestions, |acted|, now, newId)
    ensures Suggest(cols, sim, req, now, newId) == Generation(Outcome(written, req), written)
  {
    RunStagesDone(cols[Priorities.Key], sim, d, plan, req.maxSuggestions, now, newId, insights, actions, acted);
  }

  /** The store as a stage leaves it: the suggestions collection has gained
      `written` and nothing else changed. */
  ghost predicate Wrote(store: VectorStore, before: map<string, seq<Item>>, written: seq<Item>)
    reads store
  {
    store.Valid() && Key in before && store.collections == before[Key := AddedAll(before[Key], written)]
  }

  method InsightPhase(store: VectorStore, ghost before: map<string, seq<Item>>, d: Data, plan: Plan, max: nat,
                      now: string, newId: nat -> string) returns (suggestions: seq<Item>)
    requires Wrote(store, before, [])
    modifies store
    ensures suggestions == InsightStage(d, plan, max, now, newId)
    ensures Wrote(store, before, suggestions)
  {
    var texts := CollectTexts(d);
    var themes: seq<string> := [];
    if texts != [] {
      var clusters := BuildClusters(texts);
      themes := MainThemes(clusters);
    }
    assert themes == Themes(Clusters(texts));
    suggestions := [];
    if "insight" in plan.types && themes != [] {
      suggestions := Emit(store, before, suggestions, Insights(Take(themes, Room(max, 0)), plan.modules, now, newId, 0));
    }
  }

  method ActionPhase(store: VectorStore, ghost before: map<string, seq<Item>>, d: Data, plan: Plan, max: nat,
                     now: string, newId: nat -> string, suggestions0: seq<Item>) returns (r: Result<seq<Item>, Error>)
    requires Wrote(store, before, suggestions0) && Priorities.Key in before && Priorities.Key != Key
    requires |suggestions0| <= max
    modifies store
    ensures var stage := ActionStage(before[Priorities.Key], d, plan, max, |suggestions0|, now, newId);
      (stage.Err? ==> r == stage && Wrote(store, before, suggestions0)) &&
      (stage.Ok? ==> r == Ok(suggestions0 + stage.value) && Wrote(store, before, r.value))
    ensures r.Ok? ==> |r.value| <= max
  {
    assert store.collections[Priorities.Key] == before[Priorities.Key];
    var actions: seq<Item> := [];
    if "action" in plan.types {
      var inactive := ScanInactive(store, d, DatePart(now));
      if inactive.Err? {
        return Err(inactive.error);
      }
      if inactive.value != [] {
        actions := Actions(Take(inactive.value, Room(max, |suggestions0|)), now, newId, |suggestions0|);
      }
    }
    var suggestions := Emit(store, before, suggestions0, actions);
    r := Ok(suggestions);
  }

  method ConnectionPhase(store: VectorStore, ghost before: map<string, seq<Item>>, sim: Similarity, d: Data,
                         plan: Plan, max: nat, now: string, newId: nat -> string, suggestions0: seq<Item>)
    returns (suggestions: seq<Item>)
    requires Wrote(store, before, suggestions0) && |suggestions0| <= max
    modifies store
    ensures suggestions == suggestions0 + ConnectionStage(sim, d, plan, max, |suggestions0|, now, newId)
    ensures Wrote(store, before, suggestions)
  {
    var connections: seq<Item> := [];
    if "connection" in plan.types && |plan.modules| > 1 {
      var reps := Representatives(d);
      var links := PotentialLinks(sim, reps);
      if links != [] {
        var ranked := Ranked(links);
        connections := ConnectionSuggestions(Take(ranked, Room(max, |suggestions0|)), now, newId, |suggestions0|);
      }
    }
    suggestions := Emit(store, before, suggestions0, connections);
  }

  /** `POST /sugerencias/obtener`. */
  method GetSuggestions(store: VectorStore, sim: Similarity, req: SuggestionRequest, now: string, newId: nat -> string)
    returns (r: Result<SuggestionResult, Error>)
    requires store.Valid()
    modifies store
    ensures store.Valid() && Priorities.Shaped(old(store.collections))
    ensures var g := Suggest(old(store.collections), sim, req, now, newId);
      r == g.result && store.collections == old(store.collections)[Key := AddedAll(old(store.collections)[Key], g.written)]
  {
    ghost var before := store.collections;
    assert Priorities.Key in CollectionKeys && Key in CollectionKeys;
    assert forall m :: m in AnalyzableModules ==> m in CollectionKeys;
    assert before[Key := AddedAll(before[Key], [])] == before;
    var checked := Checked(req);
    if checked.Err? {
      SuggestRejected(before, sim, req, now, newId);
      return Err(checked.error);
    }
    var plan := checked.value;
    var d := GatherData(store, plan.modules);
    var insights := InsightPhase(store, before, d, plan, req.maxSuggestions, now, newId);
    ghost var stage := ActionStage(before[Priorities.Key], d, plan, req.maxSuggestions, |insights|, now, newId);
    var acted := ActionPhase(store, before, d, plan, req.maxSuggestions, now, newId, insights);
    if acted.Err? {
      SuggestFailed(before, sim, req, now, newId, plan, d, insights, acted.error);
      return Err(acted.error);
    }
    ghost var actions := stage.value;
    assert acted.value == insights + actions;
    var suggestions := ConnectionPhase(store, before, sim, d, plan, req.maxSuggestions, now, newId, acted.value);
    SuggestCompleted(before, sim, req, now, newId, plan, d, insights, actions, acted.value, suggestions);
    var filtered := FilterAtLeast(suggestions, "relevance_score", req.minRelevance);
    if filtered.Err? {
      r := Err(filtered.error);
    } else {
      var kept := Take(filtered.value, req.maxSuggestions);
      r := Ok(SuggestionResult(kept, |kept|, Tally.Counter(TypesOf(kept))));
    }
    assert r == Outcome(suggestions, req);
  }

  // ---------------------------------------------------------------------
  // Properties of the stages

  /** The fields of a generated suggestion that the response reads back. */
  lemma StampedFields(kind: string, context: string, relevance: real, modules: seq<string>, items: seq<string>,
                      now: string)
    ensures var md := Stamped(kind, context, relevance, modules, items, now);
      Get(md, "relevance_score", Num(0.0)) == Num(relevance) && Get(md, "type", Str("unknown")) == Str(kind) &&
      Get(md, "source_modules", Null) == List(Strs(modules)) && Get(md, "source_items", Null) == List(Strs(items)) &&
      Get(md, "is_implemented", Null) == Bool(false)
  {
  }

  /** The insights of a run: with n gathered texts, min(2, max) of the
      min(5, n - 5) themes (none when insights were not asked for), the k-th
      on the k-th gathered text and with the k-th generated id. */
  lemma InsightStageFacts(d: Data, plan: Plan, max: nat, now: string, newId: nat -> string)
    ensures var texts, r := AllTexts(d), InsightStage(d, plan, max, now, newId);
      |r| == (if "insight" in plan.types then Min(Room(max, 0), ThemeCount(|texts|)) else 0) &&
      forall k :: 0 <= k < |r| ==> r[k] == Insight(Theme(texts[k]), plan.modules, newId(k), now)
  {
    var texts := AllTexts(d);
    ThemesExactly(texts);
  }

  /** The actions of a run: none unless asked for; otherwise the scan fails
      exactly when some gathered item's timestamp cannot be split, and else
      there are min(2, max - used) of the inactive items, each from a gathered
      item whose priority record was last accessed on another day, carrying
      the id generated for its position. */
  lemma ActionStageFacts(prios: seq<Item>, d: Data, plan: Plan, max: nat, used: nat, now: string,
                         newId: nat -> string)
    requires used <= max
    ensures var r, today := ActionStage(prios, d, plan, max, used, now, newId), DatePart(now);
      ("action" !in plan.types ==> r == Ok([])) &&
      (r.Err? <==> "action" in plan.types && exists m, it :: Entry(d, m, it) && Stale(prios, m, it, today).Err?) &&
      (r.Err? ==> r.error.StoreFailure?) &&
      (r.Ok? && "action" in plan.types ==>
        Inactive(prios, d, today).Ok? && |r.value| == Min(Room(max, used), |Inactive(prios, d, today).value|)) &&
      (r.Ok? ==> forall k :: 0 <= k < |r.value| ==> ActsOnStale(prios, d, today, r.value[k], newId(used + k), now))
  {
    var today := DatePart(now);
    InactiveExactly(prios, d, today);
    InactiveFailure(prios, d, today);
    var r := ActionStage(prios, d, plan, max, used, now, newId);
    if r.Ok? && "action" in plan.types {
      var inactive := Inactive(prios, d, today).value;
      var chosen := Take(inactive, Room(max, used));
      forall k | 0 <= k < |r.value| ensures ActsOnStale(prios, d, today, r.value[k], newId(used + k), now) {
        assert r.value[k] == Action(chosen[k], newId(used + k), now);
        assert chosen[k] in inactive;
      }
    } else if "action" !in plan.types {
      assert r.value == [];
    }
  }

  /** `a` is the action, with the given id, for a gathered item whose priority
      record was last accessed on another day. */
  ghost predicate ActsOnStale(prios: seq<Item>, d: Data, today: string, a: Item, id: string, now: string) {
    exists m, it :: Entry(d, m, it) && Stale(prios, m, it, today) == Ok(true) &&
      a == Action(Source(it.id, it.text, m), id, now)
  }

  lemma {:induction false} InactiveInFailure(prios: seq<Item>, m: string, items: seq<Item>, today: string)
    ensures InactiveIn(prios, m, items, today).Err? ==> InactiveIn(prios, m, items, today).error.StoreFailure?
  {
    if items != [] {
      InactiveInFailure(prios, m, items[..|items| - 1], today);
    }
  }

  /** A failing scan is a server error. */
  lemma {:induction false} InactiveFailure(prios: seq<Item>, d: Data, today: string)
    ensures Inactive(prios, d, today).Err? ==> Inactive(prios, d, today).error.StoreFailure?
  {
    if d != [] {
      InactiveFailure(prios, d[..|d| - 1], today);
      InactiveInFailure(prios, d[|d| - 1].0, d[|d| - 1].1, today);
    }
  }

  /** `l` pairs a similar x and y among the first five items of two gathered
      modules whose names are in increasing order. */
  ghost predicate Linked(sim: Similarity, d: Data, l: Link) {
    exists i, j, x, y :: 0 <= i < |d| && 0 <= j < |d| && StrLess(d[i].0, d[j].0) &&
      x in Take(d[i].1, RepresentativeCount) && y in Take(d[j].1, RepresentativeCount) &&
      Similar(sim, x, y) && l == Pair(sim, d[i].0, x, d[j].0, y)
  }

  /** A pair found between two representative groups is linked. */
  lemma CrossLinked(sim: Similarity, d: Data, a: (string, seq<Item>), b: (string, seq<Item>), l: Link)
    requires a in Reps(d) && b in Reps(d) && StrLess(a.0, b.0) && l in Cross(sim, a.0, a.1, b.0, b.1)
    ensures Linked(sim, d, l)
  {
    RepsExactly(d);
    var i :| 0 <= i < |d| && d[i].1 != [] && a == (d[i].0, Take(d[i].1, RepresentativeCount));
    var j :| 0 <= j < |d| && d[j].1 != [] && b == (d[j].0, Take(d[j].1, RepresentativeCount));
    CrossExactly(sim, a.0, a.1, b.0, b.1);
    var x, y :| x in a.1 && y in b.1 && Similar(sim, x, y) && l == Pair(sim, a.0, x, b.0, y);
  }

  /** A linked pair is found between two representative groups. */
  lemma LinkedFound(sim: Similarity, d: Data, l: Link)
    requires Linked(sim, d, l)
    ensures l in Potential(sim, Reps(d), Reps(d))
  {
    var reps := Reps(d);
    var i, j, x, y :| 0 <= i < |d| && 0 <= j < |d| && StrLess(d[i].0, d[j].0) &&
      x in Take(d[i].1, RepresentativeCount) && y in Take(d[j].1, RepresentativeCount) &&
      Similar(sim, x, y) && l == Pair(sim, d[i].0, x, d[j].0, y);
    var a, b := (d[i].0, Take(d[i].1, RepresentativeCount)), (d[j].0, Take(d[j].1, RepresentativeCount));
    RepsExactly(d);
    assert a in reps && b in reps;
    CrossExactly(sim, a.0, a.1, b.0, b.1);
    assert l in Cross(sim, a.0, a.1, b.0, b.1);
    PotentialExactly(sim, reps, reps);
  }

  /** The candidates are exactly the linked pairs, when connections were asked
      for and more than one module was named. */
  lemma CandidatesExactly(sim: Similarity, d: Data, plan: Plan)
    ensures forall l :: l in Candidates(sim, d, plan) <==>
      "connection" in plan.types && |plan.modules| > 1 && Linked(sim, d, l)
  {
    if "connection" in plan.types && |plan.modules| > 1 {
      var reps := Reps(d);
      PotentialExactly(sim, reps, reps);
      forall l | l in Potential(sim, reps, reps) ensures Linked(sim, d, l) {
        var a, b :| a in reps && b in reps && StrLess(a.0, b.0) && l in Cross(sim, a.0, a.1, b.0, b.1);
        CrossLinked(sim, d, a, b, l);
      }
      forall l | Linked(sim, d, l) ensures l in Potential(sim, reps, reps) {
        LinkedFound(sim, d, l);
      }
    }
  }

  /** A candidate is at least 0.7 similar, and its mirror image (the same two
      items the other way round) never is one. */
  lemma LinkedFacts(sim: Similarity, d: Data, l: Link)
    requires Linked(sim, d, l)
    ensures l.similarity >= ConnectionThreshold
    ensures StrLess(l.item1.moduleKey, l.item2.moduleKey)
    ensures !Linked(sim, d, Link(l.item2, l.item1, l.similarity))
  {
    if Linked(sim, d, Link(l.item2, l.item1, l.similarity)) {
      var i, j, x, y :| 0 <= i < |d| && 0 <= j < |d| && StrLess(d[i].0, d[j].0) &&
        x in Take(d[i].1, RepresentativeCount) && y in Take(d[j].1, RepresentativeCount) &&
        Similar(sim, x, y) && Link(l.item2, l.item1, l.similarity) == Pair(sim, d[i].0, x, d[j].0, y);
      StrLessAsymmetric(l.item1.moduleKey, l.item2.moduleKey);
      assert false;
    }
  }

  /** The first n candidates by similarity. */
  function Strongest(links: seq<Link>, n: nat): seq<Link> {
    Take(Ranked(links), n)
  }

  /** The selection holds min(n, |links|) of the links, most similar first,
      and no link left out is more similar than one selected. */
  lemma StrongestFacts(links: seq<Link>, n: nat)
    ensures var p := Strongest(links, n);
      |p| == Min(n, |links|) && Sorting.SortedBy(p, Stronger) && multiset(p) <= multiset(links) &&
      forall y, x :: y in p && x in links && x !in p ==> x.similarity <= y.similarity
  {
    StrongerPreorder();
    Sorting.SortedPrefix(links, Min(n, |links|), Stronger);
  }

  /** Equally similar links keep the order in which they were found. */
  lemma RankedStable(links: seq<Link>, y: Link)
    ensures Sorting.TiesWith(Ranked(links), Stronger, y) == Sorting.TiesWith(links, Stronger, y)
  {
    StrongerPreorder();
    Sorting.SortByStable(links, Stronger, y);
  }

  /** The connections of a run: the min(2, max - used) strongest candidates,
      the k-th with the id generated for position used + k. */
  lemma ConnectionStageFacts(sim: Similarity, d: Data, plan: Plan, max: nat, used: nat, now: string,
                             newId: nat -> string)
    requires used <= max
    ensures var r, links := ConnectionStage(sim, d, plan, max, used, now, newId), Candidates(sim, d, plan);
      |r| == Min(Room(max, used), |links|) &&
      forall k :: 0 <= k < |r| ==>
        r[k] == ConnectionSuggestion(Strongest(links, Room(max, used))[k], newId(used + k), now)
  {
    StrongestFacts(Candidates(sim, d, plan), Room(max, used));
  }

  // ---------------------------------------------------------------------
  // Properties of a run

  /** The stored relevance is a number, so the response filter can compare it. */
  ghost predicate Scored(s: Item) {
    Get(s.metadata, "relevance_score", Num(0.0)).Num?
  }

  /** Each generated suggestion of a stage that starts at position `base`
      carries the id generated for its position and a numeric relevance. */
  ghost predicate WellStamped(ss: seq<Item>, base: nat, newId: nat -> string) {
    forall k :: 0 <= k < |ss| ==> ss[k].id == newId(base + k) && Scored(ss[k])
  }

  lemma InsightsStamped(d: Data, plan: Plan, max: nat, now: string, newId: nat -> string)
    ensures WellStamped(InsightStage(d, plan, max, now, newId), 0, newId)
  {
    var r := InsightStage(d, plan, max, now, newId);
    forall k | 0 <= k < |r| ensures r[k].id == newId(k) && Scored(r[k]) {
      var themes := Themes(Clusters(AllTexts(d)));
      var chosen := Take(themes, Room(max, 0));
      assert r[k] == Insight(chosen[k], plan.modules, newId(k), now);
      StampedFields("insight", "análisis de temas", InsightRelevance, plan.modules, [], now);
    }
  }

  lemma ActionsStamped(prios: seq<Item>, d: Data, plan: Plan, max: nat, used: nat, now: string,
                       newId: nat -> string)
    requires used <= max && ActionStage(prios, d, plan, max, used, now, newId).Ok?
    ensures WellStamped(ActionStage(prios, d, plan, max, used, now, newId).value, used, newId)
  {
    var r := ActionStage(prios, d, plan, max, used, now, newId).value;
    forall k | 0 <= k < |r| ensures r[k].id == newId(used + k) && Scored(r[k]) {
      var chosen := Take(Inactive(prios, d, DatePart(now)).value, Room(max, used));
      assert r[k] == Action(chosen[k], newId(used + k), now);
      StampedFields("action", "items inactivos", ActionRelevance, [chosen[k].moduleKey], [chosen[k].id], now);
    }
  }

  lemma ConnectionsStamped(sim: Similarity, d: Data, plan: Plan, max: nat, used: nat, now: string,
                           newId: nat -> string)
    requires used <= max
    ensures WellStamped(ConnectionStage(sim, d, plan, max, used, now, newId), used, newId)
  {
    var r := ConnectionStage(sim, d, plan, max, used, now, newId);
    forall k | 0 <= k < |r| ensures r[k].id == newId(used + k) && Scored(r[k]) {
      var chosen := Take(Ranked(Candidates(sim, d, plan)), Room(max, used));
      var l := chosen[k];
      assert r[k] == ConnectionSuggestion(l, newId(used + k), now);
      StampedFields("connection", "conexiones entre módulos", l.similarity, [l.item1.moduleKey, l.item2.moduleKey],
                    [l.item1.id, l.item2.id], now);
    }
  }

  lemma WellStampedAppend(a: seq<Item>, b: seq<Item>, newId: nat -> string)
    requires WellStamped(a, 0, newId) && WellStamped(b, |a|, newId)
    ensures WellStamped(a + b, 0, newId)
  {
    forall k | 0 <= k < |a + b| ensures (a + b)[k].id == newId(k) && Scored((a + b)[k]) {
      if k >= |a| {
        assert (a + b)[k] == b[k - |a|];
      } else {
        assert (a + b)[k] == a[k];
      }
    }
  }

  /** A run stores at most `max_suggestions` suggestions and at most two of
      each kind, the k-th with the k-th generated id and a numeric relevance;
      a failure is a server error raised after only the insights were stored. */
  lemma RunStagesFacts(prios: seq<Item>, sim: Similarity, d: Data, plan: Plan, max: nat, now: string,
                       newId: nat -> string)
    ensures var st := RunStages(prios, sim, d, plan, max, now, newId);
      |st.written| <= max && |st.written| <= 3 * StageCap &&
      WellStamped(st.written, 0, newId) &&
      (st.failure.Some? ==> st.failure.value.StoreFailure? && st.written == InsightStage(d, plan, max, now, newId))
  {
    var insights := InsightStage(d, plan, max, now, newId);
    InsightsStamped(d, plan, max, now, newId);
    var stage := ActionStage(prios, d, plan, max, |insights|, now, newId);
    if stage.Err? {
      RunStagesFailed(prios, sim, d, plan, max, now, newId);
      ActionStageFacts(prios, d, plan, max, |insights|, now, newId);
    } else {
      var acted := insights + stage.value;
      RunStagesDone(prios, sim, d, plan, max, now, newId, insights, stage.value, acted);
      ActionsStamped(prios, d, plan, max, |insights|, now, newId);
      WellStampedAppend(insights, stage.value, newId);
      ConnectionsStamped(sim, d, plan, max, |acted|, now, newId);
      WellStampedAppend(acted, ConnectionStage(sim, d, plan, max, |acted|, now, newId), newId);
    }
  }

  /** The response keeps, in generation order, at most `max_suggestions` of
      the generated suggestions that reach the minimum relevance (all of them
      when it is not positive), and reports their number and, for each kind,
      how many of them have it. It fails only on a relevance `>=` cannot
      compare. */
  lemma OutcomeFacts(generated: seq<Item>, req: SuggestionRequest)
    ensures (forall s :: s in generated ==> Scored(s)) ==> Outcome(generated, req).Ok?
    ensures Outcome(generated, req).Ok? ==> var res := Outcome(generated, req).value;
      |res.suggestions| <= req.maxSuggestions && res.total == |res.suggestions| &&
      (forall s :: s in res.suggestions ==>
        (s in generated && (req.minRelevance <= 0.0 ||
         AtLeastNumber(Get(s.metadata, "relevance_score", Num(0.0)), req.minRelevance) == Ok(true)))) &&
      (req.minRelevance <= 0.0 ==> res.suggestions == Take(generated, req.maxSuggestions)) &&
      (forall t :: Tally.Lookup(res.byType, t) == Tally.Count(TypesOf(res.suggestions), t)) &&
      (forall t :: t in Tally.Keys(res.byType) <==> t in TypesOf(res.suggestions)) &&
      Tally.Sum(res.byType) == res.total
  {
    var relevant := FilterAtLeast(generated, "relevance_score", req.minRelevance);
    if relevant.Ok? {
      var kept := Take(relevant.value, req.maxSuggestions);
      Tally.CounterCorrect(TypesOf(kept));
      assert forall s :: s in kept ==> s in relevant.value;
    }
  }

  /** `get_suggestions` as a whole: a rejected request stores nothing and is a
      client error; any other failure is a server error; a response is the
      outcome of everything the run stored. A run stores at most
      `max_suggestions` suggestions, the k-th under the k-th generated id. */
  lemma SuggestFacts(cols: map<string, seq<Item>>, sim: Similarity, req: SuggestionRequest, now: string,
                     newId: nat -> string)
    requires Priorities.Shaped(cols)
    ensures var g := Suggest(cols, sim, req, now, newId);
      (Checked(req).Err? ==> g.result.Err? && g.result.error.InvalidInput? && g.written == []) &&
      (Checked(req).Ok? && g.result.Err? ==> g.result.error.StoreFailure?) &&
      (g.result.Ok? ==> g.result == Outcome(g.written, req)) &&
      |g.written| <= req.maxSuggestions && |g.written| <= 3 * StageCap &&
      forall k :: 0 <= k < |g.written| ==> g.written[k].id == newId(k)
  {
    if Checked(req).Ok? {
      var plan := Checked(req).value;
      var st := RunStages(cols[Priorities.Key], sim, Gathered(cols, plan.modules), plan, req.maxSuggestions, now, newId);
      RunStagesFacts(cols[Priorities.Key], sim, Gathered(cols, plan.modules), plan, req.maxSuggestions, now, newId);
      if st.failure.None? {
        OutcomeFacts(st.written, req);
      }
    }
  }

  /** With generated ids that are distinct and not already stored, every
      generated suggestion is appended to the collection, in order. */
  lemma SuggestStoresAll(cols: map<string, seq<Item>>, sim: Similarity, req: SuggestionRequest, now: string,
                         newId: nat -> string)
    requires Priorities.Shaped(cols) && Key in cols
    requires forall i, j :: 0 <= i < j ==> newId(i) != newId(j)
    requires forall i :: !HasId(cols[Key], newId(i))
    ensures var written := Suggest(cols, sim, req, now, newId).written;
      AddedAll(cols[Key], written) == cols[Key] + written
  {
    var written := Suggest(cols, sim, req, now, newId).written;
    SuggestFacts(cols, sim, req, now, newId);
    AddedAllFresh(cols[Key], written);
  }

  // ---------------------------------------------------------------------
  // The other endpoints

  /** `POST /sugerencias/analizar`: a run over the given modules with at most
      ten suggestions in all, every kind allowed, and a minimum relevance of 0.5. */
  function AnalysisRequest(modules: Option<seq<string>>): SuggestionRequest {
    SuggestionRequest(modules, 10, None, 0.5)
  }

  method AnalyzeData(store: VectorStore, sim: Similarity, modules: Option<seq<string>>, now: string,
                     newId: nat -> string) returns (r: Result<SuggestionResult, Error>)
    requires store.Valid()
    modifies store
    ensures store.Valid()
    ensures var g := Suggest(old(store.collections), sim, AnalysisRequest(modules), now, newId);
      r == g.result && store.collections == old(store.collections)[Key := AddedAll(old(store.collections)[Key], g.written)]
  {
    r := GetSuggestions(store, sim, AnalysisRequest(modules), now, newId);
  }

  /** An analysis answers with at most ten suggestions, each at least 0.5
      relevant. */
  lemma AnalysisFacts(cols: map<string, seq<Item>>, sim: Similarity, modules: Option<seq<string>>, now: string,
                      newId: nat -> string)
    requires Priorities.Shaped(cols)
    ensures var g := Suggest(cols, sim, AnalysisRequest(modules), now, newId);
      g.result.Ok? ==> (|g.result.value.suggestions| <= 10 &&
        forall s :: s in g.result.value.suggestions ==>
          AtLeastNumber(Get(s.metadata, "relevance_score", Num(0.0)), 0.5) == Ok(true))
  {
    var req := AnalysisRequest(modules);
    SuggestFacts(cols, sim, req, now, newId);
    OutcomeFacts(Suggest(cols, sim, req, now, newId).written, req);
  }

  /** `GET /sugerencias/listar`: the first 100 stored suggestions through the
      kind, implementation-state and minimum-relevance filters, then paged. */
  method ListSuggestions(store: VectorStore, limit: nat, offset: nat, kind: string, isImplemented: Option<bool>,
                         minRelevance: real) returns (r: Result<ItemList, Error>)
    requires store.Valid() && 1 <= limit <= 1000 && 0.0 <= minRelevance <= 1.0
    ensures var byState := FilterBool(FilterEq(Take(store.collections[Key], DefaultLimit), "type", kind),
                                      "is_implemented", isImplemented);
      var relevant := FilterAtLeast(byState, "relevance_score", minRelevance);
      (relevant.Ok? ==> r == Ok(PageOf(relevant.value, limit, offset))) &&
      (relevant.Err? ==> r == Err(relevant.error))
    ensures r.Ok? ==> |r.value.items| <= limit && r.value.total <= DefaultLimit
    ensures r.Ok? ==> forall it :: it in r.value.items ==>
      it in store.collections[Key] && MatchesEq(it, "type", kind) && MatchesBool(it, "is_implemented", isImplemented) &&
      (minRelevance <= 0.0 || AtLeastNumber(Get(it.metadata, "relevance_score", Num(0.0)), minRelevance) == Ok(true))
  {
    var all := store.ListItems(Key, DefaultLimit, 0);
    ListAllSeesFirst100(store.collections[Key]);
    var byState := FilterBool(FilterEq(all.value, "type", kind), "is_implemented", isImplemented);
    var relevant := FilterAtLeast(byState, "relevance_score", minRelevance);
    if relevant.Err? {
      return Err(relevant.error);
    }
    var page := PageOf(relevant.value, limit, offset);
    forall it | it in page.items
      ensures it in store.collections[Key] && MatchesEq(it, "type", kind) &&
        MatchesBool(it, "is_implemented", isImplemented) &&
        (minRelevance <= 0.0 || AtLeastNumber(Get(it.metadata, "relevance_score", Num(0.0)), minRelevance) == Ok(true))
    {
      var k :| 0 <= k < |page.items| && page.items[k] == it;
      assert it in relevant.value && it in byState;
    }
    r := Ok(page);
  }

  /** `PUT /sugerencias/{id}`: the shared update (text kept when absent,
      metadata merged with `updated_at` refreshed when supplied). */
  method UpdateSuggestion(store: VectorStore, id: string, text: Option<string>, changes: Option<Metadata>,
                          now: string) returns (r: Result<Item, Error>)
    requires store.Valid()
    modifies store
    ensures store.Valid()
    ensures Crud.Updated(old(store.collections), store.collections, Key, id, text, changes, now, r)
  {
    r := Crud.Update(store, Key, id, text, changes, now);
  }

  /** The changes that marking a suggestion implemented makes. */
  function Implementation(now: string): Metadata {
    map["is_implemented" := Bool(true), "implementation_date" := Str(now)]
  }

  /** `metadata.copy()` with the implementation flag set and both timestamps
      at `now`. */
  function ImplementedMetadata(current: Metadata, now: string): Metadata {
    current["is_implemented" := Bool(true)]["implementation_date" := Str(now)]["updated_at" := Str(now)]
  }

  /** Marking is the partial update with the implementation changes. */
  lemma ImplementedIsUpdate(current: Metadata, now: string)
    ensures ImplementedMetadata(current, now) == Merged(current, Implementation(now), now)
  {
    var a, b := ImplementedMetadata(current, now), Merged(current, Implementation(now), now);
    assert a.Keys == b.Keys;
    forall k | k in a ensures a[k] == b[k] {
      if k != "updated_at" && k != "is_implemented" && k != "implementation_date" {
        assert a[k] == current[k];
      }
    }
  }

  /** Marking again only moves the dates. */
  lemma ImplementedAgain(current: Metadata, earlier: string, now: string)
    ensures ImplementedMetadata(ImplementedMetadata(current, earlier), now) == ImplementedMetadata(current, now)
  {
  }

  /** `POST /sugerencias/{id}/implementar`: an absent suggestion is NotFound and
      nothing changes; otherwise the text is kept and the metadata marked. */
  method MarkAsImplemented(store: VectorStore, id: string, now: string) returns (r: Result<Item, Error>)
    requires store.Valid()
    modifies store
    ensures store.Valid()
    ensures Crud.Updated(old(store.collections), store.collections, Key, id, None, Some(Implementation(now)), now, r)
    ensures r.Ok? ==> (r.value.id == id && Get(r.value.metadata, "is_implemented", Null) == Bool(true) &&
      Get(r.value.metadata, "implementation_date", Null) == Str(now))
  {
    var found := store.GetItem(Key, id);
    if found.value.None? {
      return Err(NotFound("suggestion '" + id + "' not found"));
    }
    var current := found.value.value;
    ImplementedIsUpdate(current.metadata, now);
    var updated := store.UpdateItem(Key, id, None, Some(ImplementedMetadata(current.metadata, now)));
    r := Ok(updated.value);
  }

  method GetSuggestion(store: VectorStore, id: string) returns (r: Result<Item, Error>)
    requires store.Valid()
    ensures r == Crud.GetResult(store.collections[Key], id)
  {
    r := Crud.Get(store, Key, id);
  }

  method DeleteSuggestion(store: VectorStore, id: string) returns (r: Result<(), Error>)
    requires store.Valid()
    modifies store
    ensures store.Valid()
    ensures Crud.Deleted(old(store.collections), store.collections, Key, id, r)
  {
    r := Crud.Delete(store, Key, id);
  }
}
