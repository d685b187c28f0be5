/** The connection analyzer: for one stored item, the items of the four
    analysable modules whose similarity (one minus the query distance) reaches
    a threshold become connection records, each persisted in the connections
    collection and returned in module order, then result order. Also the
    listing with module and strength filters, and the search filter. */
module Connections {
  import opened Wrappers
  import opened Values
  import opened Database
  import opened Listing
  import Crud

  const Key: string := "connections"

  /** The analysis request; the bounds are those of its schema. */
  datatype AnalysisRequest = AnalysisRequest(itemId: string, sourceModule: string, minSimilarity: real, maxConnections: nat)

  datatype Analysis = Analysis(sourceId: string, sourceModule: string, connections: seq<Item>, total: nat)

  /** The result is a connection candidate: not the source item itself (same
      module and same id), and similar enough. */
  predicate Kept(req: AnalysisRequest, m: string, h: Hit) {
    !(m == req.sourceModule && h.id == req.itemId) && 1.0 - h.distance >= req.minSimilarity
  }

  /** The kept results of one module's query, in result order. */
  function Matches(req: AnalysisRequest, m: string, hits: seq<Hit>): (r: seq<(string, Hit)>)
    ensures |r| <= |hits|
    ensures forall c :: c in r <==> c.0 == m && c.1 in hits && Kept(req, m, c.1)
  {
    if hits == [] then []
    else
      var last := hits[|hits| - 1];
      assert hits == hits[..|hits| - 1] + [last];
      Matches(req, m, hits[..|hits| - 1]) + (if Kept(req, m, last) then [(m, last)] else [])
  }

  /** The candidates over the given modules, module by module, each module
      queried with the source text for `max_connections` results. */
  function Candidates(query: Query, req: AnalysisRequest, text: string, modules: seq<string>): seq<(string, Hit)> {
    if modules == [] then []
    else
      var m := modules[|modules| - 1];
      Candidates(query, req, text, modules[..|modules| - 1]) + Matches(req, m, query(m, text, req.maxConnections, None))
  }

  /** The candidates over one more module are those before it followed by its kept results. */
  lemma CandidatesStep(query: Query, req: AnalysisRequest, text: string, modules: seq<string>, i: nat)
    requires i < |modules|
    ensures Candidates(query, req, text, modules[..i + 1]) ==
      Candidates(query, req, text, modules[..i]) + Matches(req, modules[i], query(modules[i], text, req.maxConnections, None))
  {
    assert modules[..i + 1][..i] == modules[..i];
  }

  /** A candidate is exactly a kept result of one of the modules' queries. */
  lemma {:induction false} CandidatesExactly(query: Query, req: AnalysisRequest, text: string, modules: seq<string>)
    ensures forall c :: c in Candidates(query, req, text, modules) <==>
      c.0 in modules && c.1 in query(c.0, text, req.maxConnections, None) && Kept(req, c.0, c.1)
  {
    if modules != [] {
      var init := modules[..|modules| - 1];
      CandidatesExactly(query, req, text, init);
      assert modules == init + [modules[|modules| - 1]];
    }
  }

  /** With each query returning at most `n` results, there are at most
      `n` candidates per module. */
  lemma {:induction false} CandidatesBound(query: Query, req: AnalysisRequest, text: string, modules: seq<string>)
    requires forall m :: m in modules ==> |query(m, text, req.maxConnections, None)| <= req.maxConnections
    ensures |Candidates(query, req, text, modules)| <= |modules| * req.maxConnections
  {
    if modules != [] {
      var init, m, n := modules[..|modules| - 1], modules[|modules| - 1], req.maxConnections;
      assert forall x :: x in init ==> x in modules;
      CandidatesBound(query, req, text, init);
      var here := Matches(req, m, query(m, text, n, None));
      assert Candidates(query, req, text, modules) == Candidates(query, req, text, init) + here;
      assert |here| <= n;
      MulSucc(|init|, n);
    }
  }

  lemma MulSucc(a: nat, n: nat)
    ensures (a + 1) * n == a * n + n
  {
  }

  /** The connection text: at most the first 50 characters of each text. */
  function ConnectionText(source: string, target: string): string {
    "Conexión entre '" + Take(source, 50) + "...' y '" + Take(target, 50) + "...'"
  }

  /** The connection record for a candidate. */
  function Connection(req: AnalysisRequest, sourceText: string, c: (string, Hit), id: string, now: string): Item {
    Item(id, ConnectionText(sourceText, c.1.text),
         map["source_id" := Str(req.itemId), "source_module" := Str(req.sourceModule), "target_id" := Str(c.1.id),
             "target_module" := Str(c.0), "connection_type" := Str("semantic"), "strength" := Num(1.0 - c.1.distance),
             "created_at" := Str(now), "updated_at" := Str(now)])
  }

  /** The records of the candidates, the k-th taking the k-th fresh id. */
  function Records(req: AnalysisRequest, sourceText: string, cs: seq<(string, Hit)>, now: string, newId: nat -> string)
    : (r: seq<Item>)
    ensures |r| == |cs|
    ensures forall k :: 0 <= k < |cs| ==> r[k] == Connection(req, sourceText, cs[k], newId(k), now)
  {
    seq(|cs|, k requires 0 <= k < |cs| => Connection(req, sourceText, cs[k], newId(k), now))
  }

  /** The connections `analyze_connections` returns for a source text. */
  function Found(query: Query, req: AnalysisRequest, sourceText: string, now: string, newId: nat -> string): seq<Item> {
    Records(req, sourceText, Candidates(query, req, sourceText, AnalyzableModules), now, newId)
  }

  /** Every returned connection points from the source to a result that is
      not the source itself, with strength = similarity >= the threshold,
      and its text embeds at most 50 characters of either text. */
  lemma FoundSound(query: Query, req: AnalysisRequest, sourceText: string, now: string, newId: nat -> string, k: nat)
    requires k < |Found(query, req, sourceText, now, newId)|
    ensures var conn := Found(query, req, sourceText, now, newId)[k];
      var md := conn.metadata;
      md["source_id"] == Str(req.itemId) && md["source_module"] == Str(req.sourceModule) &&
      md["target_module"].Str? && md["target_module"].s in AnalyzableModules &&
      md["strength"].Num? && md["strength"].n >= req.minSimilarity &&
      !(md["target_module"] == Str(req.sourceModule) && md["target_id"] == Str(req.itemId)) &&
      exists h :: h in query(md["target_module"].s, sourceText, req.maxConnections, None) &&
        md["target_id"] == Str(h.id) && md["strength"] == Num(1.0 - h.distance) &&
        conn.text == ConnectionText(sourceText, h.text)
  {
    var cs := Candidates(query, req, sourceText, AnalyzableModules);
    CandidatesExactly(query, req, sourceText, AnalyzableModules);
    assert cs[k] in cs;
  }

  /** No more than four times `max_connections` connections, when each query
      honours its result count. */
  lemma FoundBound(query: Query, req: AnalysisRequest, sourceText: string, now: string, newId: nat -> string)
    requires forall m :: m in AnalyzableModules ==> |query(m, sourceText, req.maxConnections, None)| <= req.maxConnections
    ensures |Found(query, req, sourceText, now, newId)| <= 4 * req.maxConnections
  {
    CandidatesBound(query, req, sourceText, AnalyzableModules);
  }

  /** A result with the source's id in another module is still a connection. */
  lemma SameIdElsewhereKept(query: Query, req: AnalysisRequest, sourceText: string, m: string, h: Hit)
    requires m in AnalyzableModules && m != req.sourceModule && h in query(m, sourceText, req.maxConnections, None)
    requires h.id == req.itemId && 1.0 - h.distance >= req.minSimilarity
    ensures (m, h) in Candidates(query, req, sourceText, AnalyzableModules)
  {
    CandidatesExactly(query, req, sourceText, AnalyzableModules);
  }

  lemma RecordsAppend(req: AnalysisRequest, sourceText: string, cs: seq<(string, Hit)>, c: (string, Hit),
                      now: string, newId: nat -> string)
    ensures Records(req, sourceText, cs + [c], now, newId) ==
      Records(req, sourceText, cs, now, newId) + [Connection(req, sourceText, c, newId(|cs|), now)]
  {
  }

  lemma MatchesStep(req: AnalysisRequest, m: string, hits: seq<Hit>, j: nat)
    requires j < |hits|
    ensures Matches(req, m, hits[..j + 1]) ==
      Matches(req, m, hits[..j]) + (if Kept(req, m, hits[j]) then [(m, hits[j])] else [])
  {
    assert hits[..j + 1][..j] == hits[..j];
  }

  /** `add_item` of one connection record. */
  method Persist(store: VectorStore, ghost before: map<string, seq<Item>>, ghost connections: seq<Item>, conn: Item)
    requires store.Valid() && Key in before
    requires store.collections == before[Key := AddedAll(before[Key], connections)]
    modifies store
    ensures store.Valid()
    ensures store.collections == before[Key := AddedAll(before[Key], connections + [conn])]
  {
    ghost var stored := AddedAll(before[Key], connections);
    var added := store.AddItem(Key, conn.id, conn.text, Some(conn.metadata));
    assert store.collections == before[Key := Added(stored, conn)];
    AddedAllStep(before[Key], connections, conn);
  }

  /** The inner loop of the analysis over one module's results: each kept
      result becomes the next record, added to the store as it is made. */
  method CollectModule(store: VectorStore, req: AnalysisRequest, sourceText: string, m: string, hits: seq<Hit>,
                       now: string, newId: nat -> string, ghost before: map<string, seq<Item>>,
                       ghost cands0: seq<(string, Hit)>, connections0: seq<Item>)
    returns (ghost cands: seq<(string, Hit)>, connections: seq<Item>)
    requires store.Valid() && Key in before
    requires connections0 == Records(req, sourceText, cands0, now, newId)
    requires store.collections == before[Key := AddedAll(before[Key], connections0)]
    modifies store
    ensures store.Valid()
    ensures cands == cands0 + Matches(req, m, hits)
    ensures connections == Records(req, sourceText, cands, now, newId)
    ensures store.collections == before[Key := AddedAll(before[Key], connections)]
  {
    cands, connections := cands0, connections0;
    ghost var matched: seq<(string, Hit)> := [];
    var j := 0;
    assert hits[..0] == [] && cands0 + [] == cands0;
    while j < |hits|
      invariant 0 <= j <= |hits| && store.Valid()
      invariant matched == Matches(req, m, hits[..j]) && cands == cands0 + matched
      invariant connections == Records(req, sourceText, cands, now, newId)
      invariant store.collections == before[Key := AddedAll(before[Key], connections)]
    {
      MatchesStep(req, m, hits, j);
      if Kept(req, m, hits[j]) {
        var conn := Connection(req, sourceText, (m, hits[j]), newId(|connections|), now);
        Persist(store, before, connections, conn);
        RecordsAppend(req, sourceText, cands, (m, hits[j]), now, newId);
        assert cands + [(m, hits[j])] == cands0 + (matched + [(m, hits[j])]);
        cands := cands + [(m, hits[j])];
        matched := matched + [(m, hits[j])];
        connections := connections + [conn];
      }
      assert matched == Matches(req, m, hits[..j + 1]);
      j := j + 1;
    }
    assert hits[..j] == hits;
  }

  /** `POST /conexiones/analizar`: an unknown module is invalid and an absent
      source item is not found, both without writing; otherwise every
      candidate becomes a connection record that is added to the store and
      returned, with the total. */
  method AnalyzeConnections(store: VectorStore, query: Query, req: AnalysisRequest, now: string, newId: nat -> string)
    returns (r: Result<Analysis, Error>)
    requires store.Valid() && 0.0 <= req.minSimilarity <= 1.0 && 1 <= req.maxConnections <= 20
    modifies store
    ensures store.Valid()
    ensures req.sourceModule !in AnalyzableModules ==>
      r.Err? && r.error.InvalidInput? && store.collections == old(store.collections)
    ensures req.sourceModule in AnalyzableModules && !HasId(old(store.collections)[req.sourceModule], req.itemId) ==>
      r.Err? && r.error.NotFound? && store.collections == old(store.collections)
    ensures req.sourceModule in AnalyzableModules && HasId(old(store.collections)[req.sourceModule], req.itemId) ==>
      var source := Find(old(store.collections)[req.sourceModule], req.itemId).value;
      var found := Found(query, req, source.text, now, newId);
      r == Ok(Analysis(req.itemId, req.sourceModule, found, |found|)) &&
      store.collections == old(store.collections)[Key := AddedAll(old(store.collections)[Key], found)]
  {
    if req.sourceModule !in AnalyzableModules {
      return Err(InvalidInput("module '" + req.sourceModule + "' is not valid"));
    }
    var got := store.GetItem(req.sourceModule, req.itemId);
    if got.value.None? {
      return Err(NotFound("item '" + req.itemId + "' not found in module '" + req.sourceModule + "'"));
    }
    var source := got.value.value;
    ghost var before := store.collections;
    ghost var cands: seq<(string, Hit)> := [];
    var connections: seq<Item> := [];
    assert before[Key := AddedAll(before[Key], connections)] == before;
    var mi := 0;
    while mi < |AnalyzableModules|
      invariant 0 <= mi <= |AnalyzableModules| && store.Valid()
      invariant cands == Candidates(query, req, source.text, AnalyzableModules[..mi])
      invariant connections == Records(req, source.text, cands, now, newId)
      invariant store.collections == before[Key := AddedAll(before[Key], connections)]
    {
      var m := AnalyzableModules[mi];
      CandidatesStep(query, req, source.text, AnalyzableModules, mi);
      var hits := query(m, source.text, req.maxConnections, None);
      cands, connections := CollectModule(store, req, source.text, m, hits, now, newId, before, cands, connections);
      mi := mi + 1;
    }
    assert AnalyzableModules[..mi] == AnalyzableModules;
    r := Ok(Analysis(req.itemId, req.sourceModule, connections, |connections|));
  }

  /** `GET /conexiones/`: the first 100 stored connections through the
      source-module, target-module and strength filters, then paged. */
  method ListConnections(store: VectorStore, limit: nat, offset: nat, sourceModule: string, targetModule: string,
                         minStrength: real) returns (r: Result<ItemList, Error>)
    requires store.Valid() && 1 <= limit <= 1000 && 0.0 <= minStrength <= 1.0
    ensures var byModule := FilterEqs(Take(store.collections[Key], DefaultLimit),
                                      [("source_module", sourceModule), ("target_module", targetModule)]);
      var byStrength := FilterAtLeast(byModule, "strength", minStrength);
      (byStrength.Ok? ==> r == Ok(PageOf(byStrength.value, limit, offset))) &&
      (byStrength.Err? ==> r == Err(byStrength.error))
    ensures r.Ok? ==> |r.value.items| <= limit && r.value.total <= DefaultLimit
    ensures r.Ok? ==> forall it :: it in r.value.items ==>
      it in store.collections[Key] && MatchesEq(it, "source_module", sourceModule) &&
      MatchesEq(it, "target_module", targetModule) &&
      (minStrength <= 0.0 || AtLeastNumber(Get(it.metadata, "strength", Num(0.0)), minStrength) == Ok(true))
  {
    var all := store.ListItems(Key, DefaultLimit, 0);
    ListAllSeesFirst100(store.collections[Key]);
    var fs := [("source_module", sourceModule), ("target_module", targetModule)];
    var byModule := FilterEqs(all.value, fs);
    var byStrength := FilterAtLeast(byModule, "strength", minStrength);
    if byStrength.Err? {
      return Err(byStrength.error);
    }
    var page := PageOf(byStrength.value, limit, offset);
    forall it | it in page.items
      ensures it in store.collections[Key] && MatchesEq(it, "source_module", sourceModule) &&
        MatchesEq(it, "target_module", targetModule) &&
        (minStrength <= 0.0 || AtLeastNumber(Get(it.metadata, "strength", Num(0.0)), minStrength) == Ok(true))
    {
      var k :| 0 <= k < |page.items| && page.items[k] == it;
      assert it in byStrength.value && it in byModule;
      assert MatchesEq(it, fs[0].0, fs[0].1) && MatchesEq(it, fs[1].0, fs[1].1);
    }
    r := Ok(page);
  }

  /** The search `where` dictionary: the supplied modules by equality and a
      positive minimum strength as `$gte`; None when nothing is supplied. */
  function SearchFilter(sourceModule: string, targetModule: string, minStrength: real): (r: Option<Filter>)
    ensures r.None? <==> sourceModule == "" && targetModule == "" && minStrength <= 0.0
    ensures r.Some? ==> (r.value.Keys ==
      (if sourceModule != "" then {"source_module"} else {}) +
      (if targetModule != "" then {"target_module"} else {}) +
      (if minStrength > 0.0 then {"strength"} else {}))
    ensures r.Some? && sourceModule != "" ==> r.value["source_module"] == Equals(Str(sourceModule))
    ensures r.Some? && targetModule != "" ==> r.value["target_module"] == Equals(Str(targetModule))
    ensures r.Some? && minStrength > 0.0 ==> r.value["strength"] == AtLeast(minStrength)
  {
    var entries := [EqEntry("source_module", sourceModule), EqEntry("target_module", targetModule),
                    ("strength", if minStrength > 0.0 then Some(AtLeast(minStrength)) else None)];
    EntriesExact(entries);
    assert entries[0].0 == "source_module" && entries[1].0 == "target_module" && entries[2].0 == "strength";
    AsFilter(Entries(entries))
  }

  /** `GET /conexiones/buscar`: each returned item and distance is the hit at
      the same index of the query's result row. */
  function SearchConnections(query: Query, text: string, n: nat, sourceModule: string, targetModule: string,
                             minStrength: real): (r: QueryResult)
    requires |text| >= 1 && 1 <= n <= 100 && 0.0 <= minStrength <= 1.0
    ensures var hits := query(Key, text, n, SearchFilter(sourceModule, targetModule, minStrength));
      |r.items| == |r.distances| == |hits| &&
      forall i :: 0 <= i < |hits| ==>
        r.items[i] == Item(hits[i].id, hits[i].text, hits[i].metadata) && r.distances[i] == hits[i].distance
  {
    SearchResult(query, Key, text, n, SearchFilter(sourceModule, targetModule, minStrength))
  }

  method GetConnection(store: VectorStore, id: string) returns (r: Result<Item, Error>)
    requires store.Valid()
    ensures r == Crud.GetResult(store.collections[Key], id)
  {
    r := Crud.Get(store, Key, id);
  }

  method DeleteConnection(store: VectorStore, id: string) returns (r: Result<(), Error>)
    requires store.Valid()
    modifies store
    ensures store.Valid()
    ensures Crud.Deleted(old(store.collections), store.collections, Key, id, r)
  {
    r := Crud.Delete(store, Key, id);
  }
}
