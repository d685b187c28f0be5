/** The assistant-facing endpoints: query, store, update and delete on any
    configured collection; a batch of such operations that records exactly
    one outcome per operation and never aborts; and a consolidated search
    over several collections, ordered by distance and truncated. */
module Sofia {
  import opened Wrappers
  import opened Values
  import opened Database
  import opened Sorting

  const DefaultCollection: string := "identity"
  const DefaultResults: nat := 5

  /** A query body; a field that is absent is None. */
  datatype QueryRequest = QueryRequest(text: Option<string>, collection: Option<string>, nResults: Option<nat>,
                                       filter: Option<Filter>)

  /** `POST /sofia/query`: a body without text is invalid, an unknown
      collection is not found, otherwise the query's only result row. */
  function QueryData(query: Query, req: QueryRequest): (r: Result<QueryResult, Error>)
    ensures (r.Err? && r.error.InvalidInput?) <==> req.text.None?
    ensures (r.Err? && r.error.NotFound?) <==> req.text.Some? && req.collection.GetOr(DefaultCollection) !in CollectionKeys
    ensures r.Ok? ==>
      var hits := query(req.collection.GetOr(DefaultCollection), req.text.value, req.nResults.GetOr(DefaultResults), req.filter);
      |r.value.items| == |r.value.distances| == |hits| &&
      forall i :: 0 <= i < |hits| ==>
        r.value.items[i] == Item(hits[i].id, hits[i].text, hits[i].metadata) && r.value.distances[i] == hits[i].distance
  {
    if req.text.None? then Err(InvalidInput("the query must include 'text'"))
    else
      var key := req.collection.GetOr(DefaultCollection);
      if key !in CollectionKeys then Err(NotFound("collection '" + key + "' not found"))
      else Ok(FromHits(query(key, req.text.value, req.nResults.GetOr(DefaultResults), req.filter)))
  }

  /** The stamping done before a store: created_at is set to now unless
      present, then updated_at is now and source is the caller's tag; every
      other key is kept. */
  function Stamped(m: Metadata, now: string, source: string): (r: Metadata)
    ensures r.Keys == m.Keys + {"created_at", "updated_at", "source"}
    ensures "created_at" in m ==> r["created_at"] == m["created_at"]
    ensures "created_at" !in m ==> r["created_at"] == Str(now)
    ensures r["updated_at"] == Str(now) && r["source"] == Str(source)
    ensures forall k :: k in m && k != "created_at" && k != "updated_at" && k != "source" ==> r[k] == m[k]
  {
    var created := if "created_at" in m then m else m["created_at" := Str(now)];
    created["updated_at" := Str(now)]["source" := Str(source)]
  }

  /** Storing again keeps the first creation time and refreshes the rest. */
  lemma RestampKeepsCreation(m: Metadata, first: string, second: string, s1: string, s2: string)
    ensures Stamped(Stamped(m, first, s1), second, s2)["created_at"] == Stamped(m, first, s1)["created_at"]
    ensures Stamped(Stamped(m, first, s1), second, s2)["updated_at"] == Str(second)
  {
  }

  /** The item a store writes: the supplied id or the fresh one, the supplied
      metadata (default empty) stamped. */
  function NewItem(text: string, metadata: Option<Metadata>, id: Option<string>, now: string, freshId: string,
                   source: string): Item
  {
    Item(id.GetOr(freshId), text, Stamped(metadata.GetOr(map[]), now, source))
  }

  /** A store body; a field that is absent is None. */
  datatype StoreRequest = StoreRequest(text: Option<string>, collection: Option<string>, metadata: Option<Metadata>,
                                       id: Option<string>)

  /** `POST /sofia/store`: a body without text is invalid and an unknown
      collection is not found, both without writing; otherwise the stamped
      item is added and the arguments of the add are returned. */
  method StoreData(store: VectorStore, req: StoreRequest, now: string, freshId: string)
    returns (r: Result<AddedItem, Error>)
    requires store.Valid()
    modifies store
    ensures store.Valid()
    ensures req.text.None? ==>
      r.Err? && r.error.InvalidInput? && store.collections == old(store.collections)
    ensures req.text.Some? && req.collection.GetOr(DefaultCollection) !in CollectionKeys ==>
      r.Err? && r.error.NotFound? && store.collections == old(store.collections)
    ensures req.text.Some? && req.collection.GetOr(DefaultCollection) in CollectionKeys ==>
      var key := req.collection.GetOr(DefaultCollection);
      var it := NewItem(req.text.value, req.metadata, req.id, now, freshId, "sofia");
      r == Ok(AddedItem(it.id, it.text, Some(it.metadata))) &&
      store.collections == old(store.collections)[key := Added(old(store.collections)[key], it)]
  {
    if req.text.None? {
      return Err(InvalidInput("the data must include 'text'"));
    }
    var key := req.collection.GetOr(DefaultCollection);
    if store.GetCollection(key).Err? {
      return Err(NotFound("collection '" + key + "' not found"));
    }
    var it := NewItem(req.text.value, req.metadata, req.id, now, freshId, "sofia");
    var added := store.AddItem(key, it.id, it.text, Some(it.metadata));
    r := Ok(added.value);
  }

  /** The metadata an update writes when metadata is supplied: the merge with
      updated_at refreshed and last_update_source set to the caller's tag. */
  function SourcedMerge(current: Metadata, changes: Metadata, now: string, source: string): (r: Metadata)
    ensures r.Keys == current.Keys + changes.Keys + {"updated_at", "last_update_source"}
    ensures r["updated_at"] == Str(now) && r["last_update_source"] == Str(source)
    ensures forall k :: k in changes && k != "updated_at" && k != "last_update_source" ==> r[k] == changes[k]
    ensures forall k :: k in current && k !in changes && k != "updated_at" && k != "last_update_source" ==>
      r[k] == current[k]
  {
    Merged(current, changes, now)["last_update_source" := Str(source)]
  }

  /** The item an update writes: the supplied text or the stored one, the
      sourced merge when metadata is supplied, the stored metadata otherwise. */
  function Revised(current: Item, text: Option<string>, changes: Option<Metadata>, now: string, source: string): Item {
    Item(current.id, text.GetOr(current.text),
         if changes.Some? then SourcedMerge(current.metadata, changes.value, now, source) else current.metadata)
  }

  /** The update in the repository's own test: text and both metadata keys
      come back as sent, the id is the stored one. */
  lemma UpdateAsTested(current: Item, now: string)
    ensures var r := Revised(current, Some("Texto actualizado para pruebas"),
                             Some(map["priority" := Str("high"), "status" := Str("in_progress")]), now, "sofia");
      r.id == current.id && r.text == "Texto actualizado para pruebas" &&
      r.metadata["priority"] == Str("high") && r.metadata["status"] == Str("in_progress")
  {
  }

  /** `PUT /sofia/update/{collection}/{id}`: an unknown collection or an absent
      item is not found and nothing is written; otherwise the revised item
      replaces the stored one where it stands and is returned. */
  method UpdateData(store: VectorStore, key: string, id: string, text: Option<string>, changes: Option<Metadata>,
                    now: string) returns (r: Result<Item, Error>)
    requires store.Valid()
    modifies store
    ensures store.Valid()
    ensures (key !in CollectionKeys || !HasId(old(store.collections)[key], id)) ==>
      r.Err? && r.error.NotFound? && store.collections == old(store.collections)
    ensures key in CollectionKeys && HasId(old(store.collections)[key], id) ==>
      r == Ok(Revised(Find(old(store.collections)[key], id).value, text, changes, now, "sofia")) &&
      store.collections == old(store.collections)[key := Replaced(old(store.collections)[key], id, r.value)]
  {
    var found := store.GetItem(key, id);
    if found.Err? {
      return Err(NotFound("collection '" + key + "' not found"));
    }
    if found.value.None? {
      return Err(NotFound("item '" + id + "' not found"));
    }
    var current := found.value.value;
    var revised := Revised(current, text, changes, now, "sofia");
    var written := store.UpdateItem(key, id, Some(revised.text), Some(revised.metadata));
    r := Ok(written.value);
  }

  /** `DELETE /sofia/delete/{collection}/{id}`: an absent item is not found
      and otherwise the item is removed. The 404 raised for an unknown
      collection is not re-raised by this handler: its `except Exception`
      turns it into a server error. */
  method DeleteData(store: VectorStore, key: string, id: string) returns (r: Result<(), Error>)
    requires store.Valid()
    modifies store
    ensures store.Valid()
    ensures key !in CollectionKeys ==>
      r.Err? && r.error.StoreFailure? && store.collections == old(store.collections)
    ensures key in CollectionKeys && !HasId(old(store.collections)[key], id) ==>
      r.Err? && r.error.NotFound? && store.collections == old(store.collections)
    ensures key in CollectionKeys && HasId(old(store.collections)[key], id) ==>
      r == Ok(()) && store.collections == old(store.collections)[key := Removed(old(store.collections)[key], id)]
  {
    var removed := store.DeleteItem(key, id);
    if removed.Err? {
      return if removed.error.UnknownCollection?
        then Err(StoreFailure("404: collection '" + key + "' not found"))
        else Err(NotFound("item '" + id + "' not found"));
    }
    r := Ok(());
  }

  /** One batch operation; a field that is absent is None. */
  datatype Operation = Operation(kind: Option<string>, query: Option<string>, text: Option<string>,
                                 collection: Option<string>, nResults: Option<nat>, filter: Option<Filter>,
                                 metadata: Option<Metadata>, id: Option<string>)

  /** Why an operation failed. */
  datatype BatchFailure =
    | MissingType
    | MissingField(field: string)
    | Rejected(cause: StoreError)
    | UnknownType(kind: string)

  datatype OpData = Queried(result: QueryResult) | Stored(added: AddedItem) | Changed(item: Item) | Removal

  /** A results entry or an errors entry, with its operation index and type
      (`op.get("type", "unknown")` on an error). */
  datatype Outcome =
    | Success(index: nat, kind: string, data: OpData)
    | Failure(index: nat, kind: string, failure: BatchFailure)

  /** One batch operation on the collections: its outcome and the collections
      after it. A failed operation writes nothing. */
  function Step(cols: map<string, seq<Item>>, query: Query, op: Operation, i: nat, now: string, freshId: string)
    : (r: (map<string, seq<Item>>, Outcome))
    ensures r.1.index == i
    ensures r.1.Failure? ==> r.0 == cols
    ensures op.kind.None? <==> r.1 == Failure(i, "unknown", MissingType)
    ensures op.kind.Some? ==> r.1.kind == op.kind.value
    ensures (r.1.Failure? && r.1.failure.UnknownType?) <==>
      op.kind.Some? && op.kind.value !in {"query", "store", "update", "delete"}
  {
    if op.kind.None? then (cols, Failure(i, "unknown", MissingType))
    else
      var kind := op.kind.value;
      if kind == "query" then
        if op.query.None? then (cols, Failure(i, kind, MissingField("query")))
        else
          var key := op.collection.GetOr(DefaultCollection);
          if key !in cols then (cols, Failure(i, kind, Rejected(UnknownCollection(key))))
          else
            var hits := query(key, op.query.value, op.nResults.GetOr(DefaultResults), op.filter);
            (cols, Success(i, kind, Queried(FromHits(hits))))
      else if kind == "store" then
        if op.text.None? then (cols, Failure(i, kind, MissingField("text")))
        else
          var key := op.collection.GetOr(DefaultCollection);
          if key !in cols then (cols, Failure(i, kind, Rejected(UnknownCollection(key))))
          else
            var it := NewItem(op.text.value, op.metadata, op.id, now, freshId, "sofia_batch");
            (cols[key := Added(cols[key], it)], Success(i, kind, Stored(AddedItem(it.id, it.text, Some(it.metadata)))))
      else if kind == "update" then
        if op.collection.None? || op.id.None? then (cols, Failure(i, kind, MissingField("collection, id")))
        else
          var key, id := op.collection.value, op.id.value;
          if key !in cols then (cols, Failure(i, kind, Rejected(UnknownCollection(key))))
          else if !HasId(cols[key], id) then (cols, Failure(i, kind, Rejected(UnknownItem(id))))
          else
            var it := Revised(Find(cols[key], id).value, op.text, op.metadata, now, "sofia_batch");
            (cols[key := Replaced(cols[key], id, it)], Success(i, kind, Changed(it)))
      else if kind == "delete" then
        if op.collection.None? || op.id.None? then (cols, Failure(i, kind, MissingField("collection, id")))
        else
          var key, id := op.collection.value, op.id.value;
          if key !in cols then (cols, Failure(i, kind, Rejected(UnknownCollection(key))))
          else if !HasId(cols[key], id) then (cols, Failure(i, kind, Rejected(UnknownItem(id))))
          else (cols[key := Removed(cols[key], id)], Success(i, kind, Removal))
      else (cols, Failure(i, kind, UnknownType(kind)))
  }

  /** The batch loop as a fold: the operations run in order, each on the
      collections the previous ones left, each producing one outcome that
      carries its own index. */
  function Run(cols: map<string, seq<Item>>, query: Query, ops: seq<Operation>, now: string, newId: nat -> string)
    : (r: (map<string, seq<Item>>, seq<Outcome>))
    ensures |r.1| == |ops|
    ensures forall i :: 0 <= i < |ops| ==> r.1[i].index == i
  {
    if ops == [] then (cols, [])
    else
      var prev := Run(cols, query, ops[..|ops| - 1], now, newId);
      var step := Step(prev.0, query, ops[|ops| - 1], |ops| - 1, now, newId(|ops| - 1));
      (step.0, prev.1 + [step.1])
  }

  /** Operation `i`'s outcome is its own step on what operations `0..i-1`
      left behind, whatever happened to them: a failure does not stop the
      batch. */
  lemma {:induction false} EachOperationRuns(cols: map<string, seq<Item>>, query: Query, ops: seq<Operation>,
                                             now: string, newId: nat -> string, i: nat)
    requires i < |ops|
    ensures Run(cols, query, ops, now, newId).1[i] ==
      Step(Run(cols, query, ops[..i], now, newId).0, query, ops[i], i, now, newId(i)).1
  {
    var init := ops[..|ops| - 1];
    if i < |ops| - 1 {
      EachOperationRuns(cols, query, init, now, newId, i);
      assert init[..i] == ops[..i] && init[i] == ops[i];
    } else {
      assert init == ops[..i];
    }
  }

  function Successes(os: seq<Outcome>): (r: seq<Outcome>)
    ensures forall o :: o in r <==> o in os && o.Success?
  {
    if os == [] then []
    else
      var last := os[|os| - 1];
      assert os == os[..|os| - 1] + [last];
      Successes(os[..|os| - 1]) + (if last.Success? then [last] else [])
  }

  function Failures(os: seq<Outcome>): (r: seq<Outcome>)
    ensures forall o :: o in r <==> o in os && o.Failure?
  {
    if os == [] then []
    else
      var last := os[|os| - 1];
      assert os == os[..|os| - 1] + [last];
      Failures(os[..|os| - 1]) + (if last.Failure? then [last] else [])
  }

  /** Every outcome lands in exactly one of the two lists. */
  lemma {:induction false} SuccessesPlusFailures(os: seq<Outcome>)
    ensures |Successes(os)| + |Failures(os)| == |os|
  {
    if os != [] {
      SuccessesPlusFailures(os[..|os| - 1]);
    }
  }

  /** The fold over the first `i + 1` operations is the step of operation `i`
      after the fold over the first `i`. */
  lemma RunSnoc(cols: map<string, seq<Item>>, query: Query, ops: seq<Operation>, now: string, newId: nat -> string,
                i: nat)
    requires i < |ops|
    ensures var prev := Run(cols, query, ops[..i], now, newId);
      var step := Step(prev.0, query, ops[i], i, now, newId(i));
      Run(cols, query, ops[..i + 1], now, newId) == (step.0, prev.1 + [step.1])
  {
    assert ops[..i + 1][..i] == ops[..i];
  }

  /** Appending an outcome appends it to the successes or to the failures. */
  lemma OutcomeSnoc(os: seq<Outcome>, o: Outcome)
    ensures Successes(os + [o]) == Successes(os) + (if o.Success? then [o] else [])
    ensures Failures(os + [o]) == Failures(os) + (if o.Failure? then [o] else [])
  {
    assert (os + [o])[..|os|] == os;
  }

  /** The batch response. */
  datatype BatchReport = BatchReport(total: nat, successful: nat, failed: nat, results: seq<Outcome>,
                                     errors: seq<Outcome>)

  /** One batch operation on the store, by the same store calls as the
      single-operation endpoints. */
  method ApplyOp(store: VectorStore, query: Query, op: Operation, i: nat, now: string, freshId: string)
    returns (o: Outcome)
    requires store.Valid()
    modifies store
    ensures store.Valid()
    ensures (store.collections, o) == Step(old(store.collections), query, op, i, now, freshId)
  {
    if op.kind.None? {
      return Failure(i, "unknown", MissingType);
    }
    var kind := op.kind.value;
    if kind == "query" {
      if op.query.None? {
        return Failure(i, kind, MissingField("query"));
      }
      var key := op.collection.GetOr(DefaultCollection);
      var collection := store.GetCollection(key);
      if collection.Err? {
        return Failure(i, kind, Rejected(collection.error));
      }
      var hits := query(key, op.query.value, op.nResults.GetOr(DefaultResults), op.filter);
      o := Success(i, kind, Queried(FromHits(hits)));
    } else if kind == "store" {
      if op.text.None? {
        return Failure(i, kind, MissingField("text"));
      }
      var key := op.collection.GetOr(DefaultCollection);
      var it := NewItem(op.text.value, op.metadata, op.id, now, freshId, "sofia_batch");
      var added := store.AddItem(key, it.id, it.text, Some(it.metadata));
      if added.Err? {
        return Failure(i, kind, Rejected(added.error));
      }
      o := Success(i, kind, Stored(added.value));
    } else if kind == "update" {
      if op.collection.None? || op.id.None? {
        return Failure(i, kind, MissingField("collection, id"));
      }
      var key, id := op.collection.value, op.id.value;
      var found := store.GetItem(key, id);
      if found.Err? {
        return Failure(i, kind, Rejected(found.error));
      }
      if found.value.None? {
        return Failure(i, kind, Rejected(UnknownItem(id)));
      }
      var revised := Revised(found.value.value, op.text, op.metadata, now, "sofia_batch");
      var written := store.UpdateItem(key, id, Some(revised.text), Some(revised.metadata));
      o := Success(i, kind, Changed(written.value));
    } else if kind == "delete" {
      if op.collection.None? || op.id.None? {
        return Failure(i, kind, MissingField("collection, id"));
      }
      var removed := store.DeleteItem(op.collection.value, op.id.value);
      if removed.Err? {
        return Failure(i, kind, Rejected(removed.error));
      }
      o := Success(i, kind, Removal);
    } else {
      o := Failure(i, kind, UnknownType(kind));
    }
  }

  /** `POST /sofia/batch`: the store ends as the fold leaves it; results and
      errors are the successes and failures in operation order, and every
      operation is counted once. */
  method Batch(store: VectorStore, query: Query, ops: seq<Operation>, now: string, newId: nat -> string)
    returns (report: BatchReport)
    requires store.Valid()
    modifies store
    ensures store.Valid()
    ensures var run := Run(old(store.collections), query, ops, now, newId);
      store.collections == run.0 && report.results == Successes(run.1) && report.errors == Failures(run.1)
    ensures report.total == |ops| && report.successful == |report.results| && report.failed == |report.errors|
    ensures report.successful + report.failed == report.total
  {
    var results: seq<Outcome> := [];
    var errors: seq<Outcome> := [];
    ghost var outcomes: seq<Outcome> := [];
    var i := 0;
    while i < |ops|
      invariant 0 <= i <= |ops| && store.Valid()
      invariant (store.collections, outcomes) == Run(old(store.collections), query, ops[..i], now, newId)
      invariant results == Successes(outcomes) && errors == Failures(outcomes)
    {
      RunSnoc(old(store.collections), query, ops, now, newId, i);
      var o := ApplyOp(store, query, ops[i], i, now, newId(i));
      OutcomeSnoc(outcomes, o);
      if o.Success? {
        results := results + [o];
      } else {
        errors := errors + [o];
      }
      outcomes := outcomes + [o];
      i := i + 1;
    }
    assert ops[..i] == ops;
    SuccessesPlusFailures(outcomes);
    report := BatchReport(|ops|, |results|, |errors|, results, errors);
  }

  /** A consolidated result: the collection it came from and the hit; the
      `similarity` field holds the query distance. */
  datatype Consolidated = Consolidated(collection: string, id: string, text: string, metadata: Metadata, similarity: real)

  datatype ConsolidateRequest = ConsolidateRequest(collections: Option<seq<string>>, query: Option<string>,
                                                   limit: Option<nat>)

  datatype Consolidation = Consolidation(query: string, collections: seq<string>, total: nat,
                                         results: seq<Consolidated>)

  const DefaultConsolidated: seq<string> := ["identity", "business", "reminders"]
  const DefaultConsolidateLimit: nat := 10

  /** The hits of one collection, labelled with it. */
  function Labelled(collection: string, hits: seq<Hit>): (r: seq<Consolidated>)
    ensures |r| == |hits|
    ensures forall i :: 0 <= i < |hits| ==>
      r[i] == Consolidated(collection, hits[i].id, hits[i].text, hits[i].metadata, hits[i].distance)
  {
    seq(|hits|, i requires 0 <= i < |hits| =>
      Consolidated(collection, hits[i].id, hits[i].text, hits[i].metadata, hits[i].distance))
  }

  /** Everything gathered before sorting: each configured collection's `limit`
      hits, collection by collection; a collection that cannot be opened is
      skipped. */
  function Gathered(query: Query, collections: seq<string>, text: string, limit: nat): seq<Consolidated> {
    if collections == [] then []
    else
      var c := collections[|collections| - 1];
      Gathered(query, collections[..|collections| - 1], text, limit) +
        (if c in CollectionKeys then Labelled(c, query(c, text, limit, None)) else [])
  }

  /** Each gathered result comes from a requested and configured collection. */
  lemma {:induction false} GatheredFromRequested(query: Query, collections: seq<string>, text: string, limit: nat)
    ensures forall e :: e in Gathered(query, collections, text, limit) ==>
      e.collection in collections && e.collection in CollectionKeys
  {
    if collections != [] {
      var init := collections[..|collections| - 1];
      GatheredFromRequested(query, init, text, limit);
      assert forall c :: c in init ==> c in collections;
    }
  }

  /** Ascending by distance. */
  predicate DistanceLe(a: Consolidated, b: Consolidated) {
    a.similarity <= b.similarity
  }

  lemma DistanceLeIsTotalPreorder()
    ensures TotalPreorder(DistanceLe)
  {
  }

  /** The consolidated response holds the `limit` nearest gathered results,
      in ascending distance. */
  lemma ConsolidateNearest(query: Query, collections: seq<string>, text: string, limit: nat)
    ensures var gathered := Gathered(query, collections, text, limit);
      var results := Take(SortBy(gathered, DistanceLe), limit);
      |results| == Min(limit, |gathered|) &&
      SortedBy(results, DistanceLe) &&
      multiset(results) <= multiset(gathered) &&
      forall y, x :: y in results && x in gathered && x !in results ==> DistanceLe(y, x)
  {
    var gathered := Gathered(query, collections, text, limit);
    DistanceLeIsTotalPreorder();
    SortedPrefix(gathered, Min(limit, |gathered|), DistanceLe);
  }

  /** Every consolidated result comes from a requested, configured collection. */
  lemma ConsolidateFromRequested(query: Query, collections: seq<string>, text: string, limit: nat)
    ensures forall e :: e in Take(SortBy(Gathered(query, collections, text, limit), DistanceLe), limit) ==>
      e.collection in collections && e.collection in CollectionKeys
  {
    var gathered := Gathered(query, collections, text, limit);
    DistanceLeIsTotalPreorder();
    SortByCorrect(gathered, DistanceLe);
    GatheredFromRequested(query, collections, text, limit);
    var sorted := SortBy(gathered, DistanceLe);
    forall e | e in Take(sorted, limit) ensures e.collection in collections && e.collection in CollectionKeys {
      assert e in multiset(sorted);
    }
  }

  /** The sort is stable: results at equal distance keep their gathering order. */
  lemma ConsolidateStable(query: Query, collections: seq<string>, text: string, limit: nat, y: Consolidated)
    ensures var gathered := Gathered(query, collections, text, limit);
      TiesWith(SortBy(gathered, DistanceLe), DistanceLe, y) == TiesWith(gathered, DistanceLe, y)
  {
    DistanceLeIsTotalPreorder();
    SortByStable(Gathered(query, collections, text, limit), DistanceLe, y);
  }

  /** `POST /sofia/consolidate`: an empty query is invalid; otherwise each
      requested collection is queried in turn, the results are sorted by
      distance and cut to `limit`, and the total is the number returned. */
  method Consolidate(query: Query, req: ConsolidateRequest) returns (r: Result<Consolidation, Error>)
    ensures (r.Err? && r.error.InvalidInput?) <==> req.query.GetOr("") == ""
    ensures r.Ok? ==>
      var text := req.query.GetOr("");
      var collections := req.collections.GetOr(DefaultConsolidated);
      var limit := req.limit.GetOr(DefaultConsolidateLimit);
      var results := Take(SortBy(Gathered(query, collections, text, limit), DistanceLe), limit);
      r.value == Consolidation(text, collections, |results|, results)
  {
    var text := req.query.GetOr("");
    if text == "" {
      return Err(InvalidInput("a query text is required to consolidate"));
    }
    var collections := req.collections.GetOr(DefaultConsolidated);
    var limit := req.limit.GetOr(DefaultConsolidateLimit);
    var gathered: seq<Consolidated> := [];
    var k := 0;
    while k < |collections|
      invariant 0 <= k <= |collections|
      invariant gathered == Gathered(query, collections[..k], text, limit)
    {
      assert collections[..k + 1][..k] == collections[..k];
      var c := collections[k];
      if c in CollectionKeys {
        var hits := query(c, text, limit, None);
        ghost var before := gathered;
        var j := 0;
        while j < |hits|
          invariant 0 <= j <= |hits|
          invariant gathered == before + Labelled(c, hits[..j])
        {
          assert Labelled(c, hits[..j + 1]) == Labelled(c, hits[..j]) +
            [Consolidated(c, hits[j].id, hits[j].text, hits[j].metadata, hits[j].distance)];
          gathered := gathered + [Consolidated(c, hits[j].id, hits[j].text, hits[j].metadata, hits[j].distance)];
          j := j + 1;
        }
        assert hits[..j] == hits;
      }
      k := k + 1;
    }
    assert collections[..k] == collections;
    var results := Take(SortBy(gathered, DistanceLe), limit);
    r := Ok(Consolidation(text, collections, |results|, results));
  }
}
