/** The business-strategy module: listing with optional category, priority
    and status filters, semantic search with the same parameters as a `where`
    dictionary, and the shared get, update and delete endpoints. */
module Business {
  import opened Wrappers
  import opened Values
  import opened Database
  import opened Listing
  import Crud

  const Key: string := "business"

  /** The list's optional equality filters, in the order they are applied. */
  function Filters(category: string, priority: string, status: string): seq<(string, string)> {
    [("category", category), ("priority", priority), ("status", status)]
  }

  /** `GET /business/`: the first 100 stored items, filtered, then paged. */
  method List(store: VectorStore, limit: nat, offset: nat, category: string, priority: string, status: string)
    returns (r: ItemList)
    requires store.Valid() && 1 <= limit <= 1000
    ensures var filtered := FilterEqs(Take(store.collections[Key], DefaultLimit), Filters(category, priority, status));
      r.items == Page(filtered, offset, limit) && r.total == |filtered|
    ensures |r.items| <= limit && r.total <= DefaultLimit
    ensures forall it :: it in r.items ==>
      it in store.collections[Key] && MatchesEq(it, "category", category) &&
      MatchesEq(it, "priority", priority) && MatchesEq(it, "status", status)
  {
    var all := store.ListItems(Key, DefaultLimit, 0);
    ListAllSeesFirst100(store.collections[Key]);
    var fs := Filters(category, priority, status);
    var filtered := FilterEqs(all.value, fs);
    r := PageOf(filtered, limit, offset);
    forall it | it in r.items
      ensures it in store.collections[Key] && MatchesEq(it, "category", category) &&
        MatchesEq(it, "priority", priority) && MatchesEq(it, "status", status)
    {
      var k :| 0 <= k < |r.items| && r.items[k] == it;
      assert it in filtered;
      assert MatchesEq(it, fs[0].0, fs[0].1) && MatchesEq(it, fs[1].0, fs[1].1) && MatchesEq(it, fs[2].0, fs[2].1);
    }
  }

  /** The search `where` dictionary: exactly the supplied parameters, None when
      none is supplied. */
  function SearchFilter(category: string, priority: string, status: string): (r: Option<Filter>)
    ensures r.None? <==> category == "" && priority == "" && status == ""
    ensures r.Some? ==> (r.value.Keys ==
      (if category != "" then {"category"} else {}) +
      (if priority != "" then {"priority"} else {}) +
      (if status != "" then {"status"} else {}))
    ensures r.Some? && category != "" ==> r.value["category"] == Equals(Str(category))
    ensures r.Some? && priority != "" ==> r.value["priority"] == Equals(Str(priority))
    ensures r.Some? && status != "" ==> r.value["status"] == Equals(Str(status))
  {
    var fs := Filters(category, priority, status);
    EqFilterOfThree(fs[0], fs[1], fs[2]);
    EqFilter(fs)
  }

  /** `GET /business/search`: each returned item and distance is the hit at the
      same index of the query's result row. */
  function Search(query: Query, text: string, n: nat, category: string, priority: string, status: string)
    : (r: QueryResult)
    requires |text| >= 1 && 1 <= n <= 100
    ensures var hits := query(Key, text, n, SearchFilter(category, priority, status));
      |r.items| == |r.distances| == |hits| &&
      forall i :: 0 <= i < |hits| ==>
        r.items[i] == Item(hits[i].id, hits[i].text, hits[i].metadata) && r.distances[i] == hits[i].distance
  {
    SearchResult(query, Key, text, n, SearchFilter(category, priority, status))
  }

  method Get(store: VectorStore, id: string) returns (r: Result<Item, Error>)
    requires store.Valid()
    ensures r == Crud.GetResult(store.collections[Key], id)
  {
    r := Crud.Get(store, Key, id);
  }

  method Update(store: VectorStore, id: string, text: Option<string>, changes: Option<Metadata>, now: string)
    returns (r: Result<Item, Error>)
    requires store.Valid()
    modifies store
    ensures store.Valid()
    ensures Crud.Updated(old(store.collections), store.collections, Key, id, text, changes, now, r)
  {
    r := Crud.Update(store, Key, id, text, changes, now);
  }

  method Delete(store: VectorStore, id: string) returns (r: Result<(), Error>)
    requires store.Valid()
    modifies store
    ensures store.Valid()
    ensures Crud.Deleted(old(store.collections), store.collections, Key, id, r)
  {
    r := Crud.Delete(store, Key, id);
  }
}
