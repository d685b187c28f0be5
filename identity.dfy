/** The identity-and-psychology module: listing delegated to the store's
    pagination, a category search filter, and the shared get, update and delete
    endpoints. */
module Identity {
  import opened Wrappers
  import opened Values
  import opened Database
  import opened Listing
  import Crud

  const Key: string := "identity"

  /** `GET /identity/`: the page comes from the store's own slice; the total is
      the length of an unparameterised listing, so it never exceeds 100 even
      when the collection is larger. */
  method List(store: VectorStore, limit: nat, offset: nat) returns (r: ItemList)
    requires store.Valid() && 1 <= limit <= 1000
    ensures r.items == Page(store.collections[Key], offset, limit)
    ensures r.total == Min(DefaultLimit, |store.collections[Key]|)
    ensures r.total <= 100 && |r.items| <= limit
  {
    var page := store.ListItems(Key, limit, offset);
    var all := store.ListItems(Key, DefaultLimit, 0);
    r := ItemList(page.value, |all.value|);
  }

  /** The total under-reports: with 150 items the page at offset 120 is full
      while the total says 100. */
  lemma TotalCappedWhilePageIsNot(items: seq<Item>)
    requires |items| == 150
    ensures |Page(items, 120, 10)| == 10 && |Page(items, 0, DefaultLimit)| == 100
  {
  }

  /** `{"category": c}` when a category is given, None otherwise. */
  function SearchFilter(category: string): (r: Option<Filter>)
    ensures r.None? <==> category == ""
    ensures r.Some? ==> r.value == map["category" := Equals(Str(category))]
  {
    if category != "" then Some(map["category" := Equals(Str(category))]) else None
  }

  /** `GET /identity/search`: each returned item and distance is the hit at the
      same index of the query's result row. */
  function Search(query: Query, text: string, n: nat, category: string): (r: QueryResult)
    requires |text| >= 1 && 1 <= n <= 100
    ensures var hits := query(Key, text, n, SearchFilter(category));
      |r.items| == |r.distances| == |hits| &&
      forall i :: 0 <= i < |hits| ==>
        r.items[i] == Item(hits[i].id, hits[i].text, hits[i].metadata) && r.distances[i] == hits[i].distance
  {
    SearchResult(query, Key, text, n, SearchFilter(category))
  }

  method Get(store: VectorStore, id: string) returns (r: Result<Item, Error>)
    requires store.Valid()
    ensures r == Crud.GetResult(store.collections[Key], id)
  {
    r := Crud.Get(store, Key, id);
  }

  method Update(store: VectorStore, id: string, text: Option<string>, changes: Option<Metadata>, now: string)
    returns (r: Result<Item, Error>)
    requires store.Valid()
    modifies store
    ensures store.Valid()
    ensures Crud.Updated(old(store.collections), store.collections, Key, id, text, changes, now, r)
  {
    r := Crud.Update(store, Key, id, text, changes, now);
  }

  method Delete(store: VectorStore, id: string) returns (r: Result<(), Error>)
    requires store.Valid()
    modifies store
    ensures store.Valid()
    ensures Crud.Deleted(old(store.collections), store.collections, Key, id, r)
  {
    r := Crud.Delete(store, Key, id);
  }
}
