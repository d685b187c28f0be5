/** The get, update and delete endpoints the item modules share, over a
    collection the module owns. An absent item is NotFound on get and on update
    (checked before the store is written); the store's ValueError on delete
    maps to NotFound. */
module Crud {
  import opened Wrappers
  import opened Values
  import opened Database

  /** `GET /{id}`: the stored item, NotFound when absent. */
  function GetResult(items: seq<Item>, id: string): (r: Result<Item, Error>)
    ensures r.Err? <==> !HasId(items, id)
    ensures r.Err? ==> r.error.NotFound?
    ensures r.Ok? ==> r.value.id == id && r.value in items
  {
    match Find(items, id)
    case None => Err(NotFound("item '" + id + "' not found"))
    case Some(it) => Ok(it)
  }

  /** The metadata an update writes: a merge into a copy of the stored
      metadata with updated_at refreshed when changes are supplied, nothing
      (keep the stored metadata) when they are not. */
  function UpdateMetadata(current: Metadata, changes: Option<Metadata>, now: string): (r: Option<Metadata>)
    ensures changes.None? <==> r.None?
    ensures changes.Some? ==> r.value == Merged(current, changes.value, now)
  {
    if changes.Some? then Some(Merged(current, changes.value, now)) else None
  }

  /** What `PUT /{id}` does to collection `key`: an absent item is NotFound and
      nothing changes; otherwise the item keeps its place, takes the supplied
      text (or keeps its own) and the merged metadata (or keeps its own), and
      is returned. */
  ghost predicate Updated(before: map<string, seq<Item>>, after: map<string, seq<Item>>, key: string,
                          id: string, text: Option<string>, changes: Option<Metadata>, now: string,
                          r: Result<Item, Error>)
  {
    key in before &&
    if !HasId(before[key], id) then
      r.Err? && r.error.NotFound? && after == before
    else
      var current := Find(before[key], id).value;
      var metadata := if changes.Some? then Merged(current.metadata, changes.value, now) else current.metadata;
      r == Ok(Item(id, text.GetOr(current.text), metadata)) &&
      after == before[key := Replaced(before[key], id, r.value)]
  }

  /** What `DELETE /{id}` does to collection `key`. */
  ghost predicate Deleted(before: map<string, seq<Item>>, after: map<string, seq<Item>>, key: string,
                          id: string, r: Result<(), Error>)
  {
    key in before && key in after && !HasId(after[key], id) &&
    if !HasId(before[key], id) then
      r.Err? && r.error.NotFound? && after == before
    else
      r == Ok(()) && after == before[key := Removed(before[key], id)]
  }

  method Get(store: VectorStore, key: string, id: string) returns (r: Result<Item, Error>)
    requires store.Valid() && key in CollectionKeys
    ensures r == GetResult(store.collections[key], id)
  {
    var found := store.GetItem(key, id);
    r := if found.value.None? then Err(NotFound("item '" + id + "' not found")) else Ok(found.value.value);
  }

  method Update(store: VectorStore, key: string, id: string, text: Option<string>,
                changes: Option<Metadata>, now: string) returns (r: Result<Item, Error>)
    requires store.Valid() && key in CollectionKeys
    modifies store
    ensures store.Valid()
    ensures Updated(old(store.collections), store.collections, key, id, text, changes, now, r)
  {
    var found := store.GetItem(key, id);
    if found.value.None? {
      return Err(NotFound("item '" + id + "' not found"));
    }
    var current := found.value.value;
    var written := store.UpdateItem(key, id, text, UpdateMetadata(current.metadata, changes, now));
    r := Ok(written.value);
  }

  method Delete(store: VectorStore, key: string, id: string) returns (r: Result<(), Error>)
    requires store.Valid() && key in CollectionKeys
    modifies store
    ensures store.Valid()
    ensures Deleted(old(store.collections), store.collections, key, id, r)
  {
    var removed := store.DeleteItem(key, id);
    if removed.Err? {
      return Err(NotFound("item '" + id + "' not found"));
    }
    r := Ok(());
  }

  /** An update that supplies no metadata leaves the stored metadata as it
      was, and one that does keeps every stored key it does not mention. */
  lemma UpdateKeepsUnmentioned(current: Metadata, changes: Option<Metadata>, now: string, k: string)
    requires k in current && k != "updated_at"
    requires changes.Some? ==> k !in changes.value
    ensures UpdateMetadata(current, changes, now).GetOr(current)[k] == current[k]
  {
  }

  /** After a successful update, getting the item returns what the update
      returned, and every other item reads as before. */
  lemma {:induction false} GetAfterUpdate(before: map<string, seq<Item>>, after: map<string, seq<Item>>,
                                          key: string, id: string, text: Option<string>,
                                          changes: Option<Metadata>, now: string, r: Result<Item, Error>, other: string)
    requires Updated(before, after, key, id, text, changes, now, r) && r.Ok?
    requires UniqueIds(before[key])
    ensures GetResult(after[key], id) == r
    ensures other != id ==> GetResult(after[key], other) == GetResult(before[key], other)
  {
    ReplacedThenFind(before[key], r.value, other);
  }
}
