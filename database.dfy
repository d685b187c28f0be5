/** The vector store manager: a fixed table of named collections, each holding
    items with distinct ids in the order the store returns them. Embeddings and
    ranking are not part of this model; a collection is its sequence of items. */
module Database {
  import opened Wrappers
  import opened Values

  /** The collection table, in declaration order. */
  const CollectionKeys: seq<string> :=
    ["identity", "business", "reminders", "connections", "learnings", "priorities", "suggestions"]

  /** The modules the analysis endpoints accept. */
  const AnalyzableModules: seq<string> := ["identity", "business", "reminders", "learnings"]

  /** `list_items`' default page size: every "list all" sees at most this many. */
  const DefaultLimit: nat := 100

  /** The store raises ValueError for an unknown collection or item. */
  datatype StoreError = UnknownCollection(key: string) | UnknownItem(id: string)

  /** What `add_item` returns: the arguments as passed. */
  datatype AddedItem = AddedItem(id: string, text: string, metadata: Option<Metadata>)

  predicate HasId(items: seq<Item>, id: string) {
    exists i :: 0 <= i < |items| && items[i].id == id
  }

  ghost predicate UniqueIds(items: seq<Item>) {
    forall i, j :: 0 <= i < j < |items| ==> items[i].id != items[j].id
  }

  /** The item with the given id, if any. */
  function Find(items: seq<Item>, id: string): (r: Option<Item>)
    ensures r.Some? ==> r.value in items && r.value.id == id
    ensures r.None? <==> !HasId(items, id)
  {
    if items == [] then None
    else if items[0].id == id then Some(items[0])
    else
      assert forall i :: 1 <= i < |items| ==> items[i] == items[1..][i - 1];
      Find(items[1..], id)
  }

  /** Chroma `add`: a new id is appended; an id already present is ignored. */
  function Added(items: seq<Item>, it: Item): seq<Item> {
    if HasId(items, it.id) then items else items + [it]
  }

  /** Chroma `update` of one id: that item is replaced where it stands. */
  function Replaced(items: seq<Item>, id: string, it: Item): seq<Item> {
    if items == [] then []
    else [if items[0].id == id then it else items[0]] + Replaced(items[1..], id, it)
  }

  /** Chroma `delete` of one id. */
  function Removed(items: seq<Item>, id: string): seq<Item> {
    if items == [] then []
    else (if items[0].id == id then [] else [items[0]]) + Removed(items[1..], id)
  }

  lemma {:induction false} FindIndex(items: seq<Item>, k: nat)
    requires UniqueIds(items) && k < |items|
    ensures Find(items, items[k].id) == Some(items[k])
  {
    if k > 0 {
      FindIndex(items[1..], k - 1);
    }
  }

  /** An added item with a new id can be found again, other ids see the same
      item as before, and ids stay distinct. */
  lemma AddedThenFind(items: seq<Item>, it: Item, id: string)
    requires UniqueIds(items)
    ensures UniqueIds(Added(items, it))
    ensures !HasId(items, it.id) ==> Find(Added(items, it), it.id) == Some(it)
    ensures id != it.id ==> Find(Added(items, it), id) == Find(items, id)
    ensures HasId(items, it.id) ==> Added(items, it) == items
  {
    if !HasId(items, it.id) {
      var r := items + [it];
      FindIndex(r, |items|);
      if id != it.id {
        FindAppend(items, it, id);
      }
    }
  }

  lemma {:induction false} FindAppend(items: seq<Item>, it: Item, id: string)
    requires id != it.id
    ensures Find(items + [it], id) == Find(items, id)
  {
    if items != [] {
      FindAppend(items[1..], it, id);
      assert (items + [it])[1..] == items[1..] + [it];
    }
  }

  lemma {:induction false} ReplacedShape(items: seq<Item>, id: string, it: Item)
    ensures |Replaced(items, id, it)| == |items|
    ensures forall k :: 0 <= k < |items| ==>
      Replaced(items, id, it)[k] == if items[k].id == id then it else items[k]
  {
    if items != [] {
      ReplacedShape(items[1..], id, it);
    }
  }

  lemma {:induction false} FindReplaced(items: seq<Item>, it: Item, other: string)
    ensures other != it.id ==> Find(Replaced(items, it.id, it), other) == Find(items, other)
    ensures other == it.id && HasId(items, it.id) ==> Find(Replaced(items, it.id, it), other) == Some(it)
  {
    if items != [] {
      var tail := Replaced(items[1..], it.id, it);
      var head := if items[0].id == it.id then it else items[0];
      FindReplaced(items[1..], it, other);
      assert Replaced(items, it.id, it) == [head] + tail;
      assert ([head] + tail)[1..] == tail;
      if other == it.id && items[0].id != it.id && HasId(items, it.id) {
        var k :| 0 <= k < |items| && items[k].id == it.id;
        assert items[1..][k - 1].id == it.id;
      }
    }
  }

  /** Replacing an item by one with the same id keeps every position and every
      other item, and the replacement is what a lookup then finds. */
  lemma ReplacedThenFind(items: seq<Item>, it: Item, other: string)
    requires UniqueIds(items) && HasId(items, it.id)
    ensures UniqueIds(Replaced(items, it.id, it))
    ensures Find(Replaced(items, it.id, it), it.id) == Some(it)
    ensures other != it.id ==> Find(Replaced(items, it.id, it), other) == Find(items, other)
  {
    var r := Replaced(items, it.id, it);
    ReplacedShape(items, it.id, it);
    assert forall k :: 0 <= k < |items| ==> r[k].id == items[k].id;
    FindReplaced(items, it, it.id);
    FindReplaced(items, it, other);
  }

  lemma {:induction false} RemovedMembers(items: seq<Item>, id: string)
    ensures forall x :: x in Removed(items, id) <==> x in items && x.id != id
  {
    if items != [] {
      RemovedMembers(items[1..], id);
      assert items == [items[0]] + items[1..];
    }
  }

  lemma {:induction false} RemovedUnique(items: seq<Item>, id: string)
    requires UniqueIds(items)
    ensures UniqueIds(Removed(items, id))
  {
    if items != [] {
      RemovedUnique(items[1..], id);
      RemovedMembers(items[1..], id);
      var r := Removed(items, id);
      var tail := Removed(items[1..], id);
      if items[0].id != id {
        forall j | 0 <= j < |tail| ensures tail[j].id != items[0].id {
          assert tail[j] in items[1..];
        }
        assert r == [items[0]] + tail;
        forall i, j | 0 <= i < j < |r| ensures r[i].id != r[j].id {
          if i > 0 { assert r[i] == tail[i - 1] && r[j] == tail[j - 1]; }
          else { assert r[j] == tail[j - 1]; }
        }
      }
    }
  }

  lemma {:induction false} FindRemoved(items: seq<Item>, id: string, other: string)
    requires other != id
    ensures Find(Removed(items, id), other) == Find(items, other)
  {
    if items != [] {
      var tail := Removed(items[1..], id);
      FindRemoved(items[1..], id, other);
      if items[0].id == id {
        assert Removed(items, id) == tail;
      } else {
        assert Removed(items, id) == [items[0]] + tail;
        assert ([items[0]] + tail)[1..] == tail;
      }
    }
  }

  /** After a delete the id is gone and every other item is still found. */
  lemma RemovedThenFind(items: seq<Item>, id: string, other: string)
    requires UniqueIds(items)
    ensures UniqueIds(Removed(items, id))
    ensures !HasId(Removed(items, id), id)
    ensures other != id ==> Find(Removed(items, id), other) == Find(items, other)
  {
    RemovedUnique(items, id);
    RemovedMembers(items, id);
    var r := Removed(items, id);
    forall k | 0 <= k < |r| ensures r[k].id != id {
      assert r[k] in r;
    }
    if other != id {
      FindRemoved(items, id, other);
    }
  }

  class VectorStore {
    var collections: map<string, seq<Item>>

    /** Exactly the configured collections exist, each with distinct ids. */
    ghost predicate Valid()
      reads this
    {
      collections.Keys == (set k | k in CollectionKeys) &&
      forall k :: k in collections ==> UniqueIds(collections[k])
    }

    /** Opens every configured collection: the persisted one when it exists,
        otherwise a new empty one. */
    constructor (persisted: map<string, seq<Item>>)
      requires forall k :: k in persisted ==> UniqueIds(persisted[k])
      ensures Valid()
      ensures forall k :: k in CollectionKeys ==>
        collections[k] == if k in persisted then persisted[k] else []
    {
      var table: map<string, seq<Item>> := map[];
      var i := 0;
      while i < |CollectionKeys|
        invariant 0 <= i <= |CollectionKeys|
        invariant table.Keys == set k | k in CollectionKeys[..i]
        invariant forall k :: k in table ==> table[k] == if k in persisted then persisted[k] else []
      {
        var key := CollectionKeys[i];
        var collection := if key in persisted then persisted[key] else [];
        table := table[key := collection];
        assert CollectionKeys[..i + 1] == CollectionKeys[..i] + [key];
        i := i + 1;
      }
      assert CollectionKeys[..i] == CollectionKeys;
      collections := table;
    }

    /** `get_collection`: the items of a configured collection, ValueError otherwise. */
    function GetCollection(key: string): (r: Result<seq<Item>, StoreError>)
      reads this
      ensures r.Ok? <==> key in collections
      ensures r.Ok? ==> r.value == collections[key]
      ensures r.Err? ==> r.error == UnknownCollection(key)
    {
      if key in collections then Ok(collections[key]) else Err(UnknownCollection(key))
    }

    /** `get_item`: None for an absent id. */
    function GetItem(key: string, id: string): (r: Result<Option<Item>, StoreError>)
      reads this
      ensures r.Err? <==> key !in collections
      ensures r.Err? ==> r.error == UnknownCollection(key)
      ensures r.Ok? ==> (r.value.None? <==> !HasId(collections[key], id))
      ensures r.Ok? && r.value.Some? ==> r.value.value.id == id && r.value.value in collections[key]
    {
      if key !in collections then Err(UnknownCollection(key)) else Ok(Find(collections[key], id))
    }

    /** `add_item`: stores `metadata or {}` and returns the arguments as passed. */
    method AddItem(key: string, id: string, text: string, metadata: Option<Metadata>)
      returns (r: Result<AddedItem, StoreError>)
      requires Valid()
      modifies this
      ensures Valid()
      ensures key !in old(collections) ==>
        r == Err(UnknownCollection(key)) && collections == old(collections)
      ensures key in old(collections) ==>
        r == Ok(AddedItem(id, text, metadata)) &&
        collections == old(collections)[key := Added(old(collections)[key], Item(id, text, metadata.GetOr(map[])))]
    {
      if key !in collections {
        return Err(UnknownCollection(key));
      }
      var stored := Item(id, text, metadata.GetOr(map[]));
      AddedThenFind(collections[key], stored, id);
      collections := collections[key := Added(collections[key], stored)];
      r := Ok(AddedItem(id, text, metadata));
    }

    /** `update_item`: an omitted text or metadata keeps its current value; a
        supplied metadata replaces the stored one wholesale. */
    method UpdateItem(key: string, id: string, text: Option<string>, metadata: Option<Metadata>)
      returns (r: Result<Item, StoreError>)
      requires Valid()
      modifies this
      ensures Valid()
      ensures key !in old(collections) ==>
        r == Err(UnknownCollection(key)) && collections == old(collections)
      ensures key in old(collections) && !HasId(old(collections)[key], id) ==>
        r == Err(UnknownItem(id)) && collections == old(collections)
      ensures key in old(collections) && HasId(old(collections)[key], id) ==>
        var current := Find(old(collections)[key], id).value;
        r == Ok(Item(id, text.GetOr(current.text), metadata.GetOr(current.metadata))) &&
        collections == old(collections)[key := Replaced(old(collections)[key], id, r.value)]
    {
      var found := GetItem(key, id);
      if found.Err? {
        return Err(found.error);
      }
      if found.value.None? {
        return Err(UnknownItem(id));
      }
      var current := found.value.value;
      var updated := Item(id, text.GetOr(current.text), metadata.GetOr(current.metadata));
      ReplacedThenFind(collections[key], updated, id);
      collections := collections[key := Replaced(collections[key], id, updated)];
      r := Ok(updated);
    }

    /** `delete_item`: ValueError for an absent id, otherwise the id is gone. */
    method DeleteItem(key: string, id: string) returns (r: Result<(), StoreError>)
      requires Valid()
      modifies this
      ensures Valid()
      ensures key !in old(collections) ==>
        r == Err(UnknownCollection(key)) && collections == old(collections)
      ensures key in old(collections) && !HasId(old(collections)[key], id) ==>
        r == Err(UnknownItem(id)) && collections == old(collections)
      ensures key in old(collections) && HasId(old(collections)[key], id) ==>
        r == Ok(()) && collections == old(collections)[key := Removed(old(collections)[key], id)]
      ensures key in collections ==> !HasId(collections[key], id)
    {
      var found := GetItem(key, id);
      if found.Err? {
        return Err(found.error);
      }
      if found.value.None? {
        return Err(UnknownItem(id));
      }
      RemovedThenFind(collections[key], id, id);
      collections := collections[key := Removed(collections[key], id)];
      r := Ok(());
    }

    /** `list_items`: the slice from min(offset, n) to min(min(offset, n) + limit, n),
        copied item by item. */
    method ListItems(key: string, limit: nat, offset: nat) returns (r: Result<seq<Item>, StoreError>)
      ensures key !in collections ==> r == Err(UnknownCollection(key))
      ensures key in collections ==> r == Ok(Page(collections[key], offset, limit))
    {
      if key !in collections {
        return Err(UnknownCollection(key));
      }
      var all := collections[key];
      var start := Min(offset, |all|);
      var end := Min(start + limit, |all|);
      var items: seq<Item> := [];
      var i := start;
      while i < end
        invariant start <= i <= end
        invariant items == all[start..i]
      {
        items := items + [all[i]];
        i := i + 1;
      }
      r := Ok(items);
    }
  }

  /** Any unparameterised "list all" sees the first min(100, n) items and no more. */
  lemma ListAllSeesFirst100(items: seq<Item>)
    ensures Page(items, 0, DefaultLimit) == Take(items, DefaultLimit)
    ensures |Page(items, 0, DefaultLimit)| == Min(DefaultLimit, |items|) <= 100
  {
  }

  /** A collection after `add_item` of each item in turn. */
  function AddedAll(items: seq<Item>, cs: seq<Item>): seq<Item> {
    if cs == [] then items else Added(AddedAll(items, cs[..|cs| - 1]), cs[|cs| - 1])
  }

  /** With fresh, distinct ids every item is stored, after the existing ones
      and in the given order. */
  lemma {:induction false} AddedAllFresh(items: seq<Item>, cs: seq<Item>)
    requires forall i, j :: 0 <= i < j < |cs| ==> cs[i].id != cs[j].id
    requires forall i :: 0 <= i < |cs| ==> !HasId(items, cs[i].id)
    ensures AddedAll(items, cs) == items + cs
  {
    if cs != [] {
      var init, last := cs[..|cs| - 1], cs[|cs| - 1];
      AddedAllFresh(items, init);
      forall i | 0 <= i < |items + init| ensures (items + init)[i].id != last.id {
        if i >= |items| {
          assert (items + init)[i] == cs[i - |items|];
        } else {
          assert (items + init)[i] == items[i];
        }
      }
      assert cs == init + [last];
    }
  }

  lemma AddedAllStep(items: seq<Item>, cs: seq<Item>, c: Item)
    ensures AddedAll(items, cs + [c]) == Added(AddedAll(items, cs), c)
  {
    assert (cs + [c])[..|cs|] == cs;
  }
}
