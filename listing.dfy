/** The listing and search rules the item modules share: optional equality
    filters on metadata, the page-plus-total response, and `where` dictionaries
    built from the parameters that were supplied. A string parameter that is
    empty counts as not supplied, as Python's `if value:` treats it. */
module Listing {
  import opened Wrappers
  import opened Values

  /** A listing response: one page and the number of items that passed the filters. */
  datatype ItemList = ItemList(items: seq<Item>, total: nat)

  /** The item passes `metadata.get(key) == value`, or the filter was not supplied. */
  predicate MatchesEq(it: Item, key: string, value: string) {
    value == "" || HasStr(it.metadata, key, value)
  }

  /** `[item for item in items if item["metadata"].get(key) == value]` when
      `value` is supplied, `items` otherwise. */
  function FilterEq(items: seq<Item>, key: string, value: string): (r: seq<Item>)
    ensures |r| <= |items|
    ensures value == "" ==> r == items
    ensures forall it :: it in r <==> it in items && MatchesEq(it, key, value)
    ensures SubseqOf(r, items)
  {
    if items == [] then []
    else
      var rest := FilterEq(items[..|items| - 1], key, value);
      var last := items[|items| - 1];
      assert items == items[..|items| - 1] + [last];
      if MatchesEq(last, key, value) then (SubseqKeep(rest, items[..|items| - 1], last); rest + [last])
      else (SubseqSkip(rest, items[..|items| - 1], last); rest)
  }

  /** The optional equality filters `(key, value)` applied one after another. */
  function FilterEqs(items: seq<Item>, filters: seq<(string, string)>): (r: seq<Item>)
    ensures |r| <= |items|
    ensures forall it :: it in r <==>
      it in items && forall i :: 0 <= i < |filters| ==> MatchesEq(it, filters[i].0, filters[i].1)
  {
    if filters == [] then items
    else
      var init, last := filters[..|filters| - 1], filters[|filters| - 1];
      assert forall i :: 0 <= i < |init| ==> init[i] == filters[i];
      FilterEq(FilterEqs(items, init), last.0, last.1)
  }

  /** The filters keep the items in their listed order. */
  lemma {:induction false} FilterEqsInOrder(items: seq<Item>, filters: seq<(string, string)>)
    ensures SubseqOf(FilterEqs(items, filters), items)
  {
    if filters == [] {
      SubseqRefl(items);
    } else {
      var init, last := filters[..|filters| - 1], filters[|filters| - 1];
      FilterEqsInOrder(items, init);
      SubseqTrans(FilterEqs(items, filters), FilterEqs(items, init), items);
    }
  }

  /** The item passes `metadata.get(key) == value` for an optional boolean
      (so a stored 1 or 0 compares equal to true or false), or the filter was
      not supplied. */
  predicate MatchesBool(it: Item, key: string, value: Option<bool>) {
    value.None? || EqualsBool(Get(it.metadata, key, Null), value.value)
  }

  function FilterBool(items: seq<Item>, key: string, value: Option<bool>): (r: seq<Item>)
    ensures |r| <= |items|
    ensures value.None? ==> r == items
    ensures forall it :: it in r <==> it in items && MatchesBool(it, key, value)
    ensures SubseqOf(r, items)
  {
    if items == [] then []
    else
      var rest := FilterBool(items[..|items| - 1], key, value);
      var last := items[|items| - 1];
      assert items == items[..|items| - 1] + [last];
      if MatchesBool(last, key, value) then (SubseqKeep(rest, items[..|items| - 1], last); rest + [last])
      else (SubseqSkip(rest, items[..|items| - 1], last); rest)
  }

  /** `item["metadata"].get(key, 0.0) >= min`, applied only when the minimum
      is positive; comparing a non-number raises. */
  function FilterAtLeast(items: seq<Item>, key: string, min: real): (r: Result<seq<Item>, Error>)
    ensures min <= 0.0 ==> r == Ok(items)
    ensures r.Ok? ==> |r.value| <= |items|
    ensures r.Ok? ==> forall it :: it in r.value <==>
      it in items && (min <= 0.0 || AtLeastNumber(Get(it.metadata, key, Num(0.0)), min) == Ok(true))
    ensures r.Err? <==> min > 0.0 && exists it :: it in items && AtLeastNumber(Get(it.metadata, key, Num(0.0)), min).Err?
  {
    if min <= 0.0 || items == [] then Ok(items)
    else
      var init, last := items[..|items| - 1], items[|items| - 1];
      assert items == init + [last];
      match FilterAtLeast(init, key, min)
      case Err(e) => Err(e)
      case Ok(kept) =>
        match AtLeastNumber(Get(last.metadata, key, Num(0.0)), min)
        case Err(e) => Err(e)
        case Ok(b) => Ok(if b then kept + [last] else kept)
  }

  /** The listing response for an already filtered sequence. */
  function PageOf(filtered: seq<Item>, limit: nat, offset: nat): (r: ItemList)
    ensures r.total == |filtered| && |r.items| <= limit
    ensures r.items == Page(filtered, offset, limit)
  {
    ItemList(Page(filtered, offset, limit), |filtered|)
  }

  /** The `where` dictionary built from optional entries: each supplied entry
      is set, in order; an empty dictionary becomes None. */
  function Entries(entries: seq<(string, Option<Condition>)>): Filter {
    if entries == [] then map[]
    else
      var rest := Entries(entries[..|entries| - 1]);
      var last := entries[|entries| - 1];
      if last.1.Some? then rest[last.0 := last.1.value] else rest
  }

  function AsFilter(f: Filter): Option<Filter> {
    if f == map[] then None else Some(f)
  }

  /** An optional equality entry on a string parameter. */
  function EqEntry(key: string, value: string): (string, Option<Condition>) {
    (key, if value == "" then None else Some(Equals(Str(value))))
  }

  ghost predicate DistinctEntryKeys(entries: seq<(string, Option<Condition>)>) {
    forall i, j :: 0 <= i < j < |entries| ==> entries[i].0 != entries[j].0
  }

  /** With distinct keys, the dictionary holds exactly the supplied entries
      with their conditions, and is None exactly when nothing was supplied. */
  lemma {:induction false} EntriesExact(entries: seq<(string, Option<Condition>)>)
    requires DistinctEntryKeys(entries)
    ensures forall k :: k in Entries(entries) <==>
      exists i :: 0 <= i < |entries| && entries[i].0 == k && entries[i].1.Some?
    ensures forall i :: 0 <= i < |entries| && entries[i].1.Some? ==>
      Entries(entries)[entries[i].0] == entries[i].1.value
    ensures AsFilter(Entries(entries)).None? <==> forall i :: 0 <= i < |entries| ==> entries[i].1.None?
  {
    if entries != [] {
      var init := entries[..|entries| - 1];
      var last := entries[|entries| - 1];
      EntriesExact(init);
      forall i | 0 <= i < |init| ensures init[i] == entries[i] && init[i].0 != last.0 { }
      if last.1.Some? {
        assert last.0 in Entries(entries);
      }
    }
  }

  function EqEntries(filters: seq<(string, string)>): (r: seq<(string, Option<Condition>)>)
    ensures |r| == |filters|
    ensures forall i :: 0 <= i < |filters| ==> r[i] == EqEntry(filters[i].0, filters[i].1)
  {
    seq(|filters|, i requires 0 <= i < |filters| => EqEntry(filters[i].0, filters[i].1))
  }

  /** The search `where` dictionary of optional equality parameters: exactly
      the supplied keys, each bound to its value, and None when none was
      supplied. */
  function EqFilter(filters: seq<(string, string)>): (r: Option<Filter>)
    requires forall i, j :: 0 <= i < j < |filters| ==> filters[i].0 != filters[j].0
    ensures r.None? <==> forall i :: 0 <= i < |filters| ==> filters[i].1 == ""
    ensures r.Some? ==> forall k :: k in r.value <==>
      exists i :: 0 <= i < |filters| && filters[i].0 == k && filters[i].1 != ""
    ensures r.Some? ==> forall i :: 0 <= i < |filters| && filters[i].1 != "" ==>
      r.value[filters[i].0] == Equals(Str(filters[i].1))
  {
    var entries := EqEntries(filters);
    EntriesExact(entries);
    AsFilter(Entries(entries))
  }

  /** The key of an optional parameter, when it is supplied. */
  function Supplied(key: string, value: string): set<string> {
    if value != "" then {key} else {}
  }

  /** The search dictionary of three optional parameters under distinct keys:
      exactly the supplied keys, each bound to its value, and None when none
      is supplied. */
  lemma EqFilterOfThree(a: (string, string), b: (string, string), c: (string, string))
    requires a.0 != b.0 && a.0 != c.0 && b.0 != c.0
    ensures EqFilter([a, b, c]).None? <==> a.1 == "" && b.1 == "" && c.1 == ""
    ensures EqFilter([a, b, c]).Some? ==>
      EqFilter([a, b, c]).value.Keys == Supplied(a.0, a.1) + Supplied(b.0, b.1) + Supplied(c.0, c.1)
    ensures EqFilter([a, b, c]).Some? && a.1 != "" ==> EqFilter([a, b, c]).value[a.0] == Equals(Str(a.1))
    ensures EqFilter([a, b, c]).Some? && b.1 != "" ==> EqFilter([a, b, c]).value[b.0] == Equals(Str(b.1))
    ensures EqFilter([a, b, c]).Some? && c.1 != "" ==> EqFilter([a, b, c]).value[c.0] == Equals(Str(c.1))
  {
    var fs := [a, b, c];
    assert fs[0] == a && fs[1] == b && fs[2] == c;
    var r := EqFilter(fs);
    if r.Some? {
      var want := Supplied(a.0, a.1) + Supplied(b.0, b.1) + Supplied(c.0, c.1);
      forall k ensures k in r.value <==> k in want {
        if k in r.value {
          var i :| 0 <= i < |fs| && fs[i].0 == k && fs[i].1 != "";
          assert i == 0 || i == 1 || i == 2;
        }
        if k in want {
          if k in Supplied(a.0, a.1) {
            assert fs[0].0 == k && fs[0].1 != "";
          } else if k in Supplied(b.0, b.1) {
            assert fs[1].0 == k && fs[1].1 != "";
          } else {
            assert fs[2].0 == k && fs[2].1 != "";
          }
        }
      }
    }
  }

  /** The search response: the items and distances of the query's only result row. */
  function SearchResult(query: Query, key: string, text: string, n: nat, filter: Option<Filter>): (r: QueryResult)
    ensures |r.items| == |r.distances| == |query(key, text, n, filter)|
    ensures var hits := query(key, text, n, filter);
      forall i :: 0 <= i < |hits| ==>
        r.items[i] == Item(hits[i].id, hits[i].text, hits[i].metadata) && r.distances[i] == hits[i].distance
  {
    FromHits(query(key, text, n, filter))
  }
}
