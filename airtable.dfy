/** The field mapping between a stored item and an Airtable record, without
    the network calls: flattening an item into record fields on a sync (each
    metadata key gets the "metadata_" prefix, nested values are stringified),
    the choice between updating the first record that has the item's id and
    creating one, the search formula, and reading a record's fields back into
    an item (every occurrence of "metadata_" is removed from a metadata field's
    name). */
module Airtable {
  import opened Wrappers
  import opened Values

  const Prefix: string := "metadata_"

  /** The fields sent to Airtable: a JSON object. */
  type Fields = map<string, Value>

  /** A record as Airtable returns it: its id and its fields, each name once, in
      the order they are listed. */
  datatype AirtableRecord = AirtableRecord(id: string, fields: seq<(string, Value)>)

  /** `item_data`: the item being synchronised; its text and its metadata may
      each be missing. */
  datatype ItemData = ItemData(text: Option<string>, metadata: Option<Metadata>)

  /** Python's `str` of a list or dict, which the model takes as given. */
  type Stringify = Value -> string

  /** The request a sync sends. */
  datatype Request = UpdateRecord(recordId: string, fields: Fields) | CreateRecord(fields: Fields)

  /** What reading a record back yields. */
  datatype Extracted = Extracted(collectionKey: Option<Value>, itemId: Option<Value>, text: Value, metadata: Metadata)

  // ---------------------------------------------------------------------
  // Flattening

  /** `f"metadata_{key}"` */
  function Prefixed(k: string): string {
    Prefix + k
  }

  /** Airtable takes no nested objects: a dict or list is sent as its string,
      anything else as it is. */
  function FieldValue(v: Value, str: Stringify): Value {
    if v.List? || v.Dict? then Str(str(v)) else v
  }

  const BaseKeys: set<string> := {"collection_key", "item_id", "text"}

  function BaseFields(collectionKey: string, itemId: string, text: Option<string>): Fields {
    map["collection_key" := Str(collectionKey), "item_id" := Str(itemId), "text" := Str(text.GetOr(""))]
  }

  /** One field `metadata_<key>` per metadata key. */
  function MetadataFields(md: Metadata, str: Stringify): Fields {
    map n | n in PrefixedKeys(md) :: FieldValue(md[Unprefixed(n)], str)
  }

  function PrefixedKeys(md: Metadata): set<string> {
    set k | k in md :: Prefixed(k)
  }

  /** The metadata key a prefixed field name was made from. */
  function Unprefixed(n: string): (k: string)
    ensures forall j :: Prefixed(j) == n ==> k == j
  {
    if |n| < |Prefix| then n else
    assert forall j :: Prefixed(j) == n ==> j == n[|Prefix|..];
    n[|Prefix|..]
  }

  /** No base field name carries the prefix. */
  lemma BaseUnprefixed()
    ensures forall f :: f in BaseKeys ==> !StartsWith(f, Prefix)
  {
    forall f | f in BaseKeys ensures !StartsWith(f, Prefix) {
      assert |f| < |Prefix| || f[..|Prefix|][0] != Prefix[0];
    }
  }

  /** No prefixed name is a base field name. */
  lemma PrefixedNotBase(k: string)
    ensures Prefixed(k) !in BaseKeys
  {
    assert Prefixed(k)[0] == 'm';
  }

  /** `airtable_data`: the collection, the item id, the text ("" when missing)
      and the prefixed metadata. */
  function Flattened(collectionKey: string, itemId: string, data: ItemData, str: Stringify): Fields {
    BaseFields(collectionKey, itemId, data.text) + MetadataFields(data.metadata.GetOr(map[]), str)
  }

  /** The flattened fields are exactly the three base fields and one prefixed
      field per metadata key; a string, number, boolean or null is copied and
      a nested value is stringified. */
  lemma MetadataFieldsFacts(md: Metadata, str: Stringify)
    ensures var m := MetadataFields(md, str);
      m.Keys == (set k | k in md :: Prefixed(k)) &&
      (forall k :: k in md ==> m[Prefixed(k)] == FieldValue(md[k], str)) &&
      (forall n :: n in m ==> n !in BaseKeys)
  {
    var m := MetadataFields(md, str);
    forall n | n in m ensures n !in BaseKeys {
      var k :| k in md && n == Prefixed(k);
      PrefixedNotBase(k);
    }
  }

  lemma FlattenedExactly(collectionKey: string, itemId: string, data: ItemData, str: Stringify)
    ensures Flattened(collectionKey, itemId, data, str).Keys ==
      BaseKeys + (set k | k in data.metadata.GetOr(map[]) :: Prefixed(k))
    ensures Flattened(collectionKey, itemId, data, str)["collection_key"] == Str(collectionKey)
    ensures Flattened(collectionKey, itemId, data, str)["item_id"] == Str(itemId)
    ensures Flattened(collectionKey, itemId, data, str)["text"] == Str(data.text.GetOr(""))
    ensures forall k :: k in data.metadata.GetOr(map[]) ==>
      Flattened(collectionKey, itemId, data, str)[Prefixed(k)] == FieldValue(data.metadata.GetOr(map[])[k], str)
  {
    var md := data.metadata.GetOr(map[]);
    var b, m := BaseFields(collectionKey, itemId, data.text), MetadataFields(md, str);
    MetadataFieldsFacts(md, str);
    assert b.Keys == BaseKeys;
    assert "collection_key" !in m && "item_id" !in m && "text" !in m;
  }

  lemma MetadataFieldsStep(md: Metadata, todo: set<string>, k: string, str: Stringify)
    requires k in todo && todo <= md.Keys
    ensures MetadataFields(md - (todo - {k}), str) == MetadataFields(md - todo, str)[Prefixed(k) := FieldValue(md[k], str)]
  {
  }

  lemma UnionUpdate(b: Fields, m: Fields, n: string, v: Value)
    ensures b + m[n := v] == (b + m)[n := v]
  {
  }

  /** The loop of `sync_to_airtable` that adds each metadata key's field. */
  method Flatten(collectionKey: string, itemId: string, data: ItemData, str: Stringify) returns (fields: Fields)
    ensures fields == Flattened(collectionKey, itemId, data, str)
  {
    var base := BaseFields(collectionKey, itemId, data.text);
    fields := base;
    var md := data.metadata.GetOr(map[]);
    var todo := md.Keys;
    assert md - todo == map[];
    while todo != {}
      invariant todo <= md.Keys
      invariant fields == base + MetadataFields(md - todo, str)
      decreases |todo|
    {
      var k :| k in todo;
      MetadataFieldsStep(md, todo, k, str);
      UnionUpdate(base, MetadataFields(md - todo, str), Prefixed(k), FieldValue(md[k], str));
      fields := fields[Prefixed(k) := FieldValue(md[k], str)];
      todo := todo - {k};
    }
    assert todo == {};
    MinusNothing(md);
  }

  lemma MinusNothing(md: Metadata)
    ensures md - {} == md
  {
  }

  // ---------------------------------------------------------------------
  // Searching and the upsert

  /** `{field} = 'value'` */
  function SearchFormula(field: string, value: string): string {
    "{" + field + "} = '" + value + "'"
  }

  /** The position of the first `c` in `s`. */
  function IndexOf(s: string, c: char): (r: Option<nat>)
    ensures r.None? <==> c !in s
    ensures r.Some? ==> r.value < |s| && s[r.value] == c && c !in s[..r.value]
  {
    if s == [] then None
    else if s[0] == c then Some(0)
    else
      assert s == [s[0]] + s[1..];
      match IndexOf(s[1..], c)
      case None => None
      case Some(i) =>
        assert s[..i + 1] == [s[0]] + s[1..][..i];
        Some(i + 1)
  }

  /** Reads a formula back: the field name up to the first `}`, and the value
      between the quotes. */
  function ParseFormula(s: string): Option<(string, string)> {
    if |s| == 0 || s[0] != '{' then None
    else
      match IndexOf(s[1..], '}')
      case None => None
      case Some(j) =>
        var rest := s[j + 1..];
        if |rest| >= 6 && rest[..5] == "} = '" && rest[|rest| - 1] == '\'' then Some((s[1..j + 1], rest[5..|rest| - 1]))
        else None
  }

  /** The formula determines the field and the value, for a field name
      without `}`; the value may contain anything. */
  lemma FormulaRoundTrip(field: string, value: string)
    requires '}' !in field
    ensures ParseFormula(SearchFormula(field, value)) == Some((field, value))
  {
    var s := SearchFormula(field, value);
    var t := s[1..];
    assert t == field + "} = '" + value + "'";
    assert t[..|field|] == field;
    assert t[|field|] == '}';
    var j := IndexOf(t, '}').value;
    assert j == |field|;
    assert s[0] == '{';
    assert s[1..j + 1] == t[..j];
    var rest := s[|field| + 1..];
    assert rest == "} = '" + value + "'";
    assert rest[..5] == "} = '";
    assert rest[|rest| - 1] == '\'';
    assert rest[5..|rest| - 1] == value;
  }

  /** A field name containing `} = '` makes two searches indistinguishable. */
  lemma FormulaAmbiguous()
    ensures SearchFormula("a} = 'b", "c") == SearchFormula("a", "b} = 'c")
    ensures ParseFormula(SearchFormula("a} = 'b", "c")) == Some(("a", "b} = 'c"))
  {
    assert SearchFormula("a} = 'b", "c") == "{a} = 'b} = 'c'";
    assert SearchFormula("a", "b} = 'c") == "{a} = 'b} = 'c'";
    FormulaRoundTrip("a", "b} = 'c");
  }

  /** An existing record with the item's id is updated (the first one listed);
      otherwise a record is created. Either way with the same fields. */
  function Upsert(existing: seq<AirtableRecord>, fields: Fields): (r: Request)
    ensures r.UpdateRecord? <==> existing != []
    ensures r.UpdateRecord? ==> r.recordId == existing[0].id
    ensures r.fields == fields
  {
    if existing != [] then UpdateRecord(existing[0].id, fields) else CreateRecord(fields)
  }

  /** `sync_to_airtable`, up to the request it sends: `search` stands for
      listing the records that match a formula. */
  method SyncToAirtable(search: string -> seq<AirtableRecord>, collectionKey: string, itemId: string,
                        data: ItemData, str: Stringify) returns (r: Request)
    ensures r == Upsert(search(SearchFormula("item_id", itemId)), Flattened(collectionKey, itemId, data, str))
  {
    var fields := Flatten(collectionKey, itemId, data, str);
    var existing := search(SearchFormula("item_id", itemId));
    if existing != [] {
      r := UpdateRecord(existing[0].id, fields);
    } else {
      r := CreateRecord(fields);
    }
  }

  // ---------------------------------------------------------------------
  // Extraction

  /** `fields.get(name)`: the value of the field with that name. */
  function Lookup(fs: seq<(string, Value)>, name: string): (r: Option<Value>)
    ensures r.None? <==> forall i :: 0 <= i < |fs| ==> fs[i].0 != name
    ensures r.Some? ==> exists i :: 0 <= i < |fs| && fs[i] == (name, r.value)
  {
    if fs == [] then None
    else if fs[|fs| - 1].0 == name then Some(fs[|fs| - 1].1)
    else
      var r := Lookup(fs[..|fs| - 1], name);
      assert forall i :: 0 <= i < |fs| - 1 ==> fs[..|fs| - 1][i] == fs[i];
      r
  }

  /** Field `f` is read back as metadata key `k`. */
  predicate Strips(f: string, k: string) {
    StartsWith(f, Prefix) && RemoveAll(f, Prefix) == k
  }

  /** The extracted metadata, the fields taken in order: a later field read
      back as the same key overwrites an earlier one. */
  function MetadataOf(fs: seq<(string, Value)>): Metadata {
    if fs == [] then map[]
    else
      var f := fs[|fs| - 1];
      var md := MetadataOf(fs[..|fs| - 1]);
      if StartsWith(f.0, Prefix) then md[RemoveAll(f.0, Prefix) := f.1] else md
  }

  /** No field after position i is read back as the same key. */
  ghost predicate LastFor(fs: seq<(string, Value)>, i: nat)
    requires i < |fs|
  {
    forall j :: i < j < |fs| ==> !Strips(fs[j].0, RemoveAll(fs[i].0, Prefix))
  }

  /** The extracted keys are exactly those of the prefixed fields, with every
      occurrence of the prefix removed, each with the value of the last field
      read back as it. */
  lemma MetadataOfExactly(fs: seq<(string, Value)>)
    ensures forall k :: k in MetadataOf(fs) <==> exists i :: 0 <= i < |fs| && Strips(fs[i].0, k)
    ensures forall i :: 0 <= i < |fs| && StartsWith(fs[i].0, Prefix) && LastFor(fs, i) ==>
      RemoveAll(fs[i].0, Prefix) in MetadataOf(fs) && MetadataOf(fs)[RemoveAll(fs[i].0, Prefix)] == fs[i].1
  {
    MetadataKeysOf(fs);
    MetadataValuesOf(fs);
  }

  lemma {:induction false} MetadataKeysOf(fs: seq<(string, Value)>)
    ensures forall k :: k in MetadataOf(fs) <==> exists i :: 0 <= i < |fs| && Strips(fs[i].0, k)
  {
    if fs != [] {
      var init := fs[..|fs| - 1];
      MetadataKeysOf(init);
      forall k ensures k in MetadataOf(fs) <==> exists i :: 0 <= i < |fs| && Strips(fs[i].0, k) {
        if exists i :: 0 <= i < |init| && Strips(init[i].0, k) {
          var i :| 0 <= i < |init| && Strips(init[i].0, k);
          assert fs[i] == init[i];
        }
        if exists i :: 0 <= i < |fs| && Strips(fs[i].0, k) {
          var i :| 0 <= i < |fs| && Strips(fs[i].0, k);
          if i < |init| { assert init[i] == fs[i]; }
        }
      }
    }
  }

  lemma {:induction false} MetadataValuesOf(fs: seq<(string, Value)>)
    ensures forall i :: 0 <= i < |fs| && StartsWith(fs[i].0, Prefix) && LastFor(fs, i) ==>
      RemoveAll(fs[i].0, Prefix) in MetadataOf(fs) && MetadataOf(fs)[RemoveAll(fs[i].0, Prefix)] == fs[i].1
  {
    if fs != [] {
      var init, f := fs[..|fs| - 1], fs[|fs| - 1];
      MetadataValuesOf(init);
      forall i | 0 <= i < |fs| && StartsWith(fs[i].0, Prefix) && LastFor(fs, i)
        ensures RemoveAll(fs[i].0, Prefix) in MetadataOf(fs) && MetadataOf(fs)[RemoveAll(fs[i].0, Prefix)] == fs[i].1
      {
        if i < |init| {
          assert init[i] == fs[i];
          assert LastFor(init, i) by {
            forall j | i < j < |init| ensures !Strips(init[j].0, RemoveAll(init[i].0, Prefix)) {
              assert init[j] == fs[j];
            }
          }
          assert !Strips(f.0, RemoveAll(fs[i].0, Prefix));
        }
      }
    }
  }

  /** `sync_from_airtable` on the record's fields: collection_key and item_id
      as found (None when missing), the text ("" when missing), and the
      metadata. */
  function ExtractFields(fs: seq<(string, Value)>): Extracted {
    Extracted(Lookup(fs, "collection_key"), Lookup(fs, "item_id"), Lookup(fs, "text").GetOr(Str("")), MetadataOf(fs))
  }

  /** `sync_from_airtable`: `fetch` stands for getting the record by its id;
      the metadata is collected field by field. */
  method SyncFromAirtable(fetch: string -> AirtableRecord, recordId: string) returns (r: Extracted)
    ensures r == ExtractFields(fetch(recordId).fields)
  {
    var record := fetch(recordId);
    var fs := record.fields;
    var md: Metadata := map[];
    for i := 0 to |fs|
      invariant md == MetadataOf(fs[..i])
    {
      assert fs[..i + 1][..i] == fs[..i] && fs[..i + 1][i] == fs[i];
      var name := fs[i].0;
      if StartsWith(name, Prefix) {
        md := md[RemoveAll(name, Prefix) := fs[i].1];
      }
    }
    assert fs[..|fs|] == fs;
    r := Extracted(Lookup(fs, "collection_key"), Lookup(fs, "item_id"), Lookup(fs, "text").GetOr(Str("")), md);
  }

  // ---------------------------------------------------------------------
  // Round trip

  /** `fs` lists the fields of `f`, each name once. */
  ghost predicate Lists(fs: seq<(string, Value)>, f: Fields) {
    (forall i, j :: 0 <= i < j < |fs| ==> fs[i].0 != fs[j].0) &&
    (forall i :: 0 <= i < |fs| ==> fs[i].0 in f && f[fs[i].0] == fs[i].1) &&
    (forall n :: n in f ==> exists i :: 0 <= i < |fs| && fs[i].0 == n)
  }

  /** Removing the prefix everywhere from a text that does not contain it
      changes nothing. */
  lemma {:induction false} RemoveAbsent(s: string)
    requires !IsSubstring(Prefix, s)
    ensures RemoveAll(s, Prefix) == s
  {
    if |s| >= |Prefix| {
      assert !StartsWith(s, Prefix);
      RemoveAbsent(s[1..]);
      assert s == [s[0]] + s[1..];
    }
  }

  /** The prefix is stripped from the front and then from the rest. */
  lemma RemovePrefixed(k: string)
    ensures RemoveAll(Prefixed(k), Prefix) == RemoveAll(k, Prefix)
  {
    assert Prefixed(k)[..|Prefix|] == Prefix;
    assert Prefixed(k)[|Prefix|..] == k;
  }

  /** The meaning of one listed field of a flattening. */
  lemma ListedField(collectionKey: string, itemId: string, data: ItemData, str: Stringify,
                    fs: seq<(string, Value)>, i: nat)
    requires Lists(fs, Flattened(collectionKey, itemId, data, str)) && i < |fs|
    requires forall k :: k in data.metadata.GetOr(map[]) ==> !IsSubstring(Prefix, k)
    ensures var md := data.metadata.GetOr(map[]);
      StartsWith(fs[i].0, Prefix) ==>
        ((exists k :: k in md && fs[i].0 == Prefixed(k)) &&
         RemoveAll(fs[i].0, Prefix) in md && fs[i].1 == FieldValue(md[RemoveAll(fs[i].0, Prefix)], str))
  {
    var md := data.metadata.GetOr(map[]);
    var f := Flattened(collectionKey, itemId, data, str);
    FlattenedExactly(collectionKey, itemId, data, str);
    BaseUnprefixed();
    if StartsWith(fs[i].0, Prefix) {
      assert fs[i].0 in f;
      assert fs[i].0 !in BaseKeys;
      var k :| k in md && fs[i].0 == Prefixed(k);
      RemovePrefixed(k);
      RemoveAbsent(k);
    }
  }

  /** Reading back a flattened item, whatever order Airtable lists its fields
      in, recovers the collection, the id, the text and, for metadata keys that
      do not contain "metadata_", every value as it was sent. */
  lemma RoundTrip(collectionKey: string, itemId: string, data: ItemData, str: Stringify, fs: seq<(string, Value)>)
    requires Lists(fs, Flattened(collectionKey, itemId, data, str))
    requires forall k :: k in data.metadata.GetOr(map[]) ==> !IsSubstring(Prefix, k)
    ensures var md := data.metadata.GetOr(map[]);
      ExtractFields(fs) == Extracted(Some(Str(collectionKey)), Some(Str(itemId)), Str(data.text.GetOr("")),
                                      map k | k in md :: FieldValue(md[k], str))
  {
    var md := data.metadata.GetOr(map[]);
    var f := Flattened(collectionKey, itemId, data, str);
    FlattenedExactly(collectionKey, itemId, data, str);
    LookupListed(fs, f, "collection_key");
    LookupListed(fs, f, "item_id");
    LookupListed(fs, f, "text");
    var got, want := MetadataOf(fs), map k | k in md :: FieldValue(md[k], str);
    forall k | k in want ensures k in got && got[k] == want[k] {
      MetadataKeyBack(collectionKey, itemId, data, str, fs, k);
    }
    forall k | k in got ensures k in want {
      MetadataKeyFrom(collectionKey, itemId, data, str, fs, k);
    }
    SameMaps(got, want);
    assert f["text"] == Str(data.text.GetOr(""));
    assert Lookup(fs, "text") == Some(f["text"]);
    assert ExtractFields(fs) == Extracted(Lookup(fs, "collection_key"), Lookup(fs, "item_id"), Lookup(fs, "text").GetOr(Str("")), got);
  }

  /** Each metadata key comes back with the value sent for it. */
  lemma MetadataKeyBack(collectionKey: string, itemId: string, data: ItemData, str: Stringify,
                        fs: seq<(string, Value)>, k: string)
    requires Lists(fs, Flattened(collectionKey, itemId, data, str))
    requires forall k :: k in data.metadata.GetOr(map[]) ==> !IsSubstring(Prefix, k)
    requires k in data.metadata.GetOr(map[])
    ensures k in MetadataOf(fs) && MetadataOf(fs)[k] == FieldValue(data.metadata.GetOr(map[])[k], str)
  {
    var md := data.metadata.GetOr(map[]);
    FlattenedExactly(collectionKey, itemId, data, str);
    assert Prefixed(k) in Flattened(collectionKey, itemId, data, str);
    var i :| 0 <= i < |fs| && fs[i].0 == Prefixed(k);
    assert StartsWith(fs[i].0, Prefix) by {
      assert Prefixed(k)[..|Prefix|] == Prefix;
    }
    RemovePrefixed(k);
    RemoveAbsent(k);
    forall j | i < j < |fs| ensures !Strips(fs[j].0, k) {
      if Strips(fs[j].0, k) {
        ListedField(collectionKey, itemId, data, str, fs, j);
        var k' :| k' in md && fs[j].0 == Prefixed(k');
        RemovePrefixed(k');
        RemoveAbsent(k');
        assert false;
      }
    }
    assert LastFor(fs, i);
    MetadataOfExactly(fs);
    ListedField(collectionKey, itemId, data, str, fs, i);
  }

  /** Every extracted key is a metadata key. */
  lemma MetadataKeyFrom(collectionKey: string, itemId: string, data: ItemData, str: Stringify,
                        fs: seq<(string, Value)>, k: string)
    requires Lists(fs, Flattened(collectionKey, itemId, data, str))
    requires forall k :: k in data.metadata.GetOr(map[]) ==> !IsSubstring(Prefix, k)
    requires k in MetadataOf(fs)
    ensures k in data.metadata.GetOr(map[])
  {
    MetadataOfExactly(fs);
    var i :| 0 <= i < |fs| && Strips(fs[i].0, k);
    ListedField(collectionKey, itemId, data, str, fs, i);
  }

  lemma LookupListed(fs: seq<(string, Value)>, f: Fields, name: string)
    requires Lists(fs, f) && name in f
    ensures Lookup(fs, name) == Some(f[name])
  {
    var i :| 0 <= i < |fs| && fs[i].0 == name;
    var r := Lookup(fs, name);
    var j :| 0 <= j < |fs| && fs[j] == (name, r.value);
    assert i == j;
  }

  lemma SameMaps(a: Metadata, b: Metadata)
    requires forall k :: k in b ==> k in a && a[k] == b[k]
    requires forall k :: k in a ==> k in b
    ensures a == b
  {
  }

  /** With only scalar metadata the metadata comes back unchanged. */
  lemma ScalarRoundTrip(collectionKey: string, itemId: string, data: ItemData, str: Stringify, fs: seq<(string, Value)>)
    requires Lists(fs, Flattened(collectionKey, itemId, data, str))
    requires forall k :: k in data.metadata.GetOr(map[]) ==> !IsSubstring(Prefix, k)
    requires forall k :: k in data.metadata.GetOr(map[]) ==>
      !data.metadata.GetOr(map[])[k].List? && !data.metadata.GetOr(map[])[k].Dict?
    ensures ExtractFields(fs).metadata == data.metadata.GetOr(map[])
  {
    RoundTrip(collectionKey, itemId, data, str, fs);
  }

  /** A metadata key that is itself prefixed comes back without the prefix:
      `metadata_x` is sent as the field `metadata_metadata_x` and read back as
      the key `x`. */
  lemma MangledKey(collectionKey: string, itemId: string, data: ItemData, str: Stringify,
                   fs: seq<(string, Value)>, k: string)
    requires Lists(fs, Flattened(collectionKey, itemId, data, str))
    requires Prefixed(k) in data.metadata.GetOr(map[]) && !IsSubstring(Prefix, k)
    ensures k in ExtractFields(fs).metadata
  {
    FlattenedExactly(collectionKey, itemId, data, str);
    var n := Prefixed(Prefixed(k));
    assert n in Flattened(collectionKey, itemId, data, str);
    var i :| 0 <= i < |fs| && fs[i].0 == n;
    assert StartsWith(n, Prefix) by {
      assert n[..|Prefix|] == Prefix;
    }
    RemovePrefixed(Prefixed(k));
    RemovePrefixed(k);
    RemoveAbsent(k);
    assert Strips(fs[i].0, k);
    MetadataOfExactly(fs);
  }
}
