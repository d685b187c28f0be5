/** The priority optimiser. It reviews the modules with a fixed similarity
    of 0.9 and no item cut, then, when asked, marks the records of the
    duplicates to be merged, archives the low-relevance items to be archived,
    and finally passes over the first 100 items of every module moving a
    record's level to high or low by its usage and relevance. Every record
    lookup sees only the first 100 stored records, and the running state is
    the priority collection together with the reports and the counter. */
module Optimize {
  import opened Wrappers
  import opened Values
  import opened Database
  import opened Priorities

  datatype OptimizeRequest = OptimizeRequest(moduleKey: string, autoMerge: bool, autoArchive: bool)

  /** A merged duplicate: the group's primary item and the duplicate, each
      with its shortened text and module. */
  datatype Merged = Merged(primary: Ref, duplicate: Ref)

  datatype Archived = Archived(id: string, text: string, moduleKey: string, relevanceScore: real)

  /** A level change of the reprioritisation pass. */
  datatype Change = Change(id: string, text: string, moduleKey: string, oldPriority: Value, newPriority: Value)

  /** The priority records and the reports and counter built so far. */
  datatype Progress = Progress(prios: seq<Item>, total: nat, merged: seq<Merged>, archived: seq<Archived>,
                               changes: seq<Change>)

  /** A pass that stops at the first comparison that raises. */
  datatype Run = Run(state: Progress, failure: Option<Error>)

  /** The optimiser's answer and the priority records it leaves. */
  datatype Optimization = Optimization(result: Result<Progress, Error>, priorities: seq<Item>)

  /** The counter counts every report. */
  predicate Counted(s: Progress) {
    s.total == |s.merged| + |s.archived| + |s.changes|
  }

  /** What every phase keeps: ids stay distinct, the counter stays in step
      with the reports, and earlier reports stay as they were. */
  ghost predicate Grows(s: Progress, t: Progress) {
    UniqueIds(t.prios) && (Counted(s) ==> Counted(t)) &&
    |s.merged| <= |t.merged| && t.merged[..|s.merged|] == s.merged &&
    |s.archived| <= |t.archived| && t.archived[..|s.archived|] == s.archived &&
    |s.changes| <= |t.changes| && t.changes[..|s.changes|] == s.changes
  }

  lemma GrowsTrans(a: Progress, b: Progress, c: Progress)
    requires Grows(a, b) && Grows(b, c)
    ensures Grows(a, c)
  {
    assert c.merged[..|a.merged|] == c.merged[..|b.merged|][..|a.merged|];
    assert c.archived[..|a.archived|] == c.archived[..|b.archived|][..|a.archived|];
    assert c.changes[..|a.changes|] == c.changes[..|b.changes|][..|a.changes|];
  }

  /** The priority collection is none of the analysed modules. */
  lemma KeyApart(m: string)
    requires m in AnalyzableModules
    ensures m != Key
  {
  }

  /** The review the optimiser runs: the requested module(s), similarity 0.9,
      up to 1000 items, with duplicates and low relevance. */
  function ReviewFor(req: OptimizeRequest): ReviewRequest {
    ReviewRequest(req.moduleKey, 0.9, 1000, true, true)
  }

  // ---------------------------------------------------------------------
  // Merge groups

  /** A group: the id of the pairs' first item and their second items, in order. */
  type Group = (string, seq<Ref>)

  /** `duplicate_groups[key].append(r)` on an insertion-ordered dictionary. */
  function AddToGroup(gs: seq<Group>, key: string, r: Ref): seq<Group> {
    if gs == [] then [(key, [r])]
    else if gs[0].0 == key then [(key, gs[0].1 + [r])] + gs[1..]
    else [gs[0]] + AddToGroup(gs[1..], key, r)
  }

  /** The groups of the pairs to be merged, keyed by the first item's id. */
  function Groups(dups: seq<DuplicatePair>): seq<Group> {
    if dups == [] then []
    else
      var init, d := dups[..|dups| - 1], dups[|dups| - 1];
      if d.suggestedAction == "merge" then AddToGroup(Groups(init), d.item1.id, d.item2) else Groups(init)
  }

  /** The second items of the pairs to be merged whose first item has id `k`, in order. */
  function Seconds(dups: seq<DuplicatePair>, k: string): seq<Ref> {
    if dups == [] then []
    else
      var init, d := dups[..|dups| - 1], dups[|dups| - 1];
      Seconds(init, k) + if d.suggestedAction == "merge" && d.item1.id == k then [d.item2] else []
  }

  /** The group with key `k`, empty when there is none. */
  function GroupOf(gs: seq<Group>, k: string): seq<Ref> {
    if gs == [] then [] else if gs[0].0 == k then gs[0].1 else GroupOf(gs[1..], k)
  }

  predicate HasKey(gs: seq<Group>, k: string) {
    exists i :: 0 <= i < |gs| && gs[i].0 == k
  }

  predicate DistinctKeys(gs: seq<Group>) {
    forall i, j :: 0 <= i < j < |gs| ==> gs[i].0 != gs[j].0
  }

  predicate NonEmptyGroups(gs: seq<Group>) {
    forall i :: 0 <= i < |gs| ==> gs[i].1 != []
  }

  /** Adding to a key already present extends that key's first group in place. */
  lemma {:induction false} AddToGroupAt(gs: seq<Group>, key: string, r: Ref) returns (i: nat)
    requires HasKey(gs, key)
    ensures i < |gs| && gs[i].0 == key && AddToGroup(gs, key, r) == gs[i := (key, gs[i].1 + [r])]
  {
    if gs[0].0 == key {
      i := 0;
    } else {
      assert forall j :: 1 <= j < |gs| ==> gs[j] == gs[1..][j - 1];
      var h :| 0 <= h < |gs| && gs[h].0 == key;
      assert gs[1..][h - 1].0 == key;
      var i' := AddToGroupAt(gs[1..], key, r);
      i := i' + 1;
      assert AddToGroup(gs, key, r) == [gs[0]] + gs[1..][i' := (key, gs[1..][i'].1 + [r])];
    }
  }

  /** Adding to a new key appends a one-element group. */
  lemma {:induction false} AddToGroupNew(gs: seq<Group>, key: string, r: Ref)
    requires !HasKey(gs, key)
    ensures AddToGroup(gs, key, r) == gs + [(key, [r])]
  {
    if gs != [] {
      assert forall j :: 1 <= j < |gs| ==> gs[j] == gs[1..][j - 1];
      AddToGroupNew(gs[1..], key, r);
      assert gs == [gs[0]] + gs[1..];
    }
  }

  /** With distinct keys a key's group is the one stored under it. */
  lemma {:induction false} GroupOfAt(gs: seq<Group>, i: nat, k: string)
    requires DistinctKeys(gs) && i < |gs| && gs[i].0 == k
    ensures GroupOf(gs, k) == gs[i].1
  {
    if i > 0 {
      assert forall j :: 1 <= j < |gs| ==> gs[j] == gs[1..][j - 1];
      GroupOfAt(gs[1..], i - 1, k);
    }
  }

  lemma {:induction false} GroupOfMissing(gs: seq<Group>, k: string)
    requires !HasKey(gs, k)
    ensures GroupOf(gs, k) == []
  {
    if gs != [] {
      assert forall j :: 1 <= j < |gs| ==> gs[j] == gs[1..][j - 1];
      GroupOfMissing(gs[1..], k);
    }
  }

  /** Adding `r` under `key` keeps keys distinct and groups non-empty, and
      adds exactly `key` to the keys. */
  lemma AddToGroupShape(gs: seq<Group>, key: string, r: Ref, k: string)
    requires DistinctKeys(gs) && NonEmptyGroups(gs)
    ensures HasKey(AddToGroup(gs, key, r), k) <==> HasKey(gs, k) || k == key
    ensures DistinctKeys(AddToGroup(gs, key, r)) && NonEmptyGroups(AddToGroup(gs, key, r))
  {
    var a := AddToGroup(gs, key, r);
    if HasKey(gs, key) {
      var i := AddToGroupAt(gs, key, r);
      assert forall j :: 0 <= j < |a| ==> a[j].0 == gs[j].0;
    } else {
      AddToGroupNew(gs, key, r);
      assert a[|gs|].0 == key;
      assert forall j :: 0 <= j < |gs| ==> a[j] == gs[j];
    }
  }

  /** Adding `r` under `key` extends exactly that key's group. */
  lemma AddToGroupFacts(gs: seq<Group>, key: string, r: Ref, k: string)
    requires DistinctKeys(gs) && NonEmptyGroups(gs)
    ensures GroupOf(AddToGroup(gs, key, r), k) == GroupOf(gs, k) + if k == key then [r] else []
  {
    var a := AddToGroup(gs, key, r);
    AddToGroupShape(gs, key, r, k);
    if HasKey(gs, k) {
      var j :| 0 <= j < |gs| && gs[j].0 == k;
      GroupOfAt(gs, j, k);
      if HasKey(gs, key) {
        var i := AddToGroupAt(gs, key, r);
        GroupOfAt(a, j, k);
      } else {
        AddToGroupNew(gs, key, r);
        GroupOfAt(a, j, k);
      }
    } else {
      GroupOfMissing(gs, k);
      if k == key {
        AddToGroupNew(gs, key, r);
        GroupOfAt(a, |gs|, k);
      } else {
        GroupOfMissing(a, k);
      }
    }
  }

  /** Each group holds exactly the second items of the pairs to be merged
      with that first id, in their order; a key has a group exactly when such
      a pair exists; keys are distinct and groups never empty. */
  lemma {:induction false} GroupsExactly(dups: seq<DuplicatePair>, k: string)
    ensures GroupOf(Groups(dups), k) == Seconds(dups, k)
    ensures HasKey(Groups(dups), k) <==> Seconds(dups, k) != []
    ensures DistinctKeys(Groups(dups)) && NonEmptyGroups(Groups(dups))
  {
    if dups != [] {
      var init, d := dups[..|dups| - 1], dups[|dups| - 1];
      GroupsExactly(init, k);
      if d.suggestedAction == "merge" {
        AddToGroupShape(Groups(init), d.item1.id, d.item2, k);
        AddToGroupFacts(Groups(init), d.item1.id, d.item2, k);
      }
    }
  }

  /** Groups of refs drawn from known modules. */
  predicate RefsKnown(refs: seq<Ref>) {
    forall r :: r in refs ==> r.moduleKey in AnalyzableModules
  }

  predicate DupsKnown(dups: seq<DuplicatePair>) {
    forall d :: d in dups ==> d.item1.moduleKey in AnalyzableModules && d.item2.moduleKey in AnalyzableModules
  }

  predicate GroupsKnown(gs: seq<Group>) {
    forall i :: 0 <= i < |gs| ==> RefsKnown(gs[i].1)
  }

  lemma AddToGroupKnown(gs: seq<Group>, key: string, r: Ref)
    requires GroupsKnown(gs) && r.moduleKey in AnalyzableModules
    ensures GroupsKnown(AddToGroup(gs, key, r))
  {
    if HasKey(gs, key) {
      var i := AddToGroupAt(gs, key, r);
    } else {
      AddToGroupNew(gs, key, r);
    }
  }

  lemma {:induction false} GroupsFromKnown(dups: seq<DuplicatePair>)
    requires DupsKnown(dups)
    ensures GroupsKnown(Groups(dups))
  {
    if dups != [] {
      var init, d := dups[..|dups| - 1], dups[|dups| - 1];
      assert forall x :: x in init ==> x in dups;
      GroupsFromKnown(init);
      if d.suggestedAction == "merge" {
        AddToGroupKnown(Groups(init), d.item1.id, d.item2);
      }
    }
  }

  /** `next(d["item1"]["module"] for d in duplicates if d["item1"]["id"] == id)`. */
  function FirstModule(dups: seq<DuplicatePair>, id: string): Option<string> {
    if dups == [] then None
    else if dups[0].item1.id == id then Some(dups[0].item1.moduleKey)
    else FirstModule(dups[1..], id)
  }

  lemma {:induction false} FirstModuleKnown(dups: seq<DuplicatePair>, id: string)
    requires DupsKnown(dups)
    ensures FirstModule(dups, id).Some? ==> FirstModule(dups, id).value in AnalyzableModules
  {
    if dups != [] && dups[0].item1.id != id {
      assert forall x :: x in dups[1..] ==> x in dups;
      FirstModuleKnown(dups[1..], id);
    }
  }

  // ---------------------------------------------------------------------
  // Record rewrites

  /** The record of an item among the first 100 is stored under its own id. */
  lemma RecordStored(prios: seq<Item>, itemId: string, m: string)
    requires UniqueIds(prios) && RecordOf(prios, itemId, m).Some?
    ensures var p := RecordOf(prios, itemId, m).value;
      HasId(prios, p.id) && Find(prios, p.id) == Some(p) && RecordFor(p, itemId, m)
  {
    var w := Take(prios, DefaultLimit);
    FirstRecordFacts(w, itemId, m);
    var k :| 0 <= k < |w| && w[k] == RecordOf(prios, itemId, m).value && RecordFor(w[k], itemId, m) &&
      forall j :: 0 <= j < k ==> !RecordFor(w[j], itemId, m);
    assert w[k] == prios[k];
    FindIndex(prios, k);
  }

  /** Rewriting an item's record with metadata that keeps its item id and
      module leaves ids distinct, makes the lookup find the rewrite, and
      leaves every other item's lookup as it was. */
  lemma Rewritten(prios: seq<Item>, itemId: string, m: string, md: Metadata, otherId: string, otherModule: string)
    requires UniqueIds(prios) && RecordOf(prios, itemId, m).Some?
    requires HasStr(md, "item_id", itemId) && HasStr(md, "module", m)
    ensures var p := RecordOf(prios, itemId, m).value;
      var after := Replaced(prios, p.id, Item(p.id, p.text, md));
      UniqueIds(after) && RecordOf(after, itemId, m) == Some(Item(p.id, p.text, md)) &&
      ((otherId, otherModule) != (itemId, m) ==> RecordOf(after, otherId, otherModule) == RecordOf(prios, otherId, otherModule))
  {
    var p := RecordOf(prios, itemId, m).value;
    var x := Item(p.id, p.text, md);
    RecordStored(prios, itemId, m);
    ReplacedThenFind(prios, x, x.id);
    RecordOfReplaced(prios, itemId, m, x, otherId, otherModule);
  }

  // ---------------------------------------------------------------------
  // Merging

  /** The duplicate's record marked: is_duplicate, duplicate_of the primary, updated_at. */
  function MarkedMetadata(md: Metadata, primaryId: string, now: string): Metadata {
    md["is_duplicate" := Bool(true)]["duplicate_of" := Str(primaryId)]["updated_at" := Str(now)]
  }

  /** One duplicate of a group: skipped when the item is gone; otherwise
      reported and counted, and its record (when one is found) marked. */
  function MergeStep(cols: map<string, seq<Item>>, s: Progress, primary: Ref, r: Ref, now: string): Progress
    requires Shaped(cols) && r.moduleKey in AnalyzableModules
  {
    match Find(cols[r.moduleKey], r.id)
    case None => s
    case Some(dup) =>
      var prios := match RecordOf(s.prios, r.id, r.moduleKey)
        case None => s.prios
        case Some(p) => Replaced(s.prios, p.id, Item(p.id, p.text, MarkedMetadata(p.metadata, primary.id, now)));
      s.(prios := prios, total := s.total + 1,
         merged := s.merged + [Merged(primary, Ref(r.id, Shorten(dup.text), r.moduleKey))])
  }

  /** The duplicates of one group, in order. */
  function MergeRefs(cols: map<string, seq<Item>>, s: Progress, primary: Ref, refs: seq<Ref>, now: string): Progress
    requires Shaped(cols) && RefsKnown(refs)
  {
    if refs == [] then s
    else
      var init := refs[..|refs| - 1];
      assert forall x :: x in init ==> x in refs;
      MergeStep(cols, MergeRefs(cols, s, primary, init, now), primary, refs[|refs| - 1], now)
  }

  /** One group: its module is that of the first pair with its key; a
      missing primary item skips the group. */
  function MergeGroup(cols: map<string, seq<Item>>, s: Progress, dups: seq<DuplicatePair>, g: Group, now: string): Progress
    requires Shaped(cols) && DupsKnown(dups) && RefsKnown(g.1)
  {
    FirstModuleKnown(dups, g.0);
    match FirstModule(dups, g.0)
    case None => s
    case Some(m) =>
      match Find(cols[m], g.0)
      case None => s
      case Some(p) => MergeRefs(cols, s, Ref(g.0, Shorten(p.text), m), g.1, now)
  }

  /** The groups in their order. */
  function MergeGroups(cols: map<string, seq<Item>>, s: Progress, dups: seq<DuplicatePair>, gs: seq<Group>, now: string)
    : Progress
    requires Shaped(cols) && DupsKnown(dups) && GroupsKnown(gs)
  {
    if gs == [] then s
    else MergeGroup(cols, MergeGroups(cols, s, dups, gs[..|gs| - 1], now), dups, gs[|gs| - 1], now)
  }

  /** A duplicate whose item is stored is reported and counted whether or not
      it has a record; a record found is marked as the primary's duplicate,
      keeping its other keys, and is what the item's next lookup finds. */
  lemma MergeStepFacts(cols: map<string, seq<Item>>, s: Progress, primary: Ref, r: Ref, now: string, otherId: string,
                       otherModule: string)
    requires Shaped(cols) && r.moduleKey in AnalyzableModules && UniqueIds(s.prios)
    ensures var t := MergeStep(cols, s, primary, r, now);
      Grows(s, t) && t.archived == s.archived && t.changes == s.changes &&
      (!HasId(cols[r.moduleKey], r.id) ==> t == s) &&
      (HasId(cols[r.moduleKey], r.id) ==>
        t.total == s.total + 1 && |t.merged| == |s.merged| + 1 &&
        t.merged[|s.merged|].primary == primary && t.merged[|s.merged|].duplicate.id == r.id &&
        t.merged[|s.merged|].duplicate.moduleKey == r.moduleKey) &&
      (RecordOf(s.prios, r.id, r.moduleKey).None? ==> t.prios == s.prios) &&
      (HasId(cols[r.moduleKey], r.id) && RecordOf(s.prios, r.id, r.moduleKey).Some? ==>
        var p := RecordOf(s.prios, r.id, r.moduleKey).value;
        RecordOf(t.prios, r.id, r.moduleKey) == Some(Item(p.id, p.text, MarkedMetadata(p.metadata, primary.id, now))) &&
        ((otherId, otherModule) != (r.id, r.moduleKey) ==>
          RecordOf(t.prios, otherId, otherModule) == RecordOf(s.prios, otherId, otherModule)))
  {
    var q := RecordOf(s.prios, r.id, r.moduleKey);
    if q.Some? {
      RecordStored(s.prios, r.id, r.moduleKey);
      Rewritten(s.prios, r.id, r.moduleKey, MarkedMetadata(q.value.metadata, primary.id, now), otherId, otherModule);
    }
  }

  /** The marked metadata keeps every key but the three it sets. */
  lemma MarkedKeeps(md: Metadata, primaryId: string, now: string, k: string)
    requires k in md && k !in {"is_duplicate", "duplicate_of", "updated_at"}
    ensures var a := MarkedMetadata(md, primaryId, now);
      a["is_duplicate"] == Bool(true) && a["duplicate_of"] == Str(primaryId) && k in a && a[k] == md[k]
  {
  }

  // ---------------------------------------------------------------------
  // Archiving

  /** An existing record archived: level "archived" and updated_at. */
  function ArchivedMetadata(md: Metadata, now: string): Metadata {
    md["priority_level" := Str("archived")]["updated_at" := Str(now)]
  }

  /** A new archived record's metadata: the report's item, module and score,
      never used, not a duplicate, all timestamps `now`. */
  function ArchivedRecordMetadata(l: LowRelevance, now: string): Metadata {
    map["item_id" := Str(l.id), "module" := Str(l.moduleKey), "priority_level" := Str("archived"),
        "relevance_score" := Num(l.relevanceScore), "usage_count" := Num(0.0),
        "last_accessed" := Str(now), "is_duplicate" := Bool(false), "duplicate_of" := Null,
        "created_at" := Str(now), "updated_at" := Str(now)]
  }

  /** One report: skipped unless it is to be archived and its item is
      stored; otherwise reported and counted, and its record archived or an
      archived record added under `id`. */
  function ArchiveStep(cols: map<string, seq<Item>>, s: Progress, l: LowRelevance, now: string, id: string): Progress
    requires Shaped(cols) && l.moduleKey in AnalyzableModules
  {
    if l.suggestedAction != "archive" then s
    else
      match Find(cols[l.moduleKey], l.id)
      case None => s
      case Some(it) =>
        var prios := match RecordOf(s.prios, l.id, l.moduleKey)
          case Some(p) => Replaced(s.prios, p.id, Item(p.id, p.text, ArchivedMetadata(p.metadata, now)))
          case None => Added(s.prios, Item(id, RecordText(it.text, l.moduleKey), ArchivedRecordMetadata(l, now)));
        s.(prios := prios, total := s.total + 1,
           archived := s.archived + [Archived(l.id, Shorten(it.text), l.moduleKey, l.relevanceScore)])
  }

  predicate LowsKnown(lows: seq<LowRelevance>) {
    forall l :: l in lows ==> l.moduleKey in AnalyzableModules
  }

  /** The reports in order; the k-th uses the k-th generated id. */
  function ArchivePhase(cols: map<string, seq<Item>>, s: Progress, lows: seq<LowRelevance>, now: string,
                        newId: nat -> string): Progress
    requires Shaped(cols) && LowsKnown(lows)
  {
    if lows == [] then s
    else
      var k := |lows| - 1;
      assert forall x :: x in lows[..k] ==> x in lows;
      ArchiveStep(cols, ArchivePhase(cols, s, lows[..k], now, newId), lows[k], now, newId(k))
  }

  /** A report to be archived whose item is stored is reported and counted
      whether or not it had a record, with the report's id, module and score;
      any other report changes nothing. */
  lemma ArchiveStepFacts(cols: map<string, seq<Item>>, s: Progress, l: LowRelevance, now: string, id: string)
    requires Shaped(cols) && l.moduleKey in AnalyzableModules && UniqueIds(s.prios)
    ensures var t := ArchiveStep(cols, s, l, now, id);
      Grows(s, t) && t.merged == s.merged && t.changes == s.changes &&
      (l.suggestedAction != "archive" || !HasId(cols[l.moduleKey], l.id) ==> t == s) &&
      (l.suggestedAction == "archive" && HasId(cols[l.moduleKey], l.id) ==>
        t.total == s.total + 1 && |t.archived| == |s.archived| + 1 &&
        t.archived[|s.archived|].id == l.id && t.archived[|s.archived|].moduleKey == l.moduleKey &&
        t.archived[|s.archived|].relevanceScore == l.relevanceScore)
  {
    if l.suggestedAction == "archive" && HasId(cols[l.moduleKey], l.id) {
      var it := Find(cols[l.moduleKey], l.id).value;
      var q := RecordOf(s.prios, l.id, l.moduleKey);
      if q.Some? {
        RecordStored(s.prios, l.id, l.moduleKey);
        ReplacedThenFind(s.prios, Item(q.value.id, q.value.text, ArchivedMetadata(q.value.metadata, now)), q.value.id);
      } else {
        AddedThenFind(s.prios, Item(id, RecordText(it.text, l.moduleKey), ArchivedRecordMetadata(l, now)), id);
      }
    }
    var t := ArchiveStep(cols, s, l, now, id);
    assert t.merged[..|s.merged|] == s.merged && t.changes[..|s.changes|] == s.changes;
    assert t.archived[..|s.archived|] == s.archived;
  }

  /** An archived item's record becomes "archived"; without one, a new
      archived record with the report's score is added, which the next lookup
      finds while fewer than 100 records are stored and the id is new. */
  lemma ArchiveStepRecord(cols: map<string, seq<Item>>, s: Progress, l: LowRelevance, now: string, id: string)
    requires Shaped(cols) && l.moduleKey in AnalyzableModules && UniqueIds(s.prios)
    requires l.suggestedAction == "archive" && HasId(cols[l.moduleKey], l.id)
    ensures var t := ArchiveStep(cols, s, l, now, id);
      (RecordOf(s.prios, l.id, l.moduleKey).Some? ==>
        var p := RecordOf(s.prios, l.id, l.moduleKey).value;
        RecordOf(t.prios, l.id, l.moduleKey) == Some(Item(p.id, p.text, ArchivedMetadata(p.metadata, now)))) &&
      (RecordOf(s.prios, l.id, l.moduleKey).None? && |s.prios| < DefaultLimit && !HasId(s.prios, id) ==>
        RecordOf(t.prios, l.id, l.moduleKey).Some? &&
        RecordOf(t.prios, l.id, l.moduleKey).value.metadata == ArchivedRecordMetadata(l, now))
  {
    var it := Find(cols[l.moduleKey], l.id).value;
    var q := RecordOf(s.prios, l.id, l.moduleKey);
    if q.Some? {
      RecordStored(s.prios, l.id, l.moduleKey);
      Rewritten(s.prios, l.id, l.moduleKey, ArchivedMetadata(q.value.metadata, now), l.id, l.moduleKey);
    } else if |s.prios| < DefaultLimit && !HasId(s.prios, id) {
      AddedWithinWindow(s.prios, Item(id, RecordText(it.text, l.moduleKey), ArchivedRecordMetadata(l, now)), l.id, l.moduleKey);
    }
  }

  // ---------------------------------------------------------------------
  // Reprioritisation

  /** Python `v > x` against a number; a non-number raises. */
  function Above(v: Value, x: real): Result<bool, Error> {
    match AsNumber(v)
    case Some(n) => Ok(n > x)
    case None => Err(StoreFailure("TypeError: '>' not supported"))
  }

  /** Python `v < x` against a number; a non-number raises. */
  function Below(v: Value, x: real): Result<bool, Error> {
    match AsNumber(v)
    case Some(n) => Ok(n < x)
    case None => Err(StoreFailure("TypeError: '<' not supported"))
  }

  /** The level rule, with `and` short-circuiting: high when used more than
      10 times and relevance above 0.7, else low when used fewer than 2 times
      and relevance below 0.3, else the current level. */
  function NewPriority(usage: Value, relevance: Value, current: Value): Result<Value, Error> {
    var high := match Above(usage, 10.0)
      case Err(e) => Err(e)
      case Ok(b) => if b then Above(relevance, 0.7) else Ok(false);
    match high
    case Err(e) => Err(e)
    case Ok(true) => Ok(Str("high"))
    case Ok(false) =>
      var low := match Below(usage, 2.0)
        case Err(e) => Err(e)
        case Ok(b) => if b then Below(relevance, 0.3) else Ok(false);
      match low
      case Err(e) => Err(e)
      case Ok(true) => Ok(Str("low"))
      case Ok(false) => Ok(current)
  }

  /** For numeric usage and relevance the rule never raises and decides
      high, low or unchanged exactly by the thresholds. */
  lemma DecisionRules(u: real, r: real, current: Value)
    ensures NewPriority(Num(u), Num(r), current) ==
      if u > 10.0 && r > 0.7 then Ok(Str("high"))
      else if u < 2.0 && r < 0.3 then Ok(Str("low"))
      else Ok(current)
  {
  }

  /** The rule applied to its own answer gives the same answer. */
  lemma NewPriorityStable(usage: Value, relevance: Value, current: Value)
    requires NewPriority(usage, relevance, current).Ok?
    ensures NewPriority(usage, relevance, NewPriority(usage, relevance, current).value) == NewPriority(usage, relevance, current)
  {
  }

  function LeveledMetadata(md: Metadata, level: Value, now: string): Metadata {
    md["priority_level" := level]["updated_at" := Str(now)]
  }

  function Current(p: Item): Value {
    Get(p.metadata, "priority_level", Str("medium"))
  }

  function Decision(p: Item): Result<Value, Error> {
    NewPriority(Get(p.metadata, "usage_count", Num(0.0)), Get(p.metadata, "relevance_score", Num(0.5)), Current(p))
  }

  /** One item of a module: nothing without a record; a record whose level
      the rule changes, unless it is archived, is rewritten, reported and
      counted. */
  function ReprioritizeStep(s: Progress, m: string, it: Item, now: string): Run {
    match RecordOf(s.prios, it.id, m)
    case None => Run(s, None)
    case Some(p) =>
      match Decision(p)
      case Err(e) => Run(s, Some(e))
      case Ok(next) =>
        if next != Current(p) && Current(p) != Str("archived") then
          var x := Item(p.id, p.text, LeveledMetadata(p.metadata, next, now));
          Run(s.(prios := Replaced(s.prios, p.id, x), total := s.total + 1,
                 changes := s.changes + [Change(it.id, Shorten(it.text), m, Current(p), next)]), None)
        else Run(s, None)
  }

  /** The items the pass visits: the first 100 of each module, module by module. */
  function Pairs(m: string, items: seq<Item>): (r: seq<(string, Item)>)
    ensures |r| == |items| && forall k :: 0 <= k < |items| ==> r[k] == (m, items[k])
  {
    seq(|items|, k requires 0 <= k < |items| => (m, items[k]))
  }

  function Visits(cols: map<string, seq<Item>>, modules: seq<string>): seq<(string, Item)>
    requires forall m :: m in modules ==> m in cols
  {
    if modules == [] then []
    else
      var init, m := modules[..|modules| - 1], modules[|modules| - 1];
      assert forall x :: x in init ==> x in modules;
      Visits(cols, init) + Pairs(m, Take(cols[m], DefaultLimit))
  }

  /** The pass over the visits in order; the first comparison that raises stops it. */
  function Reprioritize(s: Progress, vs: seq<(string, Item)>, now: string): Run {
    if vs == [] then Run(s, None)
    else
      var r := Reprioritize(s, vs[..|vs| - 1], now);
      if r.failure.Some? then r else ReprioritizeStep(r.state, vs[|vs| - 1].0, vs[|vs| - 1].1, now)
  }

  /** A visit is settled when the rule would leave its record as it is. */
  predicate Settled(prios: seq<Item>, m: string, id: string) {
    match RecordOf(prios, id, m)
    case None => true
    case Some(p) => Decision(p).Ok? && (Decision(p).value == Current(p) || Current(p) == Str("archived"))
  }

  /** A step on a settled visit changes nothing. */
  lemma SettledStep(s: Progress, m: string, it: Item, now: string)
    requires Settled(s.prios, m, it.id)
    ensures ReprioritizeStep(s, m, it, now) == Run(s, None)
  {
  }

  /** A step that does not raise settles its visit, keeps ids distinct, and
      leaves every other item's lookup as it was. */
  lemma StepSettles(s: Progress, m: string, it: Item, now: string, otherId: string, otherModule: string)
    requires UniqueIds(s.prios) && ReprioritizeStep(s, m, it, now).failure.None?
    ensures var t := ReprioritizeStep(s, m, it, now).state;
      UniqueIds(t.prios) && Settled(t.prios, m, it.id) && Counted(s) == Counted(t) &&
      ((otherId, otherModule) != (it.id, m) ==> RecordOf(t.prios, otherId, otherModule) == RecordOf(s.prios, otherId, otherModule))
  {
    var q := RecordOf(s.prios, it.id, m);
    if q.Some? {
      var p := q.value;
      var next := Decision(p).value;
      if next != Current(p) && Current(p) != Str("archived") {
        RecordStored(s.prios, it.id, m);
        var md := LeveledMetadata(p.metadata, next, now);
        Rewritten(s.prios, it.id, m, md, otherId, otherModule);
        var x := Item(p.id, p.text, md);
        NewPriorityStable(Get(p.metadata, "usage_count", Num(0.0)), Get(p.metadata, "relevance_score", Num(0.5)), Current(p));
        assert Current(x) == next;
        assert Decision(x) == Ok(next);
      }
    }
  }

  /** A pass that does not raise leaves every visit settled and ids distinct. */
  lemma {:induction false} PassSettles(s: Progress, vs: seq<(string, Item)>, now: string)
    requires UniqueIds(s.prios) && Reprioritize(s, vs, now).failure.None?
    ensures UniqueIds(Reprioritize(s, vs, now).state.prios)
    ensures Counted(s) ==> Counted(Reprioritize(s, vs, now).state)
    ensures forall k :: 0 <= k < |vs| ==> Settled(Reprioritize(s, vs, now).state.prios, vs[k].0, vs[k].1.id)
  {
    if vs != [] {
      var init, v := vs[..|vs| - 1], vs[|vs| - 1];
      PassSettles(s, init, now);
      var mid := Reprioritize(s, init, now).state;
      var t := Reprioritize(s, vs, now).state;
      StepSettles(mid, v.0, v.1, now, v.1.id, v.0);
      forall k | 0 <= k < |vs| ensures Settled(t.prios, vs[k].0, vs[k].1.id) {
        if k < |init| && (vs[k].1.id, vs[k].0) != (v.1.id, v.0) {
          assert Settled(mid.prios, init[k].0, init[k].1.id);
          StepSettles(mid, v.0, v.1, now, vs[k].1.id, vs[k].0);
        }
      }
    }
  }

  /** A pass over settled visits changes nothing. */
  lemma {:induction false} SettledPass(s: Progress, vs: seq<(string, Item)>, now: string)
    requires forall k :: 0 <= k < |vs| ==> Settled(s.prios, vs[k].0, vs[k].1.id)
    ensures Reprioritize(s, vs, now) == Run(s, None)
  {
    if vs != [] {
      var init := vs[..|vs| - 1];
      SettledPass(s, init, now);
      SettledStep(s, vs[|vs| - 1].0, vs[|vs| - 1].1, now);
    }
  }

  /** A second pass over the same visits, with no writes in between, changes
      no record, reports nothing and counts nothing. */
  lemma ReprioritizeIdempotent(s: Progress, vs: seq<(string, Item)>, now: string, later: string)
    requires UniqueIds(s.prios) && Reprioritize(s, vs, now).failure.None?
    ensures var t := Reprioritize(s, vs, now).state;
      Reprioritize(t, vs, later) == Run(t, None)
  {
    PassSettles(s, vs, now);
    SettledPass(Reprioritize(s, vs, now).state, vs, later);
  }

  /** An archived record is never changed by the pass, and a record changes
      only when its level does. */
  lemma ArchivedSticky(s: Progress, m: string, it: Item, now: string)
    requires RecordOf(s.prios, it.id, m).Some?
    ensures var p := RecordOf(s.prios, it.id, m).value;
      var t := ReprioritizeStep(s, m, it, now);
      (Current(p) == Str("archived") ==> t.state == s) &&
      (t.state.prios != s.prios ==> Decision(p).Ok? && Decision(p).value != Current(p) && |t.state.changes| == |s.changes| + 1)
  {
  }

  // ---------------------------------------------------------------------
  // What the phases report

  /** `x` names the id and module of one of `refs`. */
  predicate RefIn(x: Ref, refs: seq<Ref>) {
    exists r :: r in refs && r.id == x.id && r.moduleKey == x.moduleKey
  }

  /** A report of a merge group: its primary is the group's key. */
  predicate FromGroup(x: Merged, gs: seq<Group>) {
    exists g :: g in gs && x.primary.id == g.0 && RefIn(x.duplicate, g.1)
  }

  /** A report of an archive-suggested low-relevance item. */
  predicate FromLow(a: Archived, lows: seq<LowRelevance>) {
    exists l :: l in lows && l.suggestedAction == "archive" && l.id == a.id && l.moduleKey == a.moduleKey &&
      l.relevanceScore == a.relevanceScore
  }

  /** A level change: to high or low, from a different level that is not archived. */
  predicate ChangeOk(c: Change) {
    c.oldPriority != c.newPriority && c.oldPriority != Str("archived") &&
    (c.newPriority == Str("high") || c.newPriority == Str("low"))
  }

  /** A change of a visited item. */
  predicate FromVisit(c: Change, vs: seq<(string, Item)>) {
    exists v :: v in vs && v.0 == c.moduleKey && v.1.id == c.id
  }

  lemma {:induction false} MergeRefsFacts(cols: map<string, seq<Item>>, s: Progress, primary: Ref, refs: seq<Ref>,
                                          now: string)
    requires Shaped(cols) && RefsKnown(refs) && UniqueIds(s.prios)
    ensures Grows(s, MergeRefs(cols, s, primary, refs, now))
    ensures MergeRefs(cols, s, primary, refs, now).archived == s.archived
    ensures MergeRefs(cols, s, primary, refs, now).changes == s.changes
    ensures forall i :: |s.merged| <= i < |MergeRefs(cols, s, primary, refs, now).merged| ==>
      MergeRefs(cols, s, primary, refs, now).merged[i].primary == primary &&
      RefIn(MergeRefs(cols, s, primary, refs, now).merged[i].duplicate, refs)
  {
    if refs == [] {
      assert s.merged[..|s.merged|] == s.merged;
      assert s.archived[..|s.archived|] == s.archived;
      assert s.changes[..|s.changes|] == s.changes;
    } else {
      var init, r := refs[..|refs| - 1], refs[|refs| - 1];
      assert forall x :: x in init ==> x in refs;
      MergeRefsFacts(cols, s, primary, init, now);
      var mid := MergeRefs(cols, s, primary, init, now);
      var t := MergeRefs(cols, s, primary, refs, now);
      assert t == MergeStep(cols, mid, primary, r, now);
      MergeStepFacts(cols, mid, primary, r, now, r.id, r.moduleKey);
      GrowsTrans(s, mid, t);
      forall i | |s.merged| <= i < |t.merged|
        ensures t.merged[i].primary == primary && RefIn(t.merged[i].duplicate, refs)
      {
        if i < |mid.merged| {
          assert t.merged[i] == t.merged[..|mid.merged|][i] == mid.merged[i];
          assert RefIn(mid.merged[i].duplicate, init);
        } else {
          assert r in refs;
        }
      }
    }
  }

  lemma MergeGroupFacts(cols: map<string, seq<Item>>, s: Progress, dups: seq<DuplicatePair>, g: Group, now: string)
    requires Shaped(cols) && DupsKnown(dups) && RefsKnown(g.1) && UniqueIds(s.prios)
    ensures var t := MergeGroup(cols, s, dups, g, now);
      Grows(s, t) && t.archived == s.archived && t.changes == s.changes &&
      forall i :: |s.merged| <= i < |t.merged| ==> t.merged[i].primary.id == g.0 && RefIn(t.merged[i].duplicate, g.1)
  {
    FirstModuleKnown(dups, g.0);
    var t := MergeGroup(cols, s, dups, g, now);
    var m := FirstModule(dups, g.0);
    if m.Some? && Find(cols[m.value], g.0).Some? {
      var p := Find(cols[m.value], g.0).value;
      MergeRefsFacts(cols, s, Ref(g.0, Shorten(p.text), m.value), g.1, now);
    } else {
      assert t == s;
      assert s.merged[..|s.merged|] == s.merged;
      assert s.archived[..|s.archived|] == s.archived;
      assert s.changes[..|s.changes|] == s.changes;
    }
  }

  lemma {:induction false} MergeGroupsFacts(cols: map<string, seq<Item>>, s: Progress, dups: seq<DuplicatePair>,
                                            gs: seq<Group>, now: string)
    requires Shaped(cols) && DupsKnown(dups) && GroupsKnown(gs) && UniqueIds(s.prios)
    ensures Grows(s, MergeGroups(cols, s, dups, gs, now))
    ensures MergeGroups(cols, s, dups, gs, now).archived == s.archived
    ensures MergeGroups(cols, s, dups, gs, now).changes == s.changes
    ensures forall i :: |s.merged| <= i < |MergeGroups(cols, s, dups, gs, now).merged| ==>
      FromGroup(MergeGroups(cols, s, dups, gs, now).merged[i], gs)
  {
    if gs == [] {
      assert s.merged[..|s.merged|] == s.merged;
      assert s.archived[..|s.archived|] == s.archived;
      assert s.changes[..|s.changes|] == s.changes;
    } else {
      var init, g := gs[..|gs| - 1], gs[|gs| - 1];
      MergeGroupsFacts(cols, s, dups, init, now);
      var mid := MergeGroups(cols, s, dups, init, now);
      var t := MergeGroups(cols, s, dups, gs, now);
      assert RefsKnown(g.1);
      MergeGroupFacts(cols, mid, dups, g, now);
      GrowsTrans(s, mid, t);
      forall i | |s.merged| <= i < |t.merged| ensures FromGroup(t.merged[i], gs) {
        if i < |mid.merged| {
          assert t.merged[i] == t.merged[..|mid.merged|][i] == mid.merged[i];
          assert FromGroup(mid.merged[i], init);
          var h :| h in init && mid.merged[i].primary.id == h.0 && RefIn(mid.merged[i].duplicate, h.1);
          assert h in gs;
        } else {
          assert g in gs;
        }
      }
    }
  }

  /** Every second item of a key comes from a pair to be merged with that first id. */
  lemma {:induction false} SecondsSound(dups: seq<DuplicatePair>, k: string, r: Ref)
    requires r in Seconds(dups, k)
    ensures exists d :: d in dups && d.suggestedAction == "merge" && d.item1.id == k && d.item2 == r
  {
    var init, d := dups[..|dups| - 1], dups[|dups| - 1];
    if r in Seconds(init, k) {
      SecondsSound(init, k, r);
      var e :| e in init && e.suggestedAction == "merge" && e.item1.id == k && e.item2 == r;
      assert e in dups;
    } else {
      assert d in dups;
    }
  }

  /** Every member of a merge group is the second item of a pair to be
      merged whose first item is the group's key. */
  lemma GroupsSound(dups: seq<DuplicatePair>, g: Group, x: Ref)
    requires g in Groups(dups) && RefIn(x, g.1)
    ensures exists d :: (d in dups && d.suggestedAction == "merge" && d.item1.id == g.0 && d.item2.id == x.id &&
      d.item2.moduleKey == x.moduleKey)
  {
    var gs := Groups(dups);
    GroupsExactly(dups, g.0);
    var i :| 0 <= i < |gs| && gs[i] == g;
    GroupOfAt(gs, i, g.0);
    var r :| r in g.1 && r.id == x.id && r.moduleKey == x.moduleKey;
    SecondsSound(dups, g.0, r);
  }

  lemma {:induction false} ArchivePhaseFacts(cols: map<string, seq<Item>>, s: Progress, lows: seq<LowRelevance>,
                                             now: string, newId: nat -> string)
    requires Shaped(cols) && LowsKnown(lows) && UniqueIds(s.prios)
    ensures Grows(s, ArchivePhase(cols, s, lows, now, newId))
    ensures ArchivePhase(cols, s, lows, now, newId).merged == s.merged
    ensures ArchivePhase(cols, s, lows, now, newId).changes == s.changes
    ensures forall i :: |s.archived| <= i < |ArchivePhase(cols, s, lows, now, newId).archived| ==>
      FromLow(ArchivePhase(cols, s, lows, now, newId).archived[i], lows)
  {
    if lows == [] {
      assert s.merged[..|s.merged|] == s.merged;
      assert s.archived[..|s.archived|] == s.archived;
      assert s.changes[..|s.changes|] == s.changes;
    } else {
      var k := |lows| - 1;
      var init, l := lows[..k], lows[k];
      assert forall x :: x in init ==> x in lows;
      ArchivePhaseFacts(cols, s, init, now, newId);
      var mid := ArchivePhase(cols, s, init, now, newId);
      var t := ArchivePhase(cols, s, lows, now, newId);
      ArchiveStepFacts(cols, mid, l, now, newId(k));
      GrowsTrans(s, mid, t);
      forall i | |s.archived| <= i < |t.archived| ensures FromLow(t.archived[i], lows) {
        if i < |mid.archived| {
          assert t.archived[i] == t.archived[..|mid.archived|][i] == mid.archived[i];
          assert FromLow(mid.archived[i], init);
        } else {
          assert l in lows;
        }
      }
    }
  }

  /** A step keeps the invariants and every change it reports is a proper
      level change of its visit. */
  lemma StepFacts(s: Progress, m: string, it: Item, now: string)
    requires UniqueIds(s.prios)
    ensures var t := ReprioritizeStep(s, m, it, now).state;
      Grows(s, t) && t.merged == s.merged && t.archived == s.archived &&
      forall i :: |s.changes| <= i < |t.changes| ==> (ChangeOk(t.changes[i]) && t.changes[i].id == it.id &&
        t.changes[i].moduleKey == m)
  {
    var t := ReprioritizeStep(s, m, it, now).state;
    if t != s {
      StepSettles(s, m, it, now, it.id, m);
      assert t.changes[..|s.changes|] == s.changes;
    }
    assert s.merged[..|s.merged|] == s.merged;
    assert s.archived[..|s.archived|] == s.archived;
    assert s.changes[..|s.changes|] == s.changes;
  }

  lemma {:induction false} PassFacts(s: Progress, vs: seq<(string, Item)>, now: string)
    requires UniqueIds(s.prios)
    ensures Grows(s, Reprioritize(s, vs, now).state)
    ensures Reprioritize(s, vs, now).state.merged == s.merged
    ensures Reprioritize(s, vs, now).state.archived == s.archived
    ensures forall i :: |s.changes| <= i < |Reprioritize(s, vs, now).state.changes| ==>
      ChangeOk(Reprioritize(s, vs, now).state.changes[i]) && FromVisit(Reprioritize(s, vs, now).state.changes[i], vs)
  {
    if vs == [] {
      assert s.merged[..|s.merged|] == s.merged;
      assert s.archived[..|s.archived|] == s.archived;
      assert s.changes[..|s.changes|] == s.changes;
    } else {
      var init, v := vs[..|vs| - 1], vs[|vs| - 1];
      PassFacts(s, init, now);
      var r := Reprioritize(s, init, now);
      var t := Reprioritize(s, vs, now).state;
      if r.failure.Some? {
        assert t == r.state;
        forall i | |s.changes| <= i < |t.changes| ensures FromVisit(t.changes[i], vs) {
          var w :| w in init && w.0 == t.changes[i].moduleKey && w.1.id == t.changes[i].id;
          assert w in vs;
        }
      } else {
        StepFacts(r.state, v.0, v.1, now);
        GrowsTrans(s, r.state, t);
        forall i | |s.changes| <= i < |t.changes| ensures ChangeOk(t.changes[i]) && FromVisit(t.changes[i], vs) {
          if i < |r.state.changes| {
            assert t.changes[i] == t.changes[..|r.state.changes|][i] == r.state.changes[i];
            var w :| w in init && w.0 == t.changes[i].moduleKey && w.1.id == t.changes[i].id;
            assert w in vs;
          } else {
            assert v in vs;
          }
        }
      }
    }
  }

  /** A pass that has not raised continues with the next visit's step. */
  lemma ReprioritizeSnoc(s: Progress, xs: seq<(string, Item)>, v: (string, Item), now: string)
    requires Reprioritize(s, xs, now).failure.None?
    ensures Reprioritize(s, xs + [v], now) == ReprioritizeStep(Reprioritize(s, xs, now).state, v.0, v.1, now)
  {
    assert (xs + [v])[..|xs|] == xs;
  }

  /** The pass over `vs` and the first `j + 1` of `ps` continues with the step of `ps[j]`. */
  lemma ContinueAt(s: Progress, vs: seq<(string, Item)>, ps: seq<(string, Item)>, j: nat, now: string)
    requires j < |ps| && Reprioritize(s, vs + ps[..j], now).failure.None?
    ensures Reprioritize(s, vs + ps[..j + 1], now) ==
      ReprioritizeStep(Reprioritize(s, vs + ps[..j], now).state, ps[j].0, ps[j].1, now)
  {
    SeqSplit(vs, ps, j);
    ReprioritizeSnoc(s, vs + ps[..j], ps[j], now);
  }

  /** A pass that raises at `ps[j]` has raised for all of `ps`. */
  lemma StopAt(s: Progress, vs: seq<(string, Item)>, ps: seq<(string, Item)>, j: nat, now: string)
    requires j < |ps| && Reprioritize(s, vs + ps[..j + 1], now).failure.Some?
    ensures Reprioritize(s, vs + ps, now) == Reprioritize(s, vs + ps[..j + 1], now)
  {
    SeqSplit(vs, ps, j);
    FailureSticks(s, vs + ps[..j + 1], ps[j + 1..], now);
  }

  /** Cutting a sequence of visits or modules after position `j`. */
  lemma SeqSplit<T>(vs: seq<T>, ps: seq<T>, j: nat)
    requires j < |ps|
    ensures vs + ps[..j + 1] == (vs + ps[..j]) + [ps[j]]
    ensures (vs + ps[..j + 1]) + ps[j + 1..] == vs + ps
  {
    assert ps[..j + 1] == ps[..j] + [ps[j]];
    assert ps[..j + 1] + ps[j + 1..] == ps;
  }

  /** The last element and the rest of a concatenation. */
  lemma SeqEnds<T>(xs: seq<T>, ys: seq<T>)
    ensures ys == [] ==> xs + ys == xs
    ensures ys != [] ==> (xs + ys)[..|xs + ys| - 1] == xs + ys[..|ys| - 1] && (xs + ys)[|xs + ys| - 1] == ys[|ys| - 1]
  {
    if ys != [] {
      assert (xs + ys)[..|xs + ys| - 1] == xs + ys[..|ys| - 1];
    }
  }

  /** The visits of the first `i + 1` modules. */
  lemma VisitsSnoc(cols: map<string, seq<Item>>, modules: seq<string>, i: nat)
    requires i < |modules| && forall m :: m in modules ==> m in cols
    ensures forall m :: m in modules[..i] ==> m in cols
    ensures forall m :: m in modules[..i + 1] ==> m in cols
    ensures Visits(cols, modules[..i + 1]) == Visits(cols, modules[..i]) + Pairs(modules[i], Take(cols[modules[i]], DefaultLimit))
  {
    assert modules[..i + 1][..i] == modules[..i];
    assert forall x :: x in modules[..i + 1] ==> x in modules;
  }

  /** A pass that raises within the first `i + 1` modules has raised for all of them. */
  lemma VisitsStop(cols: map<string, seq<Item>>, s: Progress, modules: seq<string>, i: nat, now: string)
    requires i < |modules| && forall m :: m in modules ==> m in cols
    requires forall m :: m in modules[..i + 1] ==> m in cols
    requires Reprioritize(s, Visits(cols, modules[..i + 1]), now).failure.Some?
    ensures Reprioritize(s, Visits(cols, modules), now) == Reprioritize(s, Visits(cols, modules[..i + 1]), now)
  {
    assert modules[..i + 1] + modules[i + 1..] == modules;
    VisitsAppend(cols, modules[..i + 1], modules[i + 1..]);
    FailureSticks(s, Visits(cols, modules[..i + 1]), Visits(cols, modules[i + 1..]), now);
  }

  /** Once a pass has raised, further visits change nothing. */
  lemma {:induction false} FailureSticks(s: Progress, xs: seq<(string, Item)>, ys: seq<(string, Item)>, now: string)
    requires Reprioritize(s, xs, now).failure.Some?
    ensures Reprioritize(s, xs + ys, now) == Reprioritize(s, xs, now)
  {
    if ys == [] {
      SeqEnds(xs, ys);
    } else {
      SeqEnds(xs, ys);
      FailureSticks(s, xs, ys[..|ys| - 1], now);
    }
  }

  lemma {:induction false} VisitsAppend(cols: map<string, seq<Item>>, a: seq<string>, b: seq<string>)
    requires forall m :: m in a + b ==> m in cols
    ensures Visits(cols, a + b) == Visits(cols, a) + Visits(cols, b)
  {
    SeqEnds(a, b);
    if b != [] {
      var init := b[..|b| - 1];
      assert forall m :: m in a + init ==> m in a + b;
      VisitsAppend(cols, a, init);
    }
  }

  /** Each visit is one of the first 100 items of a listed module. */
  lemma {:induction false} VisitsFrom(cols: map<string, seq<Item>>, modules: seq<string>, v: (string, Item))
    requires forall m :: m in modules ==> m in cols
    requires v in Visits(cols, modules)
    ensures v.0 in modules && v.1 in Take(cols[v.0], DefaultLimit)
  {
    var init, m := modules[..|modules| - 1], modules[|modules| - 1];
    assert forall x :: x in init ==> x in modules;
    if v in Visits(cols, init) {
      VisitsFrom(cols, init, v);
    } else {
      var p := Pairs(m, Take(cols[m], DefaultLimit));
      var k :| 0 <= k < |p| && p[k] == v;
    }
  }

  // ---------------------------------------------------------------------
  // The optimiser

  /** Every pair and report of a successful review names a known module. */
  lemma ReviewKnown(cols: map<string, seq<Item>>, sim: Similarity, req: ReviewRequest)
    requires Shaped(cols) && ReviewOf(cols, sim, req).Ok?
    ensures DupsKnown(ReviewOf(cols, sim, req).value.duplicates)
    ensures LowsKnown(ReviewOf(cols, sim, req).value.lowRelevance)
  {
    var rv := ReviewOf(cols, sim, req).value;
    forall d | d in rv.duplicates
      ensures d.item1.moduleKey in AnalyzableModules && d.item2.moduleKey in AnalyzableModules
    {
      ReviewDuplicateSound(cols, sim, req, d);
    }
    forall l | l in rv.lowRelevance ensures l.moduleKey in AnalyzableModules {
      ReviewLowSound(cols, sim, req, l);
    }
  }

  /** The state after the merge and archive phases, before reprioritisation. */
  function Phases(cols: map<string, seq<Item>>, rv: Review, req: OptimizeRequest, now: string, newId: nat -> string)
    : Progress
    requires Shaped(cols) && DupsKnown(rv.duplicates) && LowsKnown(rv.lowRelevance)
  {
    GroupsFromKnown(rv.duplicates);
    var s0 := Progress(cols[Key], 0, [], [], []);
    var s1 := if req.autoMerge then MergeGroups(cols, s0, rv.duplicates, Groups(rv.duplicates), now) else s0;
    if req.autoArchive then ArchivePhase(cols, s1, rv.lowRelevance, now, newId) else s1
  }

  /** The optimiser: the module check, the review, the phases in order and the
      pass over every optimised module; a failure of the review or of the
      pass is the answer, and the records keep the writes made before it. */
  function Optimized(cols: map<string, seq<Item>>, sim: Similarity, req: OptimizeRequest, now: string,
                     newId: nat -> string): Optimization
    requires Shaped(cols)
  {
    if req.moduleKey != "" && req.moduleKey !in AnalyzableModules then
      Optimization(Err(InvalidInput("module '" + req.moduleKey + "' is not valid")), cols[Key])
    else
      match ReviewOf(cols, sim, ReviewFor(req))
      case Err(e) => Optimization(Err(e), cols[Key])
      case Ok(rv) =>
        ReviewKnown(cols, sim, ReviewFor(req));
        var run := Reprioritize(Phases(cols, rv, req, now, newId), Visits(cols, Modules(req.moduleKey)), now);
        match run.failure
        case Some(e) => Optimization(Err(e), run.state.prios)
        case None => Optimization(Ok(run.state), run.state.prios)
  }

  /** An unknown module is refused before anything is read or written, and a
      failed review writes nothing. */
  lemma OptimizeRejects(cols: map<string, seq<Item>>, sim: Similarity, req: OptimizeRequest, now: string,
                        newId: nat -> string)
    requires Shaped(cols)
    ensures var o := Optimized(cols, sim, req, now, newId);
      (o.result.Err? && o.result.error.InvalidInput? <==> req.moduleKey != "" && req.moduleKey !in AnalyzableModules) &&
      (o.result.Err? && o.result.error.InvalidInput? ==> o.priorities == cols[Key]) &&
      (o.result.Err? && !o.result.error.InvalidInput? ==> o.result.error.StoreFailure?)
  {
    var o := Optimized(cols, sim, req, now, newId);
    if !(req.moduleKey != "" && req.moduleKey !in AnalyzableModules) && ReviewOf(cols, sim, ReviewFor(req)).Ok? {
      ReviewKnown(cols, sim, ReviewFor(req));
      var rv := ReviewOf(cols, sim, ReviewFor(req)).value;
      var run := Reprioritize(Phases(cols, rv, req, now, newId), Visits(cols, Modules(req.moduleKey)), now);
      if run.failure.Some? {
        FailureIsStoreFailure(Phases(cols, rv, req, now, newId), Visits(cols, Modules(req.moduleKey)), now);
      }
    }
  }

  /** The pass only ever raises a store failure (a comparison of a non-number). */
  lemma {:induction false} FailureIsStoreFailure(s: Progress, vs: seq<(string, Item)>, now: string)
    requires Reprioritize(s, vs, now).failure.Some?
    ensures Reprioritize(s, vs, now).failure.value.StoreFailure?
  {
    var init := vs[..|vs| - 1];
    if Reprioritize(s, init, now).failure.Some? {
      FailureIsStoreFailure(s, init, now);
    }
  }

  /** A merge report of the second item of a pair to be merged, under the pair's first item. */
  predicate FromPair(x: Merged, dups: seq<DuplicatePair>) {
    exists d :: (d in dups && d.suggestedAction == "merge" && d.item1.id == x.primary.id &&
      d.item2.id == x.duplicate.id && d.item2.moduleKey == x.duplicate.moduleKey)
  }

  /** The merge and archive phases keep ids distinct and the counter in
      step, report merges only of pairs to be merged and archives only of
      reports to be archived, each only when asked, and change no level. */
  lemma PhasesFacts(cols: map<string, seq<Item>>, rv: Review, req: OptimizeRequest, now: string, newId: nat -> string)
    requires Shaped(cols) && UniqueIds(cols[Key]) && DupsKnown(rv.duplicates) && LowsKnown(rv.lowRelevance)
    ensures var t := Phases(cols, rv, req, now, newId);
      UniqueIds(t.prios) && Counted(t) && t.changes == [] &&
      (forall x :: x in t.merged ==> FromPair(x, rv.duplicates)) &&
      (forall a :: a in t.archived ==> FromLow(a, rv.lowRelevance)) &&
      (!req.autoMerge ==> t.merged == []) && (!req.autoArchive ==> t.archived == [])
  {
    GroupsFromKnown(rv.duplicates);
    var s0 := Progress(cols[Key], 0, [], [], []);
    var gs := Groups(rv.duplicates);
    var s1 := if req.autoMerge then MergeGroups(cols, s0, rv.duplicates, gs, now) else s0;
    if req.autoMerge {
      MergeGroupsFacts(cols, s0, rv.duplicates, gs, now);
    }
    assert UniqueIds(s1.prios) && Counted(s1) && s1.changes == [];
    forall x | x in s1.merged ensures FromPair(x, rv.duplicates) {
      var i :| 0 <= i < |s1.merged| && s1.merged[i] == x;
      assert FromGroup(x, gs);
      var g :| g in gs && x.primary.id == g.0 && RefIn(x.duplicate, g.1);
      GroupsSound(rv.duplicates, g, x.duplicate);
    }
    var s2 := Phases(cols, rv, req, now, newId);
    if req.autoArchive {
      ArchivePhaseFacts(cols, s1, rv.lowRelevance, now, newId);
      forall a | a in s2.archived ensures FromLow(a, rv.lowRelevance) {
        var i :| 0 <= i < |s2.archived| && s2.archived[i] == a;
      }
    }
  }

  /** A successful optimisation counts exactly its reports; every merge is
      of the second item of a pair the review suggests merging, under the
      pair's first item; every archived item is a low-relevance report
      suggested for archiving, with its score; every level change is a
      proper move to high or low of an item of an optimised module; and
      nothing is merged or archived unless asked. */
  lemma OptimizeSound(cols: map<string, seq<Item>>, sim: Similarity, req: OptimizeRequest, now: string,
                      newId: nat -> string)
    requires Shaped(cols) && UniqueIds(cols[Key]) && Optimized(cols, sim, req, now, newId).result.Ok?
    ensures var rv := ReviewOf(cols, sim, ReviewFor(req)).value;
      var t := Optimized(cols, sim, req, now, newId).result.value;
      Counted(t) &&
      (forall x :: x in t.merged ==> FromPair(x, rv.duplicates)) &&
      (forall a :: a in t.archived ==> FromLow(a, rv.lowRelevance)) &&
      (forall c :: c in t.changes ==> ChangeOk(c) && c.moduleKey in Modules(req.moduleKey)) &&
      (!req.autoMerge ==> t.merged == []) && (!req.autoArchive ==> t.archived == [])
  {
    var rv := ReviewOf(cols, sim, ReviewFor(req)).value;
    ReviewKnown(cols, sim, ReviewFor(req));
    var s2 := Phases(cols, rv, req, now, newId);
    PhasesFacts(cols, rv, req, now, newId);
    var vs := Visits(cols, Modules(req.moduleKey));
    PassFacts(s2, vs, now);
    var t := Reprioritize(s2, vs, now).state;
    forall c | c in t.changes ensures ChangeOk(c) && c.moduleKey in Modules(req.moduleKey) {
      var i :| 0 <= i < |t.changes| && t.changes[i] == c;
      var v :| v in vs && v.0 == c.moduleKey && v.1.id == c.id;
      VisitsFrom(cols, Modules(req.moduleKey), v);
    }
  }

  /** Right after a successful optimisation, another reprioritisation pass over
      the same modules changes no record and reports nothing. */
  lemma OptimizeSettles(cols: map<string, seq<Item>>, sim: Similarity, req: OptimizeRequest, now: string,
                        newId: nat -> string, later: string)
    requires Shaped(cols) && UniqueIds(cols[Key]) && Optimized(cols, sim, req, now, newId).result.Ok?
    ensures var t := Optimized(cols, sim, req, now, newId).result.value;
      Reprioritize(t, Visits(cols, Modules(req.moduleKey)), later) == Run(t, None)
  {
    var rv := ReviewOf(cols, sim, ReviewFor(req)).value;
    ReviewKnown(cols, sim, ReviewFor(req));
    PhasesFacts(cols, rv, req, now, newId);
    ReprioritizeIdempotent(Phases(cols, rv, req, now, newId), Visits(cols, Modules(req.moduleKey)), now, later);
  }

  // ---------------------------------------------------------------------
  // The endpoint, step by step over the store

  /** The first record of an item among the first 100 stored records. */
  method LookupRecord(store: VectorStore, itemId: string, m: string) returns (record: Option<Item>)
    requires store.Valid()
    ensures record == RecordOf(store.collections[Key], itemId, m)
  {
    var listed := store.ListItems(Key, DefaultLimit, 0);
    ListAllSeesFirst100(store.collections[Key]);
    record := FirstRecord(listed.value, itemId, m);
  }

  /** Replaces the metadata of the record found for an item, keeping its text. */
  method RewriteRecord(store: VectorStore, ghost cols: map<string, seq<Item>>, ghost prios: seq<Item>,
                       ghost itemId: string, ghost m: string, p: Item, md: Metadata)
    requires store.Valid() && store.collections == cols[Key := prios] && RecordOf(prios, itemId, m) == Some(p)
    modifies store
    ensures store.Valid() && store.collections == cols[Key := Replaced(prios, p.id, Item(p.id, p.text, md))]
  {
    assert store.collections[Key] == prios;
    RecordStored(prios, itemId, m);
    var updated := store.UpdateItem(Key, p.id, None, Some(md));
  }

  /** `duplicate_groups`, built pair by pair. */
  method BuildGroups(dups: seq<DuplicatePair>) returns (groups: seq<Group>)
    ensures groups == Groups(dups)
  {
    groups := [];
    for i := 0 to |dups|
      invariant groups == Groups(dups[..i])
    {
      assert dups[..i + 1][..i] == dups[..i];
      if dups[i].suggestedAction == "merge" {
        groups := AddToGroup(groups, dups[i].item1.id, dups[i].item2);
      }
    }
    assert dups[..|dups|] == dups;
  }

  /** One duplicate of a group: look it up, report it, mark its record. */
  method MarkOne(store: VectorStore, ghost cols: map<string, seq<Item>>, primary: Ref, r: Ref, s0: Progress, now: string)
    returns (s: Progress)
    requires store.Valid() && Shaped(cols) && r.moduleKey in AnalyzableModules
    requires store.collections == cols[Key := s0.prios]
    modifies store
    ensures store.Valid() && s == MergeStep(cols, s0, primary, r, now) && store.collections == cols[Key := s.prios]
  {
    KeyApart(r.moduleKey);
    var found := store.GetItem(r.moduleKey, r.id);
    if found.value.None? {
      return s0;
    }
    var dup := found.value.value;
    assert Find(cols[r.moduleKey], r.id) == Some(dup);
    var merged := s0.merged + [Merged(primary, Ref(r.id, Shorten(dup.text), r.moduleKey))];
    var record := LookupRecord(store, r.id, r.moduleKey);
    if record.Some? {
      var p := record.value;
      var x := Item(p.id, p.text, MarkedMetadata(p.metadata, primary.id, now));
      RewriteRecord(store, cols, s0.prios, r.id, r.moduleKey, p, x.metadata);
      s := s0.(prios := Replaced(s0.prios, p.id, x), total := s0.total + 1, merged := merged);
      assert s == MergeStep(cols, s0, primary, r, now);
    } else {
      s := s0.(total := s0.total + 1, merged := merged);
      assert s == MergeStep(cols, s0, primary, r, now);
    }
  }

  /** One group: its module, its primary item, then each duplicate in turn. */
  method MergeGroupRun(store: VectorStore, ghost cols: map<string, seq<Item>>, dups: seq<DuplicatePair>, g: Group,
                       s0: Progress, now: string)
    returns (s: Progress)
    requires store.Valid() && Shaped(cols) && DupsKnown(dups) && RefsKnown(g.1)
    requires store.collections == cols[Key := s0.prios]
    modifies store
    ensures store.Valid() && s == MergeGroup(cols, s0, dups, g, now) && store.collections == cols[Key := s.prios]
  {
    FirstModuleKnown(dups, g.0);
    var m := FirstModule(dups, g.0);
    if m.None? {
      return s0;
    }
    var found := store.GetItem(m.value, g.0);
    if found.value.None? {
      return s0;
    }
    var primary := Ref(g.0, Shorten(found.value.value.text), m.value);
    s := s0;
    for j := 0 to |g.1|
      invariant store.Valid() && store.collections == cols[Key := s.prios]
      invariant s == MergeRefs(cols, s0, primary, g.1[..j], now)
    {
      assert g.1[..j + 1][..j] == g.1[..j];
      assert forall x :: x in g.1[..j + 1] ==> x in g.1;
      s := MarkOne(store, cols, primary, g.1[j], s, now);
    }
    assert g.1[..|g.1|] == g.1;
  }

  /** The merge phase: the groups, then each group in order. */
  method RunMerges(store: VectorStore, ghost cols: map<string, seq<Item>>, dups: seq<DuplicatePair>, s0: Progress,
                   now: string)
    returns (s: Progress)
    requires store.Valid() && Shaped(cols) && DupsKnown(dups)
    requires store.collections == cols[Key := s0.prios]
    modifies store
    ensures GroupsKnown(Groups(dups))
    ensures store.Valid() && s == MergeGroups(cols, s0, dups, Groups(dups), now) && store.collections == cols[Key := s.prios]
  {
    var groups := BuildGroups(dups);
    GroupsFromKnown(dups);
    s := s0;
    for i := 0 to |groups|
      invariant store.Valid() && store.collections == cols[Key := s.prios]
      invariant GroupsKnown(groups[..i]) && s == MergeGroups(cols, s0, dups, groups[..i], now)
    {
      assert groups[..i + 1][..i] == groups[..i];
      assert groups[..i + 1][i] == groups[i];
      s := MergeGroupRun(store, cols, dups, groups[i], s, now);
    }
    assert groups[..|groups|] == groups;
  }

  /** One low-relevance report: look its item up, report it, archive its
      record or add an archived one. */
  method ArchiveOne(store: VectorStore, ghost cols: map<string, seq<Item>>, l: LowRelevance, s0: Progress, now: string,
                    id: string)
    returns (s: Progress)
    requires store.Valid() && Shaped(cols) && l.moduleKey in AnalyzableModules
    requires store.collections == cols[Key := s0.prios]
    modifies store
    ensures store.Valid() && s == ArchiveStep(cols, s0, l, now, id) && store.collections == cols[Key := s.prios]
  {
    if l.suggestedAction != "archive" {
      return s0;
    }
    KeyApart(l.moduleKey);
    var found := store.GetItem(l.moduleKey, l.id);
    if found.value.None? {
      return s0;
    }
    var it := found.value.value;
    assert Find(cols[l.moduleKey], l.id) == Some(it);
    var archived := s0.archived + [Archived(l.id, Shorten(it.text), l.moduleKey, l.relevanceScore)];
    var record := LookupRecord(store, l.id, l.moduleKey);
    var prios;
    if record.Some? {
      var p := record.value;
      var x := Item(p.id, p.text, ArchivedMetadata(p.metadata, now));
      RewriteRecord(store, cols, s0.prios, l.id, l.moduleKey, p, x.metadata);
      prios := Replaced(s0.prios, p.id, x);
    } else {
      var x := Item(id, RecordText(it.text, l.moduleKey), ArchivedRecordMetadata(l, now));
      var added := store.AddItem(Key, id, x.text, Some(x.metadata));
      prios := Added(s0.prios, x);
    }
    assert store.collections[Key] == prios;
    s := s0.(prios := prios, total := s0.total + 1, archived := archived);
    assert s == ArchiveStep(cols, s0, l, now, id);
  }

  /** The archive phase, report by report; the k-th uses the k-th generated id. */
  method RunArchives(store: VectorStore, ghost cols: map<string, seq<Item>>, lows: seq<LowRelevance>, s0: Progress,
                     now: string, newId: nat -> string)
    returns (s: Progress)
    requires store.Valid() && Shaped(cols) && LowsKnown(lows)
    requires store.collections == cols[Key := s0.prios]
    modifies store
    ensures store.Valid() && s == ArchivePhase(cols, s0, lows, now, newId) && store.collections == cols[Key := s.prios]
  {
    s := s0;
    for k := 0 to |lows|
      invariant store.Valid() && store.collections == cols[Key := s.prios]
      invariant LowsKnown(lows[..k]) && s == ArchivePhase(cols, s0, lows[..k], now, newId)
    {
      assert lows[..k + 1][..k] == lows[..k];
      assert lows[..k + 1][k] == lows[k];
      assert lows[k] in lows;
      s := ArchiveOne(store, cols, lows[k], s, now, newId(k));
    }
    assert lows[..|lows|] == lows;
  }

  /** The level rule written as the endpoint evaluates it, raising on a
      comparison with a non-number. */
  method Decide(usage: Value, relevance: Value, current: Value) returns (r: Result<Value, Error>)
    ensures r == NewPriority(usage, relevance, current)
  {
    var usedOften := Above(usage, 10.0);
    if usedOften.Err? {
      return Err(usedOften.error);
    }
    ghost var u := AsNumber(usage).value;
    assert usedOften.value == (u > 10.0);
    if usedOften.value {
      var relevant := Above(relevance, 0.7);
      if relevant.Err? {
        return Err(relevant.error);
      }
      if relevant.value {
        return Ok(Str("high"));
      }
    }
    // `usage` has compared as a number, so this comparison cannot raise
    var usedRarely := Below(usage, 2.0);
    assert usedRarely == Ok(u < 2.0);
    if usedRarely.value {
      var irrelevant := Below(relevance, 0.3);
      if irrelevant.Err? {
        return Err(irrelevant.error);
      }
      if irrelevant.value {
        return Ok(Str("low"));
      }
    }
    return Ok(current);
  }

  /** One item of a module: its record, the rule, and a write when the level moves. */
  method ReprioritizeOne(store: VectorStore, ghost cols: map<string, seq<Item>>, m: string, it: Item, s0: Progress,
                         now: string)
    returns (run: Run)
    requires store.Valid() && store.collections == cols[Key := s0.prios]
    modifies store
    ensures store.Valid() && run == ReprioritizeStep(s0, m, it, now) && store.collections == cols[Key := run.state.prios]
  {
    var record := LookupRecord(store, it.id, m);
    if record.None? {
      return Run(s0, None);
    }
    var p := record.value;
    var current := Get(p.metadata, "priority_level", Str("medium"));
    var next := Decide(Get(p.metadata, "usage_count", Num(0.0)), Get(p.metadata, "relevance_score", Num(0.5)), current);
    assert current == Current(p) && next == Decision(p);
    if next.Err? {
      assert ReprioritizeStep(s0, m, it, now) == Run(s0, Some(next.error));
      return Run(s0, Some(next.error));
    }
    if next.value != current && current != Str("archived") {
      var x := Item(p.id, p.text, LeveledMetadata(p.metadata, next.value, now));
      RewriteRecord(store, cols, s0.prios, it.id, m, p, x.metadata);
      var change := Change(it.id, Shorten(it.text), m, current, next.value);
      var t := s0.(prios := Replaced(s0.prios, p.id, x), total := s0.total + 1, changes := s0.changes + [change]);
      assert ReprioritizeStep(s0, m, it, now) == Run(t, None);
      run := Run(t, None);
    } else {
      assert ReprioritizeStep(s0, m, it, now) == Run(s0, None);
      run := Run(s0, None);
    }
  }

  /** The pass over one module's first 100 items, continuing a pass that has
      not raised over the visits `vs` before it. */
  method ReprioritizeModule(store: VectorStore, ghost cols: map<string, seq<Item>>, ghost s0: Progress,
                            ghost vs: seq<(string, Item)>, m: string, r0: Run, now: string)
    returns (run: Run)
    requires store.Valid() && Shaped(cols) && m in AnalyzableModules
    requires r0 == Reprioritize(s0, vs, now) && r0.failure.None? && store.collections == cols[Key := r0.state.prios]
    modifies store
    ensures store.Valid() && store.collections == cols[Key := run.state.prios]
    ensures run == Reprioritize(s0, vs + Pairs(m, Take(cols[m], DefaultLimit)), now)
  {
    var listed := store.ListItems(m, DefaultLimit, 0);
    ListAllSeesFirst100(store.collections[m]);
    var items := listed.value;
    assert items == Take(cols[m], DefaultLimit);
    ghost var ps := Pairs(m, items);
    run := r0;
    assert vs + ps[..0] == vs;
    for j := 0 to |items|
      invariant store.Valid() && store.collections == cols[Key := run.state.prios]
      invariant run == Reprioritize(s0, vs + ps[..j], now) && run.failure.None?
    {
      ContinueAt(s0, vs, ps, j, now);
      run := ReprioritizeOne(store, cols, m, items[j], run.state, now);
      if run.failure.Some? {
        StopAt(s0, vs, ps, j, now);
        return run;
      }
    }
    assert ps[..|items|] == ps;
  }

  /** The pass over every optimised module; the first comparison that raises ends it. */
  method RunReprioritize(store: VectorStore, ghost cols: map<string, seq<Item>>, modules: seq<string>, s0: Progress,
                         now: string)
    returns (run: Run)
    requires store.Valid() && Shaped(cols) && forall m :: m in modules ==> m in AnalyzableModules
    requires store.collections == cols[Key := s0.prios]
    modifies store
    ensures store.Valid() && run == Reprioritize(s0, Visits(cols, modules), now) && store.collections == cols[Key := run.state.prios]
  {
    run := Run(s0, None);
    for i := 0 to |modules|
      invariant store.Valid() && store.collections == cols[Key := run.state.prios]
      invariant run == Reprioritize(s0, Visits(cols, modules[..i]), now) && run.failure.None?
    {
      VisitsSnoc(cols, modules, i);
      run := ReprioritizeModule(store, cols, s0, Visits(cols, modules[..i]), modules[i], run, now);
      if run.failure.Some? {
        VisitsStop(cols, s0, modules, i, now);
        return run;
      }
    }
    assert modules[..|modules|] == modules;
  }

  /** The optimise endpoint: the module check, the review, the merge and
      archive phases when asked, and the reprioritisation pass. */
  method OptimizePriorities(store: VectorStore, sim: Similarity, req: OptimizeRequest, now: string, newId: nat -> string)
    returns (r: Result<Progress, Error>)
    requires store.Valid()
    modifies store
    ensures store.Valid() && Shaped(old(store.collections))
    ensures var o := Optimized(old(store.collections), sim, req, now, newId);
      r == o.result && store.collections == old(store.collections)[Key := o.priorities]
  {
    ghost var cols := store.collections;
    if req.moduleKey != "" && req.moduleKey !in AnalyzableModules {
      return Err(InvalidInput("module '" + req.moduleKey + "' is not valid"));
    }
    var review := ReviewPriorities(store, sim, ReviewFor(req));
    if review.Err? {
      return Err(review.error);
    }
    ReviewKnown(cols, sim, ReviewFor(req));
    var rv := review.value;
    var s := Progress(store.collections[Key], 0, [], [], []);
    assert store.collections == cols[Key := s.prios];
    if req.autoMerge {
      s := RunMerges(store, cols, rv.duplicates, s, now);
    }
    if req.autoArchive {
      s := RunArchives(store, cols, rv.lowRelevance, s, now, newId);
    }
    assert s == Phases(cols, rv, req, now, newId);
    var run := RunReprioritize(store, cols, Modules(req.moduleKey), s, now);
    if run.failure.Some? {
      return Err(run.failure.value);
    }
    r := Ok(run.state);
  }
}
