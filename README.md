# Quarks personal-knowledge service: a Dafny model

This project models the core of the Quarks service: a FastAPI back end that keeps
a personal knowledge base in a Chroma vector store. The model covers the following parts.

- **The vector store** (`app/database.py`) is a class `Database.VectorStore`. It holds one
  sequence of items per configured collection.
- **The four item modules** are identity, business, reminders and learnings. The model covers
  their list, search, get, update and delete endpoints, and the learnings summary.
- **The SofIA integration API** covers query, store, update, delete, the batch endpoint and
  the consolidation.
- **The connection analyser** finds items in other modules that resemble a source item
  and records each pair as a connection.
- **The priority reviewer** (`/prioridad/revisar`) reports duplicate pairs, low-relevance items and
  suggested actions. It comes with the manual adjust endpoint, the optimiser
  (`/prioridad/optimizar`: merge, archive, reprioritise) and the record listing.
- **The suggestion generator** produces insights, inactivity actions and cross-module
  connections under the per-kind and total caps. It also covers the analysis shortcut and the
  list, update, mark-as-implemented, get and delete endpoints.
- **The Airtable mapping** (`app/utils/airtable.py`) flattens an item into Airtable fields,
  upserts the record found by the search formula, and reads a record back into an item.

Embeddings, the clock, generated ids and Airtable's network calls are parameters:
- a similarity oracle `Sim`;
- a query oracle `Query` that returns each collection's ranked hits;
- a timestamp `now`;
- an id generator `newId`;
- Airtable search and fetch functions.

Python's dynamic values are a tagged union, `Values.Value`. A comparison that raises
`TypeError` at run time is a `StoreFailure` error, and HTTP errors are `Error` cases
(`InvalidInput` for 400, `NotFound` for 404, `StoreFailure` for 500).

Modules follow the source files:
- `wrappers`: Option and Result;
- `values`: Python semantics that several modules share;
- `tally`: `collections.Counter`;
- `sorting`: Python's stable `sorted`;
- `database`;
- `listing`: the list, filter and search rules the item modules share;
- `crud`: the get, update and delete pattern the modules share;
- then one module per endpoint file, with `optimize` holding the optimiser of `priorities.py`.

## Model

| member | source | states |
|---|---|---|
| Database.VectorStore.constructor | app/database.py:19-37 | every configured collection exists: a persisted one keeps its items, a new one is empty |
| Database.VectorStore.GetCollection | app/database.py:39-44 | a configured key gives its items; any other key is a ValueError |
| Database.VectorStore.GetItem | app/database.py:70-85 | the stored item with that id, None when absent; an unknown collection is an error |
| Database.VectorStore.AddItem | app/database.py:46-56 | an item with a new id is appended with `metadata or {}`, an existing id is ignored; the call returns its arguments and no other collection changes |
| Database.VectorStore.UpdateItem | app/database.py:87-111 | an omitted text or metadata keeps the stored one, supplied metadata replaces it whole; the item keeps its position; an absent id is an error that writes nothing |
| Database.VectorStore.DeleteItem | app/database.py:113-125 | an absent id is a ValueError and writes nothing, otherwise exactly that item is removed |
| Database.VectorStore.ListItems | app/database.py:127-146 | the slice from min(offset, n) to min(min(offset, n) + limit, n), and nothing changes |
| Database.Find | app/database.py:70-85 | Some item exactly when an item has the id, and then the one that has it |
| Database.AddedThenFind | app/database.py:46-56 | an item added under a new id is found again; other ids find what they found before; ids stay distinct |
| Database.ReplacedThenFind | app/database.py:87-111 | replacing keeps every position and every other item, and the lookup finds the replacement |
| Database.RemovedThenFind | app/database.py:113-125 | after a delete the id is gone and every other item is still found |
| Database.ListAllSeesFirst100 | app/database.py:127-146 | an unparameterised listing is exactly the first min(100, n) items |
| Database.AddedAllFresh | app/database.py:46-56 | adding items with fresh, distinct ids stores all of them, after the existing ones, in order |
| Values.Page | app/modules/business.py:70-75 | the page is the filtered items from min(offset, n) on, at most `limit` of them |
| Values.Merged | app/modules/business.py:174-178 | every changed key takes its new value, every other stored key is kept, and updated_at is `now` |
| Values.FromHits | app/modules/business.py:118-129 | items and distances have one entry per hit, index by index |
| Values.DatePart | app/modules/suggestions.py:139-141 | the part before the first 'T': a prefix of the input with no 'T' in it |
| Values.Shorten | app/modules/priorities.py:81 | a text of at most 100 characters is kept; a longer one becomes 103 characters, its first 100 followed by "..." |
| Values.StrLessTotal | app/modules/suggestions.py:199-200 | Python string order is total; Values.StrLessIrreflexive, Values.StrLessAsymmetric and Values.StrLessTransitive make it a strict order |
| Tally.CounterCorrect | app/modules/learnings.py:195 | Counter keys are distinct, each is counted by its number of occurrences, and the counts sum to the input length |
| Tally.CounterKeysMatchCounts | app/modules/suggestions.py:274 | a value has a Counter entry exactly when it occurs in the input |
| Sorting.SortByCorrect | app/modules/learnings.py:183-189 | `sorted` returns a sorted permutation of its input |
| Sorting.SortByStable | app/modules/sofia.py:447 | elements tied under the key keep their input order |
| Sorting.SortedPrefix | app/modules/learnings.py:189 | the first k of the sorted list are in order and come from the input, and no element left out strictly precedes one kept |
| Listing.FilterEq | app/modules/business.py:60-67 | the items whose metadata field equals the value, as a subsequence of the input (all items when no value is given) |
| Listing.FilterEqs | app/modules/business.py:60-67 | the items passing every supplied equality filter |
| Listing.FilterEqsInOrder | app/modules/business.py:60-67 | the filtered items are a subsequence of the input: kept in their listed order |
| Listing.FilterBool | app/modules/priorities.py:498-499 | the items whose field equals the optional boolean in Python's sense (1 == True), as a subsequence of the input |
| Listing.FilterAtLeast | app/modules/connections.py:138-139 | a positive minimum keeps the items whose field (default 0.0) is at least it, and a non-number raises; otherwise nothing is removed |
| Listing.PageOf | app/modules/business.py:70-78 | the page of the filtered items, with the total of all filtered items |
| Listing.EntriesExact | app/modules/business.py:95-108 | the `where` dictionary holds exactly the supplied entries and is None exactly when nothing is supplied |
| Listing.EqFilter | app/modules/business.py:95-108 | the search filter binds exactly the supplied keys to their values, and is None when none is supplied |
| Listing.EqFilterOfThree | app/modules/business.py:95-108 | three optional parameters under distinct keys give exactly the supplied keys, each bound to its value, and None when none is supplied |
| Listing.SearchResult | app/modules/business.py:111-129 | one item and one distance per query hit, each the hit at the same index |
| Crud.GetResult | app/modules/business.py:133-153 | the stored item, or NotFound exactly when the id is absent |
| Crud.UpdateMetadata | app/modules/business.py:170-186 | with changes: a merge into the stored metadata with updated_at = now; without changes: keep the stored metadata |
| Crud.Get | app/modules/business.py:133-153 | the stored item or NotFound, with nothing written |
| Crud.Update | app/modules/business.py:155-192 | an absent item is NotFound with nothing written; otherwise the item keeps its place, takes the supplied text and the merged metadata, and is returned |
| Crud.Delete | app/modules/business.py:194-211 | an absent item is NotFound with nothing written, otherwise exactly it is removed |
| Crud.UpdateKeepsUnmentioned | app/modules/business.py:174-178 | an update without metadata keeps the metadata; one with metadata keeps every key it does not mention |
| Crud.GetAfterUpdate | app/modules/business.py:155-192 | after an update, a get returns what the update returned, and other items read as before |
| Business.List | app/modules/business.py:42-80 | the first 100 stored items through the category, priority and status filters, then paged, with the filtered total |
| Business.SearchFilter | app/modules/business.py:95-108 | the `where` dictionary holds exactly the supplied parameters and is None when none is supplied |
| Business.Search | app/modules/business.py:82-131 | the response pairs each hit's item with its distance, index by index |
| Business.Get | app/modules/business.py:133-153 | the shared get on the business collection |
| Business.Update | app/modules/business.py:155-192 | the shared update on the business collection |
| Business.Delete | app/modules/business.py:194-211 | the shared delete on the business collection |
| Reminders.List | app/modules/reminders.py:42-80 | the first 100 stored reminders through the type, priority and status filters, then paged |
| Reminders.SearchFilter | app/modules/reminders.py:95-108 | exactly the supplied parameters, None when none is supplied |
| Reminders.Search | app/modules/reminders.py:82-131 | items and distances are the hits at the same index |
| Reminders.Get | app/modules/reminders.py:133-153 | the shared get on the reminders collection |
| Reminders.Update | app/modules/reminders.py:155-192 | the shared update on the reminders collection |
| Reminders.Delete | app/modules/reminders.py:194-211 | the shared delete on the reminders collection |
| Identity.List | app/modules/identity.py:42-66 | the page is the store's own slice, and the total is the length of an unparameterised listing (never above 100) |
| Identity.TotalCappedWhilePageIsNot | app/modules/identity.py:51-59 | with 150 items, the page at offset 120 is full while the total says 100 |
| Identity.SearchFilter | app/modules/identity.py:79-81 | `{"category": c}` exactly when a category is given |
| Identity.Search | app/modules/identity.py:68-104 | items and distances are the hits at the same index |
| Identity.Get | app/modules/identity.py:106-126 | the shared get on the identity collection |
| Identity.Update | app/modules/identity.py:128-165 | the shared update on the identity collection |
| Identity.Delete | app/modules/identity.py:167-183 | the shared delete on the identity collection |
| Learnings.FilterTag | app/modules/learnings.py:72-73 | with a tag, the items whose tags hold it, as a subsequence of the input; raises exactly when some item's tags are not iterable |
| Learnings.List | app/modules/learnings.py:44-86 | the first 100 stored items through the category, source, importance and tag filters, then paged |
| Learnings.SearchFilter | app/modules/learnings.py:102-118 | category, source and importance when supplied, never the tag, and None when empty |
| Learnings.TagScanIsFilterThenTake | app/modules/learnings.py:131-148 | when no hit raises, the early-stopping scan is the tag filter followed by `[:n]` |
| Learnings.TagScanSound | app/modules/learnings.py:131-148 | every kept hit comes from the query and carries the tag, and there are at most n of them |
| Learnings.Search | app/modules/learnings.py:88-155 | asks for 2n hits and returns the scan's result, with items and distances aligned |
| Learnings.ScanHits | app/modules/learnings.py:131-148 | the loop returns the items and distances of TagScan's hits, or its error |
| Learnings.AnyTagMeansSomeTag | app/modules/learnings.py:175-179 | `any(...)` holds exactly when one requested tag is among the item's tags |
| Learnings.FilterAnyTag | app/modules/learnings.py:175-179 | the items sharing at least one requested tag, as a subsequence of the input |
| Learnings.KeyLeIsTotalPreorder | app/modules/learnings.py:182-189 | the order the summary sorts by is a total preorder on all items, whatever their created_at holds |
| Learnings.KeyLeAgrees | app/modules/learnings.py:182-189 | where Python can compute and compare two sort-key tuples, `key(a) < key(b)` holds exactly when `KeyLe(b, a)` does not |
| Learnings.RankOrder | app/modules/learnings.py:182-186 | high before medium before low before anything else, and a missing importance ranks as low |
| Learnings.Categories | app/modules/learnings.py:195 | one category per item, "general" when absent |
| Learnings.TopByRank | app/modules/learnings.py:189-192 | the first max_items by rank: in rank order, drawn from the candidates, and no candidate left out ranks before one kept |
| Learnings.CandidatesFiltered | app/modules/learnings.py:164-179 | every candidate passes the category and importance filters and, when tags are requested, carries one of them |
| Learnings.SummarizeErrors | app/modules/learnings.py:182-205 | with the candidates filtered, the summary fails exactly when two candidates' keys cannot be computed or compared, or when a kept item's category or importance (defaults "general" and "medium") is not a string for `.upper()` |
| Learnings.UnlabelledFails | app/modules/learnings.py:198-205 | a kept item with a non-string category or importance, a number say, makes the summary fail |
| Learnings.NumbersNeverRaise | app/modules/learnings.py:182-189 | candidates whose importances are hashable and whose created_at values are all numbers sort without raising |
| Learnings.SingleNeverRaises | app/modules/learnings.py:182-189 | a single candidate with a hashable importance sorts without raising, whatever its created_at |
| Learnings.SortAgrees | app/modules/learnings.py:182-189 | when the sort does not raise, Python compares every pair of candidates as KeyLe orders them |
| Learnings.LabelledKeys | app/modules/learnings.py:195-205 | printable items have string categories, so every category counted is a string |
| Learnings.SummaryAsPython | app/modules/learnings.py:182-205 | a successful summary sorted comparable candidates in Python's order, and its items and category keys are strings where `.upper()` needs them |
| Learnings.SummarizeCorrect | app/modules/learnings.py:164-215 | the summary holds the best-ranked candidates in order; its total is its length; the category counts sum to the total, each with its category's item count |
| Learnings.SummarizeLearnings | app/modules/learnings.py:157-217 | the summary of the first 100 stored items, including its failures on keys that cannot be compared and on labels `.upper()` cannot take |
| Learnings.GetLearning | app/modules/learnings.py:219-239 | the shared get on the learnings collection |
| Learnings.Update | app/modules/learnings.py:241-278 | the shared update on the learnings collection |
| Learnings.Delete | app/modules/learnings.py:280-296 | the shared delete on the learnings collection |
| Connections.Matches | app/modules/connections.py:64-71 | exactly the results that are not the source item and whose similarity reaches the threshold |
| Connections.CandidatesExactly | app/modules/connections.py:50-71 | a candidate is exactly a kept result of one of the other modules' queries |
| Connections.CandidatesBound | app/modules/connections.py:56-60 | with each query returning at most n results, there are at most n candidates per module |
| Connections.FoundSound | app/modules/connections.py:73-107 | every connection links the source to a non-source result, with strength = similarity at or above the threshold, and its text embeds at most 50 characters of each text |
| Connections.FoundBound | app/modules/connections.py:50-60 | at most four times max_connections connections |
| Connections.SameIdElsewhereKept | app/modules/connections.py:66-67 | a result with the source's id in another module is still a connection |
| Connections.Persist | app/modules/connections.py:88-93 | one connection record is added to the connections collection |
| Connections.CollectModule | app/modules/connections.py:62-100 | the kept results of one module become the next records, each one stored as it is made |
| Connections.AnalyzeConnections | app/modules/connections.py:21-112 | an unknown module is invalid and an absent source is NotFound, both without writing; otherwise exactly the found connections are stored and returned, with their count |
| Connections.ListConnections | app/modules/connections.py:114-152 | the first 100 connections through the module and strength filters, then paged |
| Connections.SearchFilter | app/modules/connections.py:166-180 | the supplied modules by equality and a positive minimum as `$gte`; None when nothing is supplied |
| Connections.SearchConnections | app/modules/connections.py:154-203 | items and distances are the hits at the same index |
| Connections.GetConnection | app/modules/connections.py:205-225 | the shared get on the connections collection |
| Connections.DeleteConnection | app/modules/connections.py:227-243 | the shared delete on the connections collection |
| Sofia.QueryData | app/modules/sofia.py:19-72 | a body without text is InvalidInput, an unknown collection is NotFound, otherwise the query's result row |
| Sofia.Stamped | app/modules/sofia.py:97-103 | created_at is set unless present; updated_at is now; source is the caller's tag; every other key is kept |
| Sofia.RestampKeepsCreation | app/modules/sofia.py:100-103 | stamping twice keeps the first creation time |
| Sofia.StoreData | app/modules/sofia.py:74-123 | no text is InvalidInput and an unknown collection is NotFound, both without writing; otherwise the stamped item is added and the add's arguments are returned |
| Sofia.SourcedMerge | app/modules/sofia.py:151-160 | changed keys take their new values, others are kept, and updated_at and last_update_source are set |
| Sofia.UpdateAsTested | tests/test_api.py:127-148 | the repository's update test: text and metadata come back as sent, under the stored id |
| Sofia.UpdateData | app/modules/sofia.py:125-183 | an unknown collection or an absent item is NotFound with nothing written; otherwise the revised item replaces the stored one in place and is returned |
| Sofia.DeleteData | app/modules/sofia.py:185-219 | an unknown collection is a server error (the 404 of line 198 is caught by `except Exception` at line 214), an absent item is NotFound, both with nothing written; otherwise exactly that item is removed |
| Sofia.Step | app/modules/sofia.py:244-386 | a failed operation writes nothing; a missing type is the "unknown" failure; an unknown type fails exactly when it is none of the four kinds |
| Sofia.Run | app/modules/sofia.py:244-386 | one outcome per operation, each carrying its own index |
| Sofia.EachOperationRuns | app/modules/sofia.py:380-386 | operation i's outcome is its own step on what operations 0..i-1 left, whether or not they failed |
| Sofia.SuccessesPlusFailures | app/modules/sofia.py:394-400 | every outcome is in exactly one of results and errors, so the counts add up to the number of operations |
| Sofia.ApplyOp | app/modules/sofia.py:244-379 | one operation on the store does exactly what Step specifies |
| Sofia.Batch | app/modules/sofia.py:233-405 | the store ends as the fold leaves it; results and errors are the successes and failures, in order |
| Sofia.GatheredFromRequested | app/modules/sofia.py:430-445 | every gathered result comes from a requested, configured collection |
| Sofia.DistanceLeIsTotalPreorder | app/modules/sofia.py:447 | ascending distance is a total preorder |
| Sofia.ConsolidateNearest | app/modules/sofia.py:447-450 | the response holds the `limit` nearest gathered results, in ascending distance |
| Sofia.ConsolidateFromRequested | app/modules/sofia.py:419-450 | every consolidated result comes from a requested, configured collection |
| Sofia.ConsolidateStable | app/modules/sofia.py:447 | results at equal distance keep their gathering order |
| Sofia.Consolidate | app/modules/sofia.py:407-468 | an empty query is InvalidInput; otherwise the sorted, truncated results with their count |
| Priorities.Modules | app/modules/priorities.py:36-37 | the named module alone, or all four |
| Priorities.FirstRecordFacts | app/modules/priorities.py:110 | the lookup finds nothing exactly when no record is the item's, otherwise the first one that is |
| Priorities.RecordOfReplaced | app/modules/priorities.py:337-348 | a record rewritten in place, keeping its id, item and module, is what the next lookup finds; other items' lookups are unchanged |
| Priorities.AddedBeyondWindow | app/modules/priorities.py:185-186 | a record added once 100 are stored is never seen by a lookup |
| Priorities.AddedWithinWindow | app/modules/priorities.py:185-186 | a fresh record added while fewer than 100 are stored is what the next lookup finds |
| Priorities.PairsComplete | app/modules/priorities.py:61-77 | every close pair i < j is listed |
| Priorities.PairsOrdered | app/modules/priorities.py:62-66 | the pairs come in loop order, so none comes twice |
| Priorities.NoPairsBelowTwo | app/modules/priorities.py:61 | fewer than two items give no pairs |
| Priorities.DuplicatesSound | app/modules/priorities.py:61-92 | every reported pair is of positions i < j with similarity at or above the threshold, to be merged exactly when above 0.95 |
| Priorities.DuplicatesComplete | app/modules/priorities.py:61-92 | every pair i < j reaching the threshold is reported |
| Priorities.DuplicatesDistinct | app/modules/priorities.py:62-66 | with distinct ids no item is paired with itself and no two reports are of the same two items |
| Priorities.MergesMembers | app/modules/priorities.py:95-101 | exactly the pairs above 0.95 raise merge actions |
| Priorities.ScoreOf | app/modules/priorities.py:109-124 | without a record: the baseline, unused; with one: the stored score cut to 80% when never used; a non-number score raises |
| Priorities.Lows | app/modules/priorities.py:107-145 | the low-relevance reports in item order; the first raising score aborts |
| Priorities.LowsMembers | app/modules/priorities.py:127-136 | the reports are exactly the items scoring below 0.3 |
| Priorities.ArchivesMembers | app/modules/priorities.py:139-145 | exactly the reports below 0.2 and never used raise archive actions |
| Priorities.UnrecordedRules | app/modules/priorities.py:113-134 | an item without a record is reported exactly when its text is under 300 characters, and archived when under 200 |
| Priorities.UnscoredUnusedRules | app/modules/priorities.py:113-134 | a never-used record without a score: reported below 375 characters, archived below 250 |
| Priorities.LowEntryAction | app/modules/priorities.py:134-145 | a report is archived exactly when it raises an archive action |
| Priorities.ModuleReviewFacts | app/modules/priorities.py:51-145 | a module review fails only on a store failure and counts every listed item; its pairs, reports and actions are those of its items |
| Priorities.ReviewOf | app/modules/priorities.py:23-157 | an unknown module is InvalidInput; otherwise the module reviews in order |
| Priorities.ReviewedOk | app/modules/priorities.py:50-145 | a review succeeds exactly when every module's review does |
| Priorities.ReviewActionSound | app/modules/priorities.py:94-145 | every action is the merge of a pair to be merged or the archiving of a report to be archived |
| Priorities.ReviewMergeActs | app/modules/priorities.py:95-101 | every pair to be merged raises its merge action |
| Priorities.ReviewArchiveActs | app/modules/priorities.py:139-145 | every report to be archived raises its archive action |
| Priorities.ReviewDuplicateSound | app/modules/priorities.py:53-92 | every pair is a close pair i < j within the first max_items of the first 100 items of one reviewed module |
| Priorities.ReviewLowSound | app/modules/priorities.py:53-136 | every report is one of the first max_items of the first 100 items of one module, scoring below 0.3 |
| Priorities.FindDuplicates | app/modules/priorities.py:61-101 | the i, j loops give exactly the specified pairs and their merge actions |
| Priorities.ScoreItems | app/modules/priorities.py:107-145 | the scoring loop gives exactly Lows |
| Priorities.ReviewModule | app/modules/priorities.py:51-145 | one module's review, as ModuleReview specifies |
| Priorities.ReviewPriorities | app/modules/priorities.py:23-157 | the endpoint returns ReviewOf and writes nothing |
| Priorities.AdjustRejects | app/modules/priorities.py:165-182 | an invalid module or level is InvalidInput, checked before the item; an absent item is NotFound; nothing is written |
| Priorities.AdjustedRecord | app/modules/priorities.py:184-238 | the item's record at the requested level, with the supplied score (0.5 for a new one without one), and text naming the item's first 50 characters |
| Priorities.AdjustedMetadataKeeps | app/modules/priorities.py:193-197 | the rewrite keeps item id and module and sets level, score and updated_at |
| Priorities.AdjustThenLookup | app/modules/priorities.py:184-238 | after an adjustment the next lookup finds the answered record, when one already existed or fewer than 100 are stored; other items are unchanged |
| Priorities.AdjustBeyondWindow | app/modules/priorities.py:185-232 | once 100 records are stored, adjusting an item without a visible record adds one no lookup sees |
| Priorities.AdjustPriority | app/modules/priorities.py:159-242 | the endpoint's answer and new store are those of Adjust |
| Priorities.ListPriorities | app/modules/priorities.py:474-512 | the first 100 records through the module, level and duplicate filters, then paged |
| Priorities.GetPriority | app/modules/priorities.py:514-534 | the shared get on the priorities collection |
| Priorities.DeletePriority | app/modules/priorities.py:536-552 | the shared delete on the priorities collection |
| Optimize.GroupsExactly | app/modules/priorities.py:279-285 | each group holds exactly the second items of the to-be-merged pairs with that first id, in order; keys are distinct and groups non-empty |
| Optimize.GroupsSound | app/modules/priorities.py:279-285 | every member of a group is the second item of a pair to be merged under the group's key |
| Optimize.MergeStepFacts | app/modules/priorities.py:306-350 | a stored duplicate is reported and counted; its record, if found, is marked as the primary's duplicate, keeping its other keys |
| Optimize.MarkedKeeps | app/modules/priorities.py:339-342 | the marked metadata keeps every key but the three it sets |
| Optimize.ArchiveStepFacts | app/modules/priorities.py:353-415 | a to-be-archived report whose item is stored is reported and counted, with its id, module and score; any other report changes nothing |
| Optimize.ArchiveStepRecord | app/modules/priorities.py:376-413 | the record becomes "archived", or a new archived record is added that the next lookup finds below 100 records |
| Optimize.DecisionRules | app/modules/priorities.py:433-438 | for numbers: high exactly above 10 uses and 0.7 relevance, else low below 2 uses and 0.3 relevance, else unchanged |
| Optimize.NewPriorityStable | app/modules/priorities.py:433-438 | the rule applied to its own answer gives the same answer |
| Optimize.ArchivedSticky | app/modules/priorities.py:441 | an archived record is never changed by the pass, and a record changes only when its level does |
| Optimize.PassSettles | app/modules/priorities.py:418-460 | a pass that does not raise leaves every visited record settled |
| Optimize.ReprioritizeIdempotent | app/modules/priorities.py:418-460 | a second pass right after the first changes no record and reports nothing |
| Optimize.OptimizeRejects | app/modules/priorities.py:251-274 | an unknown module is refused before anything is read, and a failed review writes nothing |
| Optimize.FailureIsStoreFailure | app/modules/priorities.py:429-438 | the pass only raises a store failure |
| Optimize.PhasesFacts | app/modules/priorities.py:277-415 | the merge and archive phases report only merges of pairs to be merged and archivings of reports to be archived, each only when asked, and change no level |
| Optimize.OptimizeSound | app/modules/priorities.py:244-472 | the count is exactly the number of reports; every merge, archive and level change comes from the review or the rule as the endpoint applies them |
| Optimize.OptimizeSettles | app/modules/priorities.py:418-460 | right after an optimisation, another reprioritisation pass changes nothing |
| Optimize.BuildGroups | app/modules/priorities.py:279-285 | the grouping loop gives exactly Groups |
| Optimize.RunMerges | app/modules/priorities.py:277-350 | the merge phase leaves the store and the report as MergeGroups specifies |
| Optimize.RunArchives | app/modules/priorities.py:353-415 | the archive phase leaves the store and the report as ArchivePhase specifies |
| Optimize.Decide | app/modules/priorities.py:429-438 | the rule as the endpoint evaluates it equals NewPriority |
| Optimize.RunReprioritize | app/modules/priorities.py:418-460 | the pass leaves the store and the report as Reprioritize specifies |
| Optimize.OptimizePriorities | app/modules/priorities.py:244-472 | the endpoint's answer and new store are those of Optimized |
| Suggestions.Checked | app/modules/suggestions.py:34-48 | the first module, then the first kind, outside its list is InvalidInput, before anything is read |
| Suggestions.GatheredFacts | app/modules/suggestions.py:51-58 | each named module is gathered once, with its first 100 items |
| Suggestions.ThemesExactly | app/modules/suggestions.py:61-83 | n texts give min(5, n - 5) themes (none when n <= 5), the k-th from the k-th text |
| Suggestions.InsightStageFacts | app/modules/suggestions.py:86-123 | min(2, max) of the themes as insights, none unless asked for, with the k-th generated id |
| Suggestions.InactiveExactly | app/modules/suggestions.py:129-148 | the scan finds exactly the gathered items whose record was last accessed on another day, and fails exactly when a timestamp cannot be split |
| Suggestions.ActionStageFacts | app/modules/suggestions.py:126-183 | none unless asked for; otherwise min(2, room) of the inactive items, or the scan's failure |
| Suggestions.CandidatesExactly | app/modules/suggestions.py:186-227 | the candidates are exactly the similar pairs among the first five items of two modules in name order |
| Suggestions.LinkedFacts | app/modules/suggestions.py:199-212 | a candidate is at least 0.7 similar, and its mirror image is never one |
| Suggestions.StrongestFacts | app/modules/suggestions.py:230-233 | min(n, count) links, most similar first, and none left out is more similar than one kept |
| Suggestions.ConnectionStageFacts | app/modules/suggestions.py:186-264 | the min(2, room) strongest candidates, the k-th with the id at its position |
| Suggestions.RunStagesFacts | app/modules/suggestions.py:86-264 | at most max_suggestions stored and at most three stage caps in all (the per-kind caps are stated by the three stage lemmas), the k-th with the k-th id; a failure comes after only the insights |
| Suggestions.OutcomeFacts | app/modules/suggestions.py:267-280 | the response keeps, in order, at most max_suggestions of those reaching the minimum relevance, with their count and per-kind counts |
| Suggestions.SuggestFacts | app/modules/suggestions.py:23-289 | a rejected request stores nothing and is a client error; another failure is a server error; a response is the outcome of all that was stored |
| Suggestions.SuggestStoresAll | app/modules/suggestions.py:115-257 | with fresh distinct ids, every generated suggestion is appended, in order |
| Suggestions.GetSuggestions | app/modules/suggestions.py:23-289 | the endpoint's answer and store are those of Suggest |
| Suggestions.AnalysisFacts | app/modules/suggestions.py:332-377 | an analysis returns at most ten suggestions, each at least 0.5 relevant |
| Suggestions.AnalyzeData | app/modules/suggestions.py:332-377 | the run with at most ten suggestions in all, every kind allowed, minimum relevance 0.5 |
| Suggestions.ListSuggestions | app/modules/suggestions.py:291-330 | the first 100 suggestions through the kind, implementation and relevance filters, then paged |
| Suggestions.UpdateSuggestion | app/modules/suggestions.py:379-416 | the shared update on the suggestions collection |
| Suggestions.ImplementedIsUpdate | app/modules/suggestions.py:436-446 | marking is the partial update with the implementation changes |
| Suggestions.ImplementedAgain | app/modules/suggestions.py:436-446 | marking again only moves the dates |
| Suggestions.MarkAsImplemented | app/modules/suggestions.py:418-452 | an absent suggestion is NotFound with nothing written; otherwise the text is kept and the metadata marked |
| Suggestions.GetSuggestion | app/modules/suggestions.py:454-473 | the shared get on the suggestions collection |
| Suggestions.DeleteSuggestion | app/modules/suggestions.py:475-492 | the shared delete on the suggestions collection |
| Airtable.FlattenedExactly | app/utils/airtable.py:61-74 | the fields are the three base keys plus `metadata_k` for each metadata key, each holding its value, with lists and dicts stringified |
| Airtable.MetadataFieldsFacts | app/utils/airtable.py:68-74 | the metadata fields are exactly the prefixed keys, and none of them is a base key |
| Airtable.Flatten | app/utils/airtable.py:61-74 | the loop builds exactly the flattened fields |
| Airtable.IndexOf | app/utils/airtable.py:55 | None exactly when the character is absent, otherwise its first position |
| Airtable.FormulaRoundTrip | app/utils/airtable.py:55 | a field name without '}' parses back from its formula with the value |
| Airtable.FormulaAmbiguous | app/utils/airtable.py:55 | two different (field, value) pairs give the same formula |
| Airtable.Upsert | app/utils/airtable.py:77-84 | an update of the first found record exactly when the search finds one, otherwise a create, with the fields unchanged |
| Airtable.SyncToAirtable | app/utils/airtable.py:58-84 | the request is the upsert of the flattened item, keyed by the item_id search |
| Airtable.Lookup | app/utils/airtable.py:93-95 | None exactly when the name is absent, otherwise a value listed under it |
| Airtable.MetadataOfExactly | app/utils/airtable.py:100-103 | the metadata keys are exactly the de-prefixed field names, each with the value of the last field that maps to it |
| Airtable.SyncFromAirtable | app/utils/airtable.py:86-105 | the extraction equals ExtractFields of the fetched record's fields |
| Airtable.RoundTrip | app/utils/airtable.py:58-105 | reading back a flattened item gives its collection, id, text and the flattened metadata, when no metadata key contains "metadata_" |
| Airtable.ScalarRoundTrip | app/utils/airtable.py:58-105 | with scalar values the metadata comes back unchanged |
| Airtable.MangledKey | app/utils/airtable.py:100-103 | a flattened key that itself contains "metadata_" comes back under a different, mangled key |

## Left out

- The FastAPI routing, authentication (`app/utils/auth.py`), logging (`app/utils/logger.py`), configuration and
  async execution. There is no concurrency: each endpoint runs to completion.
- Embeddings and Chroma's ranking: similarity and query results come from the oracles `Sim` and `Query`.
  `query_items` (`app/database.py:58-68`) is the `Query` oracle itself.
- Floating-point numbers are reals: no rounding. The rounding in the `f"{x:.2f}"` reason texts is not modelled.
- The clock is one `now` per call. `generate_id`/`uuid` is an id parameter, or `newId(k)` for the k-th id of a run.
- The create endpoints of business, reminders, identity and learnings are left out. Each one passes its body to
  `add_item`, which Database.VectorStore.AddItem models.
- Sofia list_collections is left out. It returns the configuration map unchanged.
- Summary and analysis prose (`summary` strings, `time_range`, `focus_areas`) is left out as text. The one way the
  learnings summary text changes the result, the `.upper()` calls that raise on a non-string category or
  importance, is modelled.
- Learnings.Summarize: it fails whenever two candidates' sort keys cannot be compared. Python's `sorted` raises only
  if it actually compares such a pair; with three or more candidates that depends on the comparisons its merge
  order makes, which the model does not follow. Two unequal list values of created_at are counted as not
  comparable, where Python would compare them element by element.
- Tally.Counter: keys are compared as model values, so `True` and `1` are two keys where Python's Counter merges them
  (`1` and `1.0` are both `Num(1.0)` and do merge). The summary counts only string categories
  (Learnings.SummaryAsPython), and the suggestion type counts only the string types the stages write.
- `embedding_model.util.cos_sim(...)` at app/modules/priorities.py:74 and app/modules/suggestions.py:211: the
  model that `get_embedding_model()` returns is a SentenceTransformer, which by its published API has no `util`
  attribute, so these lines as written would raise AttributeError at the first pair compared. The model takes the
  evidently intended `sentence_transformers.util.cos_sim(e1, e2)` and gives it as the oracle `Sim`.
- Suggestions: the `by_type` counts updated inside each stage are left out. The response overwrites them with
  counts of the final list, which Suggestions.OutcomeFacts states.
- connections.py:52 skips the connections collection. That test never fires, because only the four item modules
  are accepted, so the model does not carry it.
- Request bodies with wrong JSON types, which FastAPI or Chroma would reject, are left out. So is ItemData text that
  is not a string.
- The store is assumed to accept list and None metadata values. The source writes lists (`source_modules`,
  `source_items` at app/modules/suggestions.py:101-102, 161-162 and 242-243) and None (`implementation_date` at
  app/modules/suggestions.py:104, `duplicate_of` at app/modules/priorities.py:221 and 403). Chroma releases whose
  metadata validation refuses such values would fail those writes; no Chroma version is fixed, so the model
  stores them as given.
- Chroma `add` of an id that already exists is modelled as ignored. The store is unchanged and `add_item` still
  returns its arguments.
- `app/modules/airtable.py` (the Airtable endpoints) is not part of this model.
- The AirtableManager client methods (`create_record`, `get_record`, `list_records`, `update_record`,
  `delete_record`) are left out. They are single pyairtable network calls that wrap their exceptions in
  ValueError. Search and fetch are parameters, the request is returned as a value, and Python `str()` of a list or
  dict is a parameter.
- Optimize.OptimizeSettles: it states only that a second reprioritisation pass is idempotent. It does not claim
  that a second whole optimisation converges. A new review can find the same pairs and low-relevance items again,
  so it does not.
