# ServiceNow to Jira migration engine, modelled in Dafny

The model covers the resolver behind a Forge app that copies ServiceNow records
(incidents, problems, change requests, catalog tasks) into Jira issues of the `SER`
project. It includes:

- the field normalisation applied to fetched ServiceNow rows;
- the priority and status mappers;
- the one-paragraph Atlassian Document Format body;
- the identity store, a single table from ServiceNow number to Jira key;
- the per-record migration: dedup check, removal of stale entries, create, save and a
  best-effort status transition;
- the batch resolver that migrates records one by one.

The modules are:

- `Js`: the JavaScript built-ins the engine relies on, over Dafny strings. These are
  the `||` fallback, `trim`, `toLowerCase`, `join` and `startsWith`.
- `Mappers`: `mapPriority`, `mapStatus` and `toADF`.
- `Records`: the normalisation of a ServiceNow row into a record.
- `Jira`: the destination. Issues are kept in a map from issue number to fields, and
  keys are `SER-<n>` from a counter. `Destination` is a class whose create and read
  calls update or inspect that state. `FindTransition` is the search over listed
  workflow transitions.
- `IdentityStore`: the number-to-key table. It has value-level functions and a
  `Store` class whose methods change its `mapping` field.
- `Engine`: the migration of one record as a function `Migrate` on a `World` (store
  plus destination), and the batch as `MigrateAll`. The step-by-step methods
  `CreateJiraIssue` and `MigrateToJira` are proved to update the `Store` and the
  `Destination` exactly as those functions say. The module also holds the text
  reported per record, and how the front end reads that text back.
- `Properties`: what the engine promises:
  - a reachable-state invariant;
  - deduplication, self-healing and failure behaviour;
  - the best-effort transition;
  - order and re-runnability of the batch.

Everything the destination answers is a parameter: a `Replies` value per record. It
holds four answers:

- whether the read of a mapped issue answered normally;
- the create reply;
- the listed transitions;
- whether executing the chosen transition succeeded.

The batch takes one `Replies` per record position.

## Model

| member | source | states |
|---|---|---|
| Js.Or | Migration/src/index.js:35-39 | JavaScript's or-fallback on text: the text itself when it is present and non-empty, the fallback otherwise. |
| Js.Trim | Migration/src/index.js:60 | The result is the slice of the input that starts after the leading white space. Everything after it is white space. It is empty exactly when the input is all white space. Otherwise it neither starts nor ends with white space. |
| Js.TrimSplits | Migration/src/index.js:60 | The input is the leading white space, then the trimmed text, then trailing white space. |
| Js.TrimOfTrimmed | Migration/src/index.js:60 | Text that neither starts nor ends with white space is left unchanged. |
| Js.TrimIdempotent | Migration/src/index.js:60 | Trimming twice gives the same result as trimming once. |
| Js.TrimIgnoresPadding | Migration/src/index.js:60 | Adding white space on either side does not change the trimmed result. |
| Js.TrimAround | Migration/src/index.js:60 | Text padded with white space trims back to itself when it starts and ends with a non-space. |
| Js.LowerChar | Migration/src/index.js:85 | A-Z map to a-z (code plus 32) and the Kelvin sign maps to `k`. Every other character is kept, and only those sources give a-z. |
| Js.ToLower | Migration/src/index.js:85 | Lower-casing keeps the length and lower-cases each character. |
| Js.ToLowerIdempotent | Migration/src/index.js:85 | Lower-casing twice gives the same result as lower-casing once. |
| Js.Join | Migration/src/index.js:143 | Joining no parts gives the empty text, and joining one part gives that part. The length is the parts' lengths plus one separator between each pair. |
| Mappers.Priority.Name | Migration/src/index.js:62-79 | Definition, with no contract of its own: the name each priority is sent under in the payload's `priority: { name }` (Critical, High, Medium, Low, Lowest). `PriorityNamesDistinct` states that the names tell the priorities apart, and `Engine.Payload` states that the payload carries this name. |
| Mappers.PriorityNamesDistinct | Migration/src/index.js:62-79 | Different priorities have different names. |
| Mappers.Status.Name | Migration/src/index.js:85-99 | Definition, with no contract of its own: the status text mapStatus returns ("Open", "Pending", "Work in progress", "Done"). It is the text matched against transition targets and shown in the status note; `StatusNamesDistinct` and `Engine.TryTransition` state how it is used. |
| Mappers.StatusNamesDistinct | Migration/src/index.js:85-99 | Different statuses have different names even when case is ignored, so a transition target matches at most one of them. |
| Mappers.MapPriority | Migration/src/index.js:58-80 | Critical, High, Low and Lowest are each returned exactly when the trimmed text is one of their two table spellings. Medium is returned for every other text, including "3", "Moderate" and the empty text. |
| Mappers.MapPriorityIgnoresPadding | Migration/src/index.js:60 | White space around the raw priority never changes the result. |
| Mappers.MapStatus | Migration/src/index.js:84-101 | Each status is returned exactly when the lower-cased text (absent text counts as empty) is one of its table words. Open is returned for "new" and for every unknown, empty or absent value. |
| Mappers.MapStatusIgnoresCase | Migration/src/index.js:85 | Lower-casing the raw status first does not change the result. |
| Mappers.MapStatusOfNew | Migration/src/index.js:85-87 | "NEW", "New", "new", the empty text and an absent value all map to Open. |
| Mappers.ToAdf | Migration/src/index.js:15-23 | The result is a version-1 document with one paragraph holding one text node. The node holds the text when it is non-empty, and the empty string otherwise. |
| Records.Normalize | Migration/src/index.js:33-40 | The id is kept. The name is the number, then the row's name, then empty; it is empty exactly when both are missing. The summary is never empty: the short description, then the name, then the number, then "No summary". The description, status and priority are the row's description, state and priority when present and non-empty, and the empty text otherwise. |
| Jira.Decimal | Migration/src/index.js:147 | The decimal text of an issue number is never empty. It is one digit exactly below ten. |
| Jira.DecimalDistinct | Migration/src/index.js:147 | Different issue numbers print differently. |
| Jira.KeyOf | Migration/src/index.js:147 | The key of issue number n is the project key, a dash, then the decimal numeral of n. |
| Jira.KeyOfDistinct | Migration/src/index.js:147 | Different issue numbers give different issue keys. |
| Jira.NextKeyIsFresh | Migration/src/index.js:134-147 | When all issue numbers are below the counter, the key for the counter names no existing issue. |
| Jira.Hits | Migration/src/index.js:160 | Definition, with no contract of its own: the transition leads to a state whose name equals the target, ignoring case. `FindTransition` states what the search makes of it. |
| Jira.Breaks | Migration/src/index.js:160 | Definition, with no contract of its own: the transition has a target whose name is missing, so lower-casing it throws. `FindTransition` states its effect. |
| Jira.Passes | Migration/src/index.js:160 | Definition, with no contract of its own: the search moves past the transition, because it neither matches nor throws. |
| Jira.FirstStop | Migration/src/index.js:160 | The index where the transition search stops: every earlier transition is passed over, and the one at the index matches or throws. |
| Jira.FirstStopIs | Migration/src/index.js:160 | The stopping index is unique. |
| Jira.FirstMatchIsFirstStop | Migration/src/index.js:160 | A matching transition preceded only by passed-over ones is where the search stops. |
| Jira.FindTransition | Migration/src/index.js:160 | There is no match exactly when every transition is passed over. A match is the first matching transition, and every first match is found. A fault means a transition whose target has no name came first. |
| Jira.Destination.GetIssue | Migration/src/index.js:110-114 | The read answers ok exactly when the issue exists and the read itself did not fail. |
| Jira.Destination.CreateIssue | Migration/src/index.js:134-144 | An accepted create stores the fields under the next number and returns its key, which was unused until then. A rejected create changes nothing and returns no key. |
| IdentityStore.MappedKey | Migration/src/index.js:44-48 | An empty number is never looked up. Otherwise the saved key is returned exactly when the number has an entry. |
| IdentityStore.Saved | Migration/src/index.js:50-55 | An empty number leaves the table unchanged. Otherwise the number maps to the key, and every other entry is unchanged. |
| IdentityStore.Deleted | Migration/src/index.js:117-119 | The number's entry is gone, and every other entry is unchanged. |
| IdentityStore.LookupAfterSave | Migration/src/index.js:44-55 | After saving under a non-empty number, a lookup gives the saved key, and other lookups are unchanged. |
| IdentityStore.LookupAfterDelete | Migration/src/index.js:117-119 | After a delete the number is unmapped, and other lookups are unchanged. |
| IdentityStore.SaveAfterDelete | Migration/src/index.js:117-148 | Removing a stale entry and then saving the new key overwrites the entry. |
| IdentityStore.Store.constructor | Migration/src/index.js:46 | A missing storage entry reads as an empty table. |
| IdentityStore.Store.GetMappedJiraIssueKey | Migration/src/index.js:44-48 | The method returns the lookup of the current table. |
| IdentityStore.Store.SaveMapping | Migration/src/index.js:50-55 | The new table is the old one with the key saved. |
| IdentityStore.Store.DeleteMapping | Migration/src/index.js:117-119 | The new table is the old one without the number's entry. |
| Engine.Payload | Migration/src/index.js:124-132 | The project is `SER` and the issue type is `Task`. The summary is the record's. The description is one paragraph holding the record's description text. The priority is the name of the mapped priority, as sent in `priority: { name }`. |
| Engine.ErrorText | Migration/src/index.js:143 | The text ends with a space, a vertical bar, a space and the serialised errors. Before that separator comes "Unknown error" when the messages are absent, and otherwise the messages joined with "; ". An empty list is present, so it gives nothing before the separator. |
| Engine.CheckMapping | Migration/src/index.js:105-122 | The migration stops at a live issue exactly when the number is non-empty, mapped to a non-empty key, the issue exists and its read answered; the key is the mapped one. Otherwise a non-empty mapped entry is removed and any other table is kept. |
| Engine.AfterCreate | Migration/src/index.js:134-148 | The counter advances by one, and the new issue holds the payload under the old counter. The table is the old one with the new key saved, so a non-empty number looks up the new key. |
| Engine.CreateStep | Migration/src/index.js:124-174 | A rejected create changes nothing and reports the error text. An accepted one leaves `AfterCreate`'s world and reports the new key, whatever the transition gives. `TransitionNeverDecidesOutcome` and `StatusNoteMeansTransitionRan` state the status note. |
| Engine.Migrate | Migration/src/index.js:104-175 | The outcome for every input combination. AlreadyMigrated holds exactly when the read answers and the number is mapped to a live issue; it changes nothing. Created holds exactly when the create is accepted and the record is not so found. Created also holds exactly when the counter advances: the new issue holds the payload, the reported key is the next key, and a non-empty number is mapped to it. Otherwise the outcome is Error, and no issue is added. The entries of every other number stay as they were. |
| Engine.StatusApplied | Migration/src/index.js:150-172 | The status is noted exactly when the transitions were listed, a matching transition came before any faulty one, and executing it succeeded. |
| Engine.CheckStore | Migration/src/index.js:105-122 | The lookup and existence check give the same result as `CheckMapping`. The store loses the entry exactly when that says to proceed after a removal. |
| Engine.TryTransition | Migration/src/index.js:150-172 | Applied exactly when the transitions were listed, the first transition the search stops at leads to the mapped status (ignoring case), and executing it succeeded. |
| Engine.CreateAndSave | Migration/src/index.js:124-174 | The store, the destination and the outcome change exactly as `CreateStep` says: an error on rejection, otherwise a new issue, the saved key and a best-effort status. |
| Engine.CreateJiraIssue | Migration/src/index.js:104-175 | The new store and destination, and the outcome, are exactly `Migrate` of the old ones. The destination invariant is kept. |
| Engine.MigrateAll | Migration/src/index.js:186-193 | There is one result per record, and the i-th result is for the i-th record. |
| Engine.MigrateToJira | Migration/src/index.js:186-193 | The loop leaves the store, the destination and the results exactly as `MigrateAll` says. |
| Engine.Render | Migration/src/index.js:115-174 | Definition, with no contract of its own: the already-migrated text, the error text, or the browse link with the optional status note. `RenderKeepsKind` and the report lemmas below state what the texts mean. |
| Engine.JiraUrl | Migration/src/index.js:186-193 | Definition, with no contract of its own: the `jiraUrl` attached to each record of the batch result is `Render` of its outcome. |
| Engine.KindOfText | Migration/static/hello-world/src/App.js:178-185 | Definition, with no contract of its own: how the front end classifies a result text by prefix. `RenderKeepsKind` states that this recovers the engine's kind of outcome. |
| Engine.KindOfPlainText | Migration/static/hello-world/src/App.js:178-185 | Text whose first character is neither `A` nor `E` reads as a link. |
| Engine.AlreadyMigratedReport | Migration/src/index.js:115 | The already-migrated text reads as already migrated. |
| Engine.ErrorReport | Migration/src/index.js:143 | The error text reads as an error. |
| Engine.LinkReport | Migration/src/index.js:152 | A browse link, with or without the status note, reads as a link. |
| Engine.RenderKeepsKind | Migration/static/hello-world/src/App.js:178-185 | The front end reads back from the reported text the same kind of outcome the engine produced. |
| Properties.InitialWorldIsReachable | Migration/src/index.js:46 | An empty store next to an empty destination satisfies the invariant. |
| Properties.FewerEntriesStayReachable | Migration/src/index.js:117-119 | Dropping store entries keeps the invariant. |
| Properties.AfterCreateStaysReachable | Migration/src/index.js:134-148 | Creating an issue and saving its key keeps the invariant: every issue number is below the counter, and every saved key was handed out by the destination. |
| Properties.MigrateStaysReachable | Migration/src/index.js:104-175 | Migrating any record, whatever the replies, keeps the invariant. |
| Properties.UnmappedRecordIsCreated | Migration/src/index.js:107-148 | A numbered record with no entry whose create is accepted is Created under the next key. Its number is mapped to that key, the payload is stored under the next number, and the counter advances. |
| Properties.MappedLiveRecordIsAlreadyMigrated | Migration/src/index.js:107-116 | A number mapped to an issue that exists and can be read gives AlreadyMigrated with that key, and nothing changes. |
| Properties.SecondMigrateCreatesNothing | Migration/src/index.js:104-148 | After a record with a number is created or found, migrating any record with that number again changes nothing and reports the same key, provided the read does not fail. This holds even when the record's other fields changed. |
| Properties.StaleMappingIsRemoved | Migration/src/index.js:116-144 | When the mapped issue is gone and the create is rejected, the result is an error and the number is left unmapped. |
| Properties.StaleMappingIsReplaced | Migration/src/index.js:116-148 | When the mapped issue is gone and the create is accepted, the number is remapped to the new issue. The new issue exists, and its key differs from the stale one. |
| Properties.FailedReadCreatesDuplicate | Migration/src/index.js:110-148 | A failed read of a live mapped issue counts as a missing issue. An accepted create then makes a second issue for the record, and the first one still exists. |
| Properties.RejectedCreateSavesNothing | Migration/src/index.js:142-144 | A rejected create reports the error text. No issue is created, and no entry is added or changed; only the record's own stale entry may be gone. |
| Properties.EmptyNumberIsCreatedEveryTime | Migration/src/index.js:105-107 | A record without a number is never deduplicated. Two migrations create two issues with different keys, and the store is untouched. |
| Properties.TransitionNeverDecidesOutcome | Migration/src/index.js:150-174 | With the same read and create replies, any transition replies give the same world, the same kind of outcome and the same key. |
| Properties.StatusNoteMeansTransitionRan | Migration/src/index.js:159-169 | The status note is present exactly when a matching transition was found first in the listed transitions and executing it succeeded. |
| Properties.StepKeepsLiveMapping | Migration/src/index.js:104-175 | Migrating any record keeps a live mapping of another number, and of the same number while its read answers. |
| Properties.StepSettles | Migration/src/index.js:104-148 | A record with a number that does not fail ends mapped to a live issue under the key it reports. |
| Properties.MigrateAllStaysReachable | Migration/src/index.js:186-193 | A batch keeps the invariant. |
| Properties.BatchOutcomeAt | Migration/src/index.js:186-193 | The i-th outcome of a batch is migrating the i-th record in the world the earlier records left, whatever they gave. |
| Properties.BatchSettles | Migration/src/index.js:186-193 | When no read fails, every record of the batch that has a number and did not fail ends mapped to a live issue under the reported key. |
| Properties.SettledBatchChangesNothing | Migration/src/index.js:186-193 | In a world where every record is mapped to a live issue, a batch whose reads answer changes nothing, and every result is AlreadyMigrated under the mapped key. |
| Properties.RerunCreatesNothing | Migration/src/index.js:186-193 | Rerunning a batch in which every record has a number and none failed creates nothing, provided no read fails. The rerun may carry re-fetched records with the same numbers. Every record is reported as already migrated under the key the first run gave it. |

## Left out

- Thrown exceptions are left out. This covers a network failure, a response body that
  is not JSON, and a storage failure during the read, the create or the save. The
  resolver catches none of them (Migration/src/index.js:186-193), so a throw aborts the
  resolver's own batch. Its front end, however, calls the resolver once per record
  (Migration/static/hello-world/src/App.js:46-60). That caller catches a throw and
  reports it as the record's `ERROR:` text, then goes on with the next record. Per-record
  isolation of thrown failures is therefore done by the caller. The model follows the
  resolver and covers only the failures that come back as non-ok responses.
- Inside the transition step every failure, a thrown one included, is swallowed. The
  model covers that: a missing listing or a failed execution leaves the status
  unapplied.
- The Jira and storage HTTP calls themselves are left out. Their answers are the
  `Replies` parameter, and storage is the `Store` object.
- The ServiceNow fetch (`fetchRecordsByTable`'s request, authentication and
  `sysparm_limit`) is left out; only its field normalisation is modelled.
  `listServiceNowTables`, which returns a constant list of table names, is not part of
  this model.
- Concurrency is left out. Records are migrated one at a time, so the read-modify-write
  of the whole store table never races.
- Keys inherited from the JavaScript object prototype are left out. A lookup of a
  number such as `constructor` in a plain object finds an inherited member; the model
  treats the table as a plain map.
- Mappers.MapPriority: non-string priorities are not modelled, because `String()`
  conversion is outside the model. The record field is text. A number reaches the
  model as its text (`String(1)` is `"1"`) and maps as that text does, so 1, 2, 4
  and 5 give Critical, High, Low and Lowest. `"null"` and `"undefined"` fall to
  Medium.
- Js.ToLower: it covers only the characters whose lower case lies in ASCII, namely A-Z
  and the Kelvin sign. That is exact for deciding equality with the all-ASCII words of
  the status table and with lower-cased ASCII status names. Other characters are kept,
  which differs from full Unicode lower-casing.
- Jira.Destination.CreateIssue: Jira's own validation of the payload is a parameter
  (the create reply). The key is always the next number of the project, and the
  `errors` object of a rejection is kept as its already serialised text.
- Executing a transition does not change the stored issue in the model. The engine
  reads only whether the execution succeeded.
- Js.Join: its contract states the length of the result and the empty and single-part
  cases, not the full text. The text is used only in error messages.
- Transition targets whose name is present but not text are left out. Here the source's
  lower-casing throws, and the throw is swallowed like the missing-name case.
