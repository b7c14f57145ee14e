/**
 * The migration engine: for each record, the deduplication against the identity
 * store, the check that a mapped issue still exists, the create request, the
 * saved mapping and the best-effort status transition; and the batch that runs
 * it over a list of records in order.
 *
 * `Migrate` and `MigrateAll` state the behaviour over a `World` value (the
 * stored table, the destination's issues and its next issue number); the
 * methods `CreateJiraIssue` and `MigrateToJira` do it step by step on a `Store`
 * and a `Destination` and are proved to agree with them.
 */
module Engine {
  import opened Js
  import opened Mappers
  import opened Records
  import opened Jira
  import opened IdentityStore

  /** What migrating one record gives. */
  datatype Outcome =
    | Created(key: string, statusApplied: bool)
    | AlreadyMigrated(key: string)
    | Error(message: string)

  /** Everything migrating a record reads and changes. */
  datatype World = World(mapping: map<string, string>, issues: map<nat, Fields>, next: nat)

  /** The world after migrating one record, and the outcome. */
  datatype Step = Step(world: World, outcome: Outcome)

  /**
   * The fields sent to create an issue for a record: the project and issue type
   * are fixed, the description is one paragraph holding the record's text, and
   * the priority is named by the mapped one.
   */
  function Payload(rec: Record): (f: Fields)
    ensures f.project == ProjectKey && f.issueType == IssueType
    ensures f.summary == rec.summary
    ensures f.description == Doc(1, [Paragraph([Text(rec.description)])])
    ensures f.priority == MapPriority(rec.priority).Name()
  {
    Fields(ProjectKey, rec.summary, ToAdf(Some(rec.description)), IssueType, MapPriority(rec.priority).Name())
  }

  /**
   * The error text built from a rejected create request: the messages joined
   * (an empty list is present, so it joins to nothing) or "Unknown error" when
   * there are none, then " | " and the serialised `errors`.
   */
  function ErrorText(errorMessages: Option<seq<string>>, errors: string): (r: string)
    ensures |r| >= 3 + |errors| && r[|r| - |errors| - 3..] == " | " + errors
    ensures errorMessages.None? ==> r[..|r| - |errors| - 3] == "Unknown error"
    ensures errorMessages.Some? ==> r[..|r| - |errors| - 3] == Join(errorMessages.value, "; ")
    ensures errorMessages == Some([]) ==> |r| == 3 + |errors|
  {
    var head := if errorMessages.Some? then Join(errorMessages.value, "; ") else "Unknown error";
    var r := head + (" | " + errors);
    assert r[..|head|] == head && r[|head|..] == " | " + errors;
    r
  }

  /**
   * Whether the best-effort transition was applied: the transitions could be
   * listed, the first one the search stops at leads to `target` (ignoring case),
   * and executing it succeeded.
   */
  function StatusApplied(target: Status, list: TransitionList, executed: bool): (applied: bool)
    ensures applied <==>
      && list.Listed?
      && executed
      && exists i :: 0 <= i < |list.transitions| && Hits(list.transitions[i], target.Name())
                     && forall j :: 0 <= j < i ==> Passes(list.transitions[j], target.Name())
  {
    if list.Listed? then
      var ts, name := list.transitions, target.Name();
      var f := FindTransition(ts, name);
      f.Match? && executed
    else
      false
  }

  /** The record is mapped to a key that still names an existing issue. */
  predicate MappedToLiveIssue(w: World, number: string)
  {
    CheckMapping(w, number, true).Live?
  }

  /** What checking the store for a record gives: a live issue, or the store to go on with. */
  datatype Check = Live(key: string) | Proceed(mapping: map<string, string>)

  /**
   * Looking the record's number up: a mapped issue that still exists, and whose
   * read answers (`readOk`), ends the migration; otherwise a mapped entry is removed.
   */
  function CheckMapping(w: World, number: string, readOk: bool): (c: Check)
    ensures c.Live? <==>
      readOk && number != "" && number in w.mapping && w.mapping[number] != ""
      && IssueExists(w.issues, w.mapping[number])
    ensures c.Live? ==> c.key == w.mapping[number]
    ensures c.Proceed? && MappedKey(w.mapping, number).Some? && w.mapping[number] != "" ==>
      c.mapping == Deleted(w.mapping, number)
    ensures c.Proceed? && !(MappedKey(w.mapping, number).Some? && w.mapping[number] != "") ==>
      c.mapping == w.mapping
  {
    var existing := MappedKey(w.mapping, number);
    if existing.Some? && existing.value != "" then
      if readOk && IssueExists(w.issues, existing.value) then Live(existing.value)
      else Proceed(Deleted(w.mapping, number))
    else
      Proceed(w.mapping)
  }

  /** The world after the destination accepted the issue and its key was saved for the record. */
  function AfterCreate(w: World, rec: Record): (w': World)
    ensures w'.next == w.next + 1
    ensures w'.issues == w.issues[w.next := Payload(rec)]
    ensures rec.name != "" ==> MappedKey(w'.mapping, rec.name) == Some(KeyOf(w.next))
    ensures w'.mapping == Saved(w.mapping, rec.name, KeyOf(w.next))
  {
    World(Saved(w.mapping, rec.name, KeyOf(w.next)), w.issues[w.next := Payload(rec)], w.next + 1)
  }

  /**
   * Creating the issue, saving its key and trying the transition: a rejected
   * create changes nothing and reports the error; an accepted one reports the new
   * key, whatever the transition gives.
   */
  function CreateStep(w: World, rec: Record, replies: Replies): (s: Step)
    ensures replies.create.Rejected? ==>
      s == Step(w, Error(ErrorText(replies.create.errorMessages, replies.create.errors)))
    ensures replies.create.Accepted? ==>
      s.world == AfterCreate(w, rec) && s.outcome.Created? && s.outcome.key == KeyOf(w.next)
  {
    match replies.create
    case Rejected(errorMessages, errors) =>
      Step(w, Error(ErrorText(errorMessages, errors)))
    case Accepted =>
      var applied := StatusApplied(MapStatus(Some(rec.status)), replies.transitions, replies.transitionOk);
      Step(AfterCreate(w, rec), Created(KeyOf(w.next), applied))
  }

  /**
   * Migrating one record, given what the destination answers. Only an accepted
   * create adds an issue; a live mapping leaves everything as it was.
   */
  function Migrate(w: World, rec: Record, replies: Replies): (s: Step)
    ensures s.outcome.AlreadyMigrated? <==> replies.readOk && MappedToLiveIssue(w, rec.name)
    ensures s.outcome.Created? <==> replies.create.Accepted? && !(replies.readOk && MappedToLiveIssue(w, rec.name))
    ensures s.outcome.Created? && rec.name != "" ==> MappedKey(s.world.mapping, rec.name) == Some(KeyOf(w.next))
    ensures forall k :: k != rec.name ==> MappedKey(s.world.mapping, k) == MappedKey(w.mapping, k)
    ensures s.outcome.AlreadyMigrated? ==> s.world == w
    ensures s.outcome.Created? <==> s.world.next == w.next + 1
    ensures s.outcome.Created? ==>
      s.outcome.key == KeyOf(w.next) && s.world.issues == w.issues[w.next := Payload(rec)]
    ensures !s.outcome.Created? ==> s.world.issues == w.issues && s.world.next == w.next
  {
    match CheckMapping(w, rec.name, replies.readOk)
    case Live(key) => Step(w, AlreadyMigrated(key))
    case Proceed(mapping) => CreateStep(w.(mapping := mapping), rec, replies)
  }

  /** The world a store and a destination hold. */
  function WorldOf(store: Store, jira: Destination): World
    reads store, jira
  {
    World(store.mapping, jira.issues, jira.next)
  }

  /** The lookup, existence check and stale-entry removal, step by step. */
  method CheckStore(store: Store, jira: Destination, number: string, readOk: bool) returns (c: Check)
    modifies store
    ensures c == CheckMapping(old(WorldOf(store, jira)), number, readOk)
    ensures store.mapping == if c.Proceed? then c.mapping else old(store.mapping)
  {
    c := Proceed(store.mapping);
    if number != "" {
      var existing := store.GetMappedJiraIssueKey(number);
      if existing.Some? && existing.value != "" {
        var stillThere := jira.GetIssue(existing.value, readOk);
        if stillThere {
          return Live(existing.value);
        }
        store.DeleteMapping(number);
        c := Proceed(store.mapping);
      }
    }
  }

  /**
   * The best-effort transition: list the transitions, find the one to the mapped
   * status and execute it. Every failure on the way only leaves the status unapplied.
   */
  method TryTransition(rec: Record, replies: Replies) returns (applied: bool)
    ensures applied <==>
      && replies.transitions.Listed?
      && replies.transitionOk
      && var ts, target := replies.transitions.transitions, MapStatus(Some(rec.status)).Name();
         exists i :: 0 <= i < |ts| && Hits(ts[i], target) && forall j :: 0 <= j < i ==> Passes(ts[j], target)
  {
    var target := MapStatus(Some(rec.status));
    applied := false;
    if replies.transitions.Listed? {
      var found := FindTransition(replies.transitions.transitions, target.Name());
      if found.Match? && replies.transitionOk {
        applied := true;
      }
    }
    assert applied == StatusApplied(target, replies.transitions, replies.transitionOk);
  }

  /** The create request, the saving of the new key and the transition, step by step. */
  method CreateAndSave(store: Store, jira: Destination, rec: Record, replies: Replies) returns (o: Outcome)
    requires jira.Valid()
    modifies store, jira
    ensures jira.Valid()
    ensures Step(WorldOf(store, jira), o) == CreateStep(old(WorldOf(store, jira)), rec, replies)
  {
    ghost var w0 := WorldOf(store, jira);
    var created := jira.CreateIssue(Payload(rec), replies.create);
    if created.None? {
      return Error(ErrorText(replies.create.errorMessages, replies.create.errors));
    }
    var key := created.value;
    if rec.name != "" {
      store.SaveMapping(rec.name, key);
    }
    assert WorldOf(store, jira) == AfterCreate(w0, rec);
    var applied := TryTransition(rec, replies);
    o := Created(key, applied);
  }

  /** One record migrated step by step; the transition step never fails the record. */
  method CreateJiraIssue(store: Store, jira: Destination, rec: Record, replies: Replies) returns (o: Outcome)
    requires jira.Valid()
    modifies store, jira
    ensures jira.Valid()
    ensures Step(WorldOf(store, jira), o) == Migrate(old(WorldOf(store, jira)), rec, replies)
  {
    var c := CheckStore(store, jira, rec.name, replies.readOk);
    if c.Live? {
      return AlreadyMigrated(c.key);
    }
    o := CreateAndSave(store, jira, rec, replies);
  }

  /** A record together with what migrating it gave. */
  datatype MigrationResult = MigrationResult(record: Record, outcome: Outcome)

  /** The world after a batch, and its results. */
  datatype Batch = Batch(world: World, results: seq<MigrationResult>)

  /**
   * Migrating `records` one after another, the i-th with the replies `replies(i)`:
   * one result per record, in the order of the records.
   */
  function MigrateAll(w: World, records: seq<Record>, replies: nat -> Replies): (b: Batch)
    ensures |b.results| == |records|
    ensures forall i :: 0 <= i < |records| ==> b.results[i].record == records[i]
  {
    if records == [] then Batch(w, [])
    else
      var n := |records| - 1;
      var before := MigrateAll(w, records[..n], replies);
      var s := Migrate(before.world, records[n], replies(n));
      Batch(s.world, before.results + [MigrationResult(records[n], s.outcome)])
  }

  /** The batch resolver: each record migrated in turn, its result appended. */
  method MigrateToJira(store: Store, jira: Destination, records: seq<Record>, replies: nat -> Replies)
    returns (results: seq<MigrationResult>)
    requires jira.Valid()
    modifies store, jira
    ensures jira.Valid()
    ensures Batch(WorldOf(store, jira), results) == MigrateAll(old(WorldOf(store, jira)), records, replies)
  {
    ghost var w0 := WorldOf(store, jira);
    results := [];
    var i := 0;
    while i < |records|
      invariant 0 <= i <= |records|
      invariant jira.Valid()
      invariant Batch(WorldOf(store, jira), results) == MigrateAll(w0, records[..i], replies)
    {
      assert records[..i + 1][..i] == records[..i];
      var outcome := CreateJiraIssue(store, jira, records[i], replies(i));
      results := results + [MigrationResult(records[i], outcome)];
      i := i + 1;
    }
    assert records[..i] == records;
  }

  /** How the outcome is reported to the caller, as text. */
  function Render(o: Outcome, target: Status): string
  {
    match o
    case AlreadyMigrated(key) => "ALREADY MIGRATED: " + BrowseBase + key
    case Error(message) => "ERROR: " + message
    case Created(key, applied) =>
      BrowseBase + key + (if applied then " (Status set to " + target.Name() + ")" else "")
  }

  /** The text reported for a result, next to the record's own fields. */
  function JiraUrl(r: MigrationResult): string
  {
    Render(r.outcome, MapStatus(Some(r.record.status)))
  }

  /** The three kinds of outcome the caller tells apart. */
  datatype Kind = Link | Already | Failed

  function KindOf(o: Outcome): Kind
  {
    match o
    case Created(_, _) => Link
    case AlreadyMigrated(_) => Already
    case Error(_) => Failed
  }

  /** How the caller reads the kind back from the reported text, by its prefix. */
  function KindOfText(url: string): Kind
  {
    if StartsWith(url, "ALREADY MIGRATED:") then Already
    else if StartsWith(url, "ERROR") then Failed
    else Link
  }

  /** Text that starts with a character other than `A` and `E` reads as a link. */
  lemma KindOfPlainText(t: string)
    requires t != [] && t[0] != 'A' && t[0] != 'E'
    ensures KindOfText(t) == Link
  {
    assert !StartsWith(t, "ALREADY MIGRATED:") by {
      if |t| >= 17 { assert t[..17][0] == t[0]; }
    }
    assert !StartsWith(t, "ERROR") by {
      if |t| >= 5 { assert t[..5][0] == t[0]; }
    }
  }

  /** The already-migrated text reads as such. */
  lemma AlreadyMigratedReport(key: string)
    ensures KindOfText("ALREADY MIGRATED: " + BrowseBase + key) == Already
  {
    var t := "ALREADY MIGRATED:" + (" " + BrowseBase + key);
    assert "ALREADY MIGRATED: " + BrowseBase + key == t;
    assert t[..17] == "ALREADY MIGRATED:";
  }

  /** The error text reads as an error. */
  lemma ErrorReport(message: string)
    ensures KindOfText("ERROR: " + message) == Failed
  {
    var t := "ERROR" + (": " + message);
    assert "ERROR: " + message == t;
    assert t[..5] == "ERROR";
    assert t[0] == 'E';
  }

  /** A browse link reads as a link. */
  lemma LinkReport(rest: string)
    ensures KindOfText(BrowseBase + rest) == Link
  {
    var t := BrowseBase + rest;
    assert t[0] == BrowseBase[0] == "https://"[0] == 'h';
    KindOfPlainText(t);
  }

  /** The reported text never loses the kind of outcome. */
  lemma RenderKeepsKind(o: Outcome, target: Status)
    ensures KindOfText(Render(o, target)) == KindOf(o)
  {
    match o
    case AlreadyMigrated(key) =>
      AlreadyMigratedReport(key);
    case Error(message) =>
      ErrorReport(message);
    case Created(key, applied) =>
      var rest := key + (if applied then " (Status set to " + target.Name() + ")" else "");
      assert Render(o, target) == BrowseBase + rest;
      LinkReport(rest);
  }
}
