/**
 * What the migration engine promises, stated over `Migrate` and `MigrateAll`:
 * deduplication, self-healing of stale mappings, no mapping after a failed
 * create, no deduplication without a number, a best-effort transition that
 * never decides the outcome, and a batch that keeps order and can be rerun
 * without creating anything.
 */
module Properties {
  import opened Js
  import opened Mappers
  import opened Records
  import opened Jira
  import opened IdentityStore
  import opened Engine

  /** The key was handed out by the destination before issue number `next`. */
  predicate Issued(key: string, next: nat)
  {
    exists i :: 0 <= i < next && KeyOf(i) == key
  }

  /**
   * The states the migration can reach: every issue number is below `next`,
   * and every saved key was handed out by the destination.
   */
  predicate Reachable(w: World)
  {
    && (forall n :: n in w.issues ==> n < w.next)
    && (forall k :: k in w.mapping ==> Issued(w.mapping[k], w.next))
  }

  /** An empty store next to a destination without issues is a reachable start. */
  lemma InitialWorldIsReachable()
    ensures Reachable(World(map[], map[], 1))
  {
  }

  /** Removing entries from a reachable world's store keeps it reachable. */
  lemma FewerEntriesStayReachable(w: World, mapping: map<string, string>)
    requires Reachable(w)
    requires forall k :: k in mapping ==> k in w.mapping && mapping[k] == w.mapping[k]
    ensures Reachable(w.(mapping := mapping))
  {
  }

  /** Creating an issue and saving its key keeps the world reachable. */
  lemma AfterCreateStaysReachable(w: World, rec: Record)
    requires Reachable(w)
    ensures Reachable(AfterCreate(w, rec))
  {
    var w' := AfterCreate(w, rec);
    forall k | k in w'.mapping
      ensures Issued(w'.mapping[k], w'.next)
    {
      if k == rec.name && k != "" {
        assert w'.mapping[k] == KeyOf(w.next);
        assert 0 <= w.next < w'.next;
      } else {
        var i :| 0 <= i < w.next && KeyOf(i) == w.mapping[k];
        assert 0 <= i < w'.next;
      }
    }
  }

  /** Migrating a record keeps the world reachable. */
  lemma MigrateStaysReachable(w: World, rec: Record, r: Replies)
    requires Reachable(w)
    ensures Reachable(Migrate(w, rec, r).world)
  {
    match CheckMapping(w, rec.name, r.readOk)
    case Live(_) =>
    case Proceed(mapping) =>
      FewerEntriesStayReachable(w, mapping);
      AfterCreateStaysReachable(w.(mapping := mapping), rec);
  }

  /**
   * The common path: a record with a number that has no entry yet, whose create
   * is accepted, becomes a new issue under the next key, and its number is mapped
   * to that key.
   */
  lemma UnmappedRecordIsCreated(w: World, rec: Record, r: Replies)
    requires rec.name != "" && rec.name !in w.mapping
    requires r.create.Accepted?
    ensures var s := Migrate(w, rec, r);
      && s.outcome == Created(KeyOf(w.next), s.outcome.statusApplied)
      && s.world.mapping == w.mapping[rec.name := KeyOf(w.next)]
      && s.world.issues == w.issues[w.next := Payload(rec)]
      && s.world.next == w.next + 1
  {
  }

  /**
   * A record whose number maps to an issue that still exists and can be read is
   * reported as already migrated under that key, and nothing changes.
   */
  lemma MappedLiveRecordIsAlreadyMigrated(w: World, rec: Record, r: Replies)
    requires r.readOk
    requires rec.name != "" && rec.name in w.mapping
    requires w.mapping[rec.name] != "" && IssueExists(w.issues, w.mapping[rec.name])
    ensures Migrate(w, rec, r) == Step(w, AlreadyMigrated(w.mapping[rec.name]))
  {
  }

  /**
   * Idempotence: once a record with a number has been migrated (created or found
   * already migrated), migrating any record with that number again, even one
   * whose other fields have changed since, creates nothing, changes nothing, and
   * reports the same key, whatever else the destination would answer, as long as
   * reading the mapped issue does not fail.
   */
  lemma SecondMigrateCreatesNothing(w: World, rec: Record, rec2: Record, r1: Replies, r2: Replies)
    requires rec.name != "" && rec2.name == rec.name && r2.readOk
    requires !Migrate(w, rec, r1).outcome.Error?
    ensures var s1 := Migrate(w, rec, r1);
      Migrate(s1.world, rec2, r2) == Step(s1.world, AlreadyMigrated(s1.outcome.key))
  {
    var s1 := Migrate(w, rec, r1);
    if s1.outcome.Created? {
      assert w.next in s1.world.issues && KeyOf(w.next) == s1.outcome.key;
    }
  }

  /**
   * Self-healing, first half: when the mapped issue no longer exists the stale
   * entry is removed, so a rejected create leaves the number unmapped.
   */
  lemma StaleMappingIsRemoved(w: World, rec: Record, r: Replies)
    requires rec.name != "" && rec.name in w.mapping && w.mapping[rec.name] != ""
    requires !IssueExists(w.issues, w.mapping[rec.name])
    requires r.create.Rejected?
    ensures var s := Migrate(w, rec, r);
      s.outcome.Error? && s.world.mapping == Deleted(w.mapping, rec.name) && rec.name !in s.world.mapping
  {
    assert CheckMapping(w, rec.name, r.readOk) == Proceed(Deleted(w.mapping, rec.name));
  }

  /**
   * Self-healing, second half: when the mapped issue no longer exists and the
   * create is accepted, the number is mapped to the new issue, which exists and
   * has a key other than the stale one.
   */
  lemma StaleMappingIsReplaced(w: World, rec: Record, r: Replies)
    requires Reachable(w)
    requires rec.name != "" && rec.name in w.mapping && w.mapping[rec.name] != ""
    requires !IssueExists(w.issues, w.mapping[rec.name])
    requires r.create.Accepted?
    ensures var s := Migrate(w, rec, r);
      && s.outcome.Created? && s.outcome.key == KeyOf(w.next)
      && s.world.mapping == w.mapping[rec.name := KeyOf(w.next)]
      && KeyOf(w.next) != w.mapping[rec.name]
      && IssueExists(s.world.issues, KeyOf(w.next))
  {
    var i :| 0 <= i < w.next && KeyOf(i) == w.mapping[rec.name];
    KeyOfDistinct(i, w.next);
    var cleaned := Deleted(w.mapping, rec.name);
    assert CheckMapping(w, rec.name, r.readOk) == Proceed(cleaned);
    SaveAfterDelete(w.mapping, rec.name, KeyOf(w.next));
    assert w.next in AfterCreate(w.(mapping := cleaned), rec).issues;
  }

  /**
   * A failed read counts as a missing issue: the live mapping is dropped and an
   * accepted create makes a second issue for the record, under a new key, while
   * the first issue still exists.
   */
  lemma FailedReadCreatesDuplicate(w: World, rec: Record, r: Replies)
    requires Reachable(w)
    requires MappedToLiveIssue(w, rec.name)
    requires !r.readOk && r.create.Accepted?
    ensures var s := Migrate(w, rec, r);
      && s.outcome == Created(KeyOf(w.next), s.outcome.statusApplied)
      && KeyOf(w.next) != w.mapping[rec.name]
      && IssueExists(s.world.issues, w.mapping[rec.name])
      && IssueExists(s.world.issues, KeyOf(w.next))
      && MappedKey(s.world.mapping, rec.name) == Some(KeyOf(w.next))
  {
    var s := Migrate(w, rec, r);
    var n :| n in w.issues && KeyOf(n) == w.mapping[rec.name];
    KeyOfDistinct(n, w.next);
    assert n in s.world.issues && w.next in s.world.issues;
  }

  /**
   * A rejected create reports the error, creates no issue and adds no entry to
   * the store (a stale entry for the number may have been removed).
   */
  lemma RejectedCreateSavesNothing(w: World, rec: Record, r: Replies)
    requires r.create.Rejected?
    requires !(r.readOk && MappedToLiveIssue(w, rec.name))
    ensures var s := Migrate(w, rec, r);
      && s.outcome == Error(ErrorText(r.create.errorMessages, r.create.errors))
      && s.world.issues == w.issues && s.world.next == w.next
      && (forall k :: k in s.world.mapping ==> k in w.mapping && s.world.mapping[k] == w.mapping[k])
      && (forall k :: k in w.mapping && k != rec.name ==> k in s.world.mapping)
  {
  }

  /**
   * A record without a number is never looked up or saved: each accepted create
   * makes a new issue with a new key, and the store is left as it was.
   */
  lemma EmptyNumberIsCreatedEveryTime(w: World, rec: Record, r1: Replies, r2: Replies)
    requires rec.name == ""
    requires r1.create.Accepted? && r2.create.Accepted?
    ensures var s1 := Migrate(w, rec, r1);
      var s2 := Migrate(s1.world, rec, r2);
      && s1.outcome.Created? && s2.outcome.Created?
      && s1.outcome.key != s2.outcome.key
      && s1.world.mapping == w.mapping && s2.world.mapping == w.mapping
      && s2.world.next == w.next + 2
  {
    KeyOfDistinct(w.next, w.next + 1);
  }

  /**
   * The transition step decides only the status note: with the same read and
   * create replies, any transition replies give the same world, the same kind of
   * outcome and the same key.
   */
  lemma TransitionNeverDecidesOutcome(w: World, rec: Record, r1: Replies, r2: Replies)
    requires r1.readOk == r2.readOk && r1.create == r2.create
    ensures var s1, s2 := Migrate(w, rec, r1), Migrate(w, rec, r2);
      && s1.world == s2.world
      && KindOf(s1.outcome) == KindOf(s2.outcome)
      && (s1.outcome.Created? ==> s1.outcome.key == s2.outcome.key)
      && (!s1.outcome.Created? ==> s1.outcome == s2.outcome)
  {
  }

  /**
   * The status is noted as applied exactly when the transitions were listed, the
   * first transition the search stops at leads to the mapped status (ignoring
   * case), and executing it succeeded.
   */
  lemma StatusNoteMeansTransitionRan(w: World, rec: Record, r: Replies)
    requires Migrate(w, rec, r).outcome.Created?
    ensures var target := MapStatus(Some(rec.status)).Name();
      Migrate(w, rec, r).outcome.statusApplied <==>
        && r.transitions.Listed?
        && r.transitionOk
        && exists i :: 0 <= i < |r.transitions.transitions|
                       && Hits(r.transitions.transitions[i], target)
                       && forall j :: 0 <= j < i ==> Passes(r.transitions.transitions[j], target)
  {
  }

  /**
   * A record mapped to a live issue stays mapped to it, whatever record is
   * migrated, unless that record has the same number and its read fails.
   */
  lemma StepKeepsLiveMapping(w: World, rec: Record, r: Replies, number: string)
    requires MappedToLiveIssue(w, number)
    requires r.readOk || rec.name != number
    ensures MappedToLiveIssue(Migrate(w, rec, r).world, number)
    ensures MappedKey(Migrate(w, rec, r).world.mapping, number) == MappedKey(w.mapping, number)
  {
    var s := Migrate(w, rec, r);
    var key := w.mapping[number];
    var n :| n in w.issues && KeyOf(n) == key;
    if s.world != w {
      assert rec.name != number;
      assert n in s.world.issues;
    }
  }

  /** A record with a number that did not fail ends up mapped to the live issue it reports. */
  lemma StepSettles(w: World, rec: Record, r: Replies)
    requires rec.name != ""
    requires !Migrate(w, rec, r).outcome.Error?
    ensures var s := Migrate(w, rec, r);
      MappedToLiveIssue(s.world, rec.name) && MappedKey(s.world.mapping, rec.name) == Some(s.outcome.key)
  {
    var s := Migrate(w, rec, r);
    if s.outcome.Created? {
      assert w.next in s.world.issues && KeyOf(w.next) == s.outcome.key;
    }
  }

  /** The batch keeps the world reachable. */
  lemma {:induction false} MigrateAllStaysReachable(w: World, records: seq<Record>, replies: nat -> Replies)
    requires Reachable(w)
    ensures Reachable(MigrateAll(w, records, replies).world)
  {
    if records != [] {
      var n := |records| - 1;
      MigrateAllStaysReachable(w, records[..n], replies);
      MigrateStaysReachable(MigrateAll(w, records[..n], replies).world, records[n], replies(n));
    }
  }

  /**
   * Every record of a batch is migrated, whatever the earlier ones gave: the
   * i-th outcome is that of migrating the i-th record in the world the first i
   * records left behind.
   */
  lemma {:induction false} BatchOutcomeAt(w: World, records: seq<Record>, replies: nat -> Replies, i: nat)
    requires i < |records|
    ensures MigrateAll(w, records, replies).results[i].outcome
         == Migrate(MigrateAll(w, records[..i], replies).world, records[i], replies(i)).outcome
  {
    var n := |records| - 1;
    if i < n {
      BatchOutcomeAt(w, records[..n], replies, i);
      assert records[..n][..i] == records[..i];
    } else {
      assert records[..n] == records[..i];
    }
  }

  /**
   * After a batch in which no read of a mapped issue failed, every record with a
   * number that did not fail is mapped to a live issue, under the key its result
   * reports.
   */
  lemma {:induction false} BatchSettles(w: World, records: seq<Record>, replies: nat -> Replies)
    requires forall i :: 0 <= i < |records| ==> replies(i).readOk
    ensures var b := MigrateAll(w, records, replies);
      forall i :: 0 <= i < |records| && records[i].name != "" && !b.results[i].outcome.Error? ==>
        && MappedToLiveIssue(b.world, records[i].name)
        && MappedKey(b.world.mapping, records[i].name) == Some(b.results[i].outcome.key)
  {
    if records != [] {
      var n := |records| - 1;
      var before := MigrateAll(w, records[..n], replies);
      var b := MigrateAll(w, records, replies);
      BatchSettles(w, records[..n], replies);
      forall i | 0 <= i < |records| && records[i].name != "" && !b.results[i].outcome.Error?
        ensures MappedToLiveIssue(b.world, records[i].name)
        ensures MappedKey(b.world.mapping, records[i].name) == Some(b.results[i].outcome.key)
      {
        if i < n {
          assert b.results[i] == before.results[i];
          assert records[..n][i] == records[i];
          StepKeepsLiveMapping(before.world, records[n], replies(n), records[i].name);
        } else {
          StepSettles(before.world, records[n], replies(n));
        }
      }
    }
  }

  /**
   * In a world where every record is mapped to a live issue, a batch whose reads
   * all answer changes nothing and reports each record as already migrated.
   */
  lemma {:induction false} SettledBatchChangesNothing(w: World, records: seq<Record>, replies: nat -> Replies)
    requires forall i :: 0 <= i < |records| ==> MappedToLiveIssue(w, records[i].name)
    requires forall i :: 0 <= i < |records| ==> replies(i).readOk
    ensures var b := MigrateAll(w, records, replies);
      && b.world == w
      && forall i :: 0 <= i < |records| ==>
           b.results[i].outcome.AlreadyMigrated? && MappedKey(w.mapping, records[i].name) == Some(b.results[i].outcome.key)
  {
    if records != [] {
      var n := |records| - 1;
      assert forall i :: 0 <= i < n ==> records[..n][i] == records[i];
      SettledBatchChangesNothing(w, records[..n], replies);
      var before := MigrateAll(w, records[..n], replies);
      assert before.world == w;
      assert MappedToLiveIssue(w, records[n].name);
      assert Migrate(w, records[n], replies(n)) == Step(w, AlreadyMigrated(MappedKey(w.mapping, records[n].name).value));
    }
  }

  /**
   * Rerunning a batch in which every record has a number and none failed creates
   * nothing, changes nothing, and reports every record as already migrated under
   * the key the first run gave it, as long as no read of a mapped issue fails.
   * The rerun may carry re-fetched records: only their numbers must be the same.
   */
  lemma RerunCreatesNothing(w: World, records: seq<Record>, again: seq<Record>, r1: nat -> Replies, r2: nat -> Replies)
    requires |again| == |records| && forall i :: 0 <= i < |records| ==> again[i].name == records[i].name
    requires forall i :: 0 <= i < |records| ==> r1(i).readOk && r2(i).readOk
    requires var b1 := MigrateAll(w, records, r1);
      forall i :: 0 <= i < |records| ==> records[i].name != "" && !b1.results[i].outcome.Error?
    ensures var b1 := MigrateAll(w, records, r1);
      var b2 := MigrateAll(b1.world, again, r2);
      && b2.world == b1.world
      && forall i :: 0 <= i < |records| ==> b2.results[i].outcome == AlreadyMigrated(b1.results[i].outcome.key)
  {
    var b1 := MigrateAll(w, records, r1);
    BatchSettles(w, records, r1);
    SettledBatchChangesNothing(b1.world, again, r2);
  }
}
