/**
 What the joint invariant of the schema lifecycle means for its users, in every reachable state.
 */
module SchemaSafety {
  import opened Prelude
  import opened Keyed
  import opened SchemaModel
  import opened SchemaOperations
  import opened SchemaValues
  import opened SchemaChanges
  import opened SchemaProofs

  // The operations of a pending change always replay on the applied model: its preview never says that the model is invalid.
  lemma PendingChangesReplay(codec: Codec, events: seq<Event>, id: string, records: seq<Record>)
    ensures var s := Run(codec, EMPTY, events);
            id in s.changes && IsActive(s.changes[id]) ==>
              && s.changes[id].collection in s.collections
              && Replay(codec, s.collections[s.changes[id].collection], s.changes[id].ops).Ok?
              && InvalidModel !in Evaluate(codec, s.collections.Keys, s.collections[s.changes[id].collection], s.changes[id].ops, records).failures
  {
    hide SchemaInv, Run, Evaluate, Replay;
    EmptyIsSound(codec);
    RunKeeps(codec, EMPTY, events);
    var s := Run(codec, EMPTY, events);
    if id in s.changes && IsActive(s.changes[id]) { EvaluatedReplays(codec, s, id, records); }
  }

  // In every reachable state each model is well formed: its field IDs differ, its names differ whatever the case,
  // and every index refers to ordinary fields that are found.
  lemma ModelsStayWellFormed(codec: Codec, events: seq<Event>, collection: string)
    ensures var s := Run(codec, EMPTY, events);
            collection in s.collections ==>
              var c := s.collections[collection];
              && (forall i, j | 0 <= i < j < |c.fields| :: c.fields[i].id != c.fields[j].id)
              && (forall i, j | 0 <= i < j < |c.fields| && !c.fields[i].system && !c.fields[j].system ::
                    Lower(c.fields[i].name) != Lower(c.fields[j].name))
              && (forall x, id | x in c.indexes && id in x.fields :: FieldById(c.fields, id).Some? && !FieldById(c.fields, id).value.system)
  {
    hide Run, AppliesOk, HistoryOk, ValidModel, Lower, Find;
    EmptyIsSound(codec);
    RunKeeps(codec, EMPTY, events);
    var s := Run(codec, EMPTY, events);
    if collection in s.collections {
      assert CollectionOk(codec, s, collection);
      WellFormed(codec, s.collections[collection]);
    }
  }

  lemma WellFormed(codec: Codec, c: Collection)
    requires ValidModel(codec, c)
    ensures forall i, j | 0 <= i < j < |c.fields| :: c.fields[i].id != c.fields[j].id
    ensures forall i, j | 0 <= i < j < |c.fields| && !c.fields[i].system && !c.fields[j].system ::
        Lower(c.fields[i].name) != Lower(c.fields[j].name)
    ensures forall x, id | x in c.indexes && id in x.fields :: FieldById(c.fields, id).Some? && !FieldById(c.fields, id).value.system
  {
    ValidModelHasDistinctIds(codec, c);
    hide FieldOk, SystemFieldOk, ValidId, Lower, HasEmail, IndexesOk, Find;
    forall x, id | x in c.indexes && id in x.fields
      ensures FieldById(c.fields, id).Some? && !FieldById(c.fields, id).value.system
    {
      IndexedFieldsAreFound(codec, c, x, id);
    }
  }

  // While an attempt is in progress, no edit, discard or second apply of its collection's change succeeds.
  lemma ApplyFreezesItsChange(codec: Codec, events: seq<Event>, attempt: string, e: Event)
    ensures var s := Run(codec, EMPTY, events);
            attempt in s.attempts && s.attempts[attempt].status == InProgress ==>
              var change := s.attempts[attempt].change;
              && change in s.changes
              && var collection := s.changes[change].collection;
                 && PendingOf(s, collection) == Some(change)
                 && ((e.SaveEvent? || e.UpdateEvent? || e.RemoveEvent? || e.DiscardEvent? || e.BeginEvent?) && e.collection == collection ==>
                       Step(codec, s, e) == s)
  {
    hide Run, TablesOk, Evaluate, Replay, Normalize;
    EmptyIsSound(codec);
    RunKeeps(codec, EMPTY, events);
    var s := Run(codec, EMPTY, events);
    if attempt in s.attempts && s.attempts[attempt].status == InProgress {
      var change := s.attempts[attempt].change;
      var collection := s.changes[change].collection;
      assert IsPending(s, collection, change);
      PendingIsOnly(codec, s, collection);
      assert IsApplying(s, change) by { assert s.attempts[attempt] == Attempt(change, InProgress); }
      if (e.SaveEvent? || e.UpdateEvent? || e.RemoveEvent? || e.DiscardEvent? || e.BeginEvent?) && e.collection == collection {
        Frozen(codec, s, e, change);
      }
    }
  }

  lemma Frozen(codec: Codec, s: Schema, e: Event, change: string)
    requires e.SaveEvent? || e.UpdateEvent? || e.RemoveEvent? || e.DiscardEvent? || e.BeginEvent?
    requires PendingOf(s, e.collection) == Some(change) && IsApplying(s, change)
    ensures Step(codec, s, e) == s
  {
    hide Evaluate, Replay, Normalize, PendingOf, IsApplying, FirstOperation;
  }

  // A commit changes nothing unless it applies the very operations the first transaction evaluated, to the very model it saw;
  // whether it does is decided by the records, the relation targets and the writing alone.
  lemma CommitAppliesWhatWasEvaluated(codec: Codec, events: seq<Event>, attempt: string, records: seq<Record>, stored: bool)
    ensures var s := Run(codec, EMPTY, events);
            attempt in s.live && !s.live[attempt].failing ==>
              var l := s.live[attempt];
              var t := Commit(codec, s, attempt, records, stored);
              && Replay(codec, l.model, l.ops).Ok?
              && var target := Replay(codec, l.model, l.ops).value;
                 if stored && Failures(codec, s.collections.Keys, l.model, target, records) == [] then
                   && t.collections == s.collections[l.collection := target.(version := l.model.version + 1)]
                   && l.change in t.changes && t.changes[l.change].status == Applied && t.changes[l.change].ops == l.ops
                   && attempt in t.attempts && t.attempts[attempt].status == Succeeded
                   && |t.migrations| == |s.migrations| + 1
                   && t.migrations[|s.migrations|] ==
                      Migration(l.change, l.collection, attempt, l.model.version + 1, Diff(l.model, target.(version := l.model.version + 1), l.ops),
                                target.(version := l.model.version + 1))
                 else
                   (t.collections, t.changes, t.attempts, t.migrations) == (s.collections, s.changes, s.attempts, s.migrations)
  {
    hide Run, SchemaInv, Evaluate, Replay, Failures, CommitProblem, Diff;
    EmptyIsSound(codec);
    RunKeeps(codec, EMPTY, events);
    var s := Run(codec, EMPTY, events);
    if attempt in s.live && !s.live[attempt].failing {
      CommitDecidedByData(codec, s, attempt, records, stored);
      CommitIs(codec, s, attempt, records, stored);
    }
  }

  // An apply that fails, dies, or is recovered leaves models, history, and every change's operations and version as they were.
  lemma FailuresKeepTheModel(codec: Codec, s: Schema, e: Event)
    requires e.FailureEvent? || e.CrashEvent? || e.RecoverEvent?
    ensures var t := Step(codec, s, e);
            && (t.collections, t.initial, t.migrations) == (s.collections, s.initial, s.migrations)
            && OnlyMarked(s.changes, t.changes)
  {
    hide Commit, Begin, Save, UpdateOperation, RemoveOperation, Discard, CreateCollection, IsApplying;
  }

  // The version counts the migrations, and the newest migration holds the model.
  lemma VersionCountsMigrations(codec: Codec, events: seq<Event>, collection: string)
    ensures var s := Run(codec, EMPTY, events);
            collection in s.collections ==>
              var history := Of(s.migrations, collection);
              && s.collections[collection].version == 1 + |history|
              && (history != [] ==> history[|history| - 1].model == s.collections[collection])
              && forall i | 0 <= i < |history| :: history[i].version == history[i].model.version == i + 2
  {
    hide Run, AppliesOk, ValidModel, HistoryOk;
    EmptyIsSound(codec);
    RunKeeps(codec, EMPTY, events);
    var s := Run(codec, EMPTY, events);
    if collection in s.collections {
      assert CollectionOk(codec, s, collection);
      VersionCounts(s.initial[collection], Of(s.migrations, collection));
      VersionsInOrder(s.initial[collection], Of(s.migrations, collection));
    }
  }

  lemma {:induction false} VersionsInOrder(first: Collection, history: seq<Migration>)
    requires HistoryOk(first, history)
    ensures forall i | 0 <= i < |history| :: history[i].version == history[i].model.version == i + 2
    decreases |history|
  {
    hide Rebuilds, KeepsLocked;
    if history != [] {
      var n := |history| - 1;
      VersionsInOrder(first, history[..n]);
      assert forall i | 0 <= i < n :: history[i] == history[..n][i];
    }
  }

  // A change is applied exactly when one migration, and no second, belongs to it.
  lemma AppliedMeansOneMigration(codec: Codec, events: seq<Event>, id: string)
    ensures var s := Run(codec, EMPTY, events);
            id in s.changes ==>
              (s.changes[id].status == Applied <==>
                 exists i :: 0 <= i < |s.migrations| && s.migrations[i].change == id
                             && forall j | 0 <= j < |s.migrations| && s.migrations[j].change == id :: j == i)
  {
    hide Run, ValidModel, Replay, OperationsOk;
    EmptyIsSound(codec);
    RunKeeps(codec, EMPTY, events);
    var s := Run(codec, EMPTY, events);
    if id in s.changes {
      assert ChangeOk(codec, s, id);
      if s.changes[id].status == Applied {
        var m :| m in s.migrations && m.change == id;
        var i :| 0 <= i < |s.migrations| && s.migrations[i] == m;
        assert forall j | 0 <= j < |s.migrations| && s.migrations[j].change == id :: j == i;
      }
    }
  }

  // Replaying the diffs of its whole history on the model a collection began with gives every field and index it has now, by ID.
  lemma HistoryRebuildsTheModel(codec: Codec, events: seq<Event>, collection: string, onIndex: bool, id: string)
    ensures var s := Run(codec, EMPTY, events);
            collection in s.collections ==>
              && collection in s.initial
              && PatchAll(Of(s.migrations, collection), onIndex, id, Lookup(s.initial[collection], onIndex, id))
                 == Lookup(s.collections[collection], onIndex, id)
  {
    hide Run, AppliesOk, ValidModel, HistoryOk, Lookup, PatchAll;
    EmptyIsSound(codec);
    RunKeeps(codec, EMPTY, events);
    var s := Run(codec, EMPTY, events);
    if collection in s.collections {
      assert CollectionOk(codec, s, collection);
      HistoryRebuilds(s.initial[collection], Of(s.migrations, collection), onIndex, id);
    }
  }

  /* ----- what stays over a run ----- */

  // The collection is still there, and is remembered to have begun as it did.
  ghost predicate BeganAlike(s: Schema, t: Schema, collection: string) {
    var alike :=
      collection in t.collections && collection in s.initial && collection in t.initial && t.initial[collection] == s.initial[collection];
    alike
  }

  // Collections stay, with the model they began with.
  lemma StepGrows(codec: Codec, s: Schema, e: Event, collection: string)
    requires SchemaInv(codec, s) && collection in s.collections
    ensures BeganAlike(s, Step(codec, s, e), collection)
  {
    hide SchemaInv, Commit, CreateCollection, Save, UpdateOperation, RemoveOperation, Discard, Begin, RecordFailure, Recover;
    HasInitial(codec, s, collection);
    match e
    case CommitEvent(attempt, records, stored) => CommitLeaves(codec, s, attempt, records, stored);
    case CreateEvent(input, id, ids, emailId) => CreationLeaves(codec, s, input, id, ids, emailId, collection);
    case FailureEvent(attempt, recorded) => FailureLeaves(s, attempt, recorded);
    case BeginEvent(collection, expected, confirmed, attempt, records) => BeginLeaves(codec, s, collection, expected, confirmed, attempt, records);
    case CrashEvent =>
    case RecoverEvent => RecoveryLeaves(s);
    case SaveEvent(collection, input, changeId, opId, newId) => SaveLeaves(codec, s, collection, input, changeId, opId, newId);
    case UpdateEvent(collection, opId, input) => UpdateLeaves(codec, s, collection, opId, input);
    case RemoveEvent(collection, opId) => RemovalLeaves(codec, s, collection, opId);
    case DiscardEvent(collection, expected) => DiscardLeaves(s, collection, expected);
  }

  // No collection goes, and what each began with is as it was.
  ghost predicate Leaves(s: Schema, t: Schema) {
    s.collections.Keys <= t.collections.Keys && t.initial == s.initial
  }

  lemma CommitLeaves(codec: Codec, s: Schema, attempt: string, records: seq<Record>, stored: bool)
    ensures Leaves(s, Commit(codec, s, attempt, records, stored))
  {
    hide Replay, Diff;
  }

  lemma CreationLeaves(codec: Codec, s: Schema, input: NewCollection, id: string, ids: seq<string>, emailId: string, collection: string)
    requires collection in s.collections && collection in s.initial
    ensures BeganAlike(s, CreateCollection(codec, s, input, id, ids, emailId).0, collection)
  {
    hide Build, Lower;
  }

  lemma FailureLeaves(s: Schema, attempt: string, recorded: bool)
    ensures Leaves(s, RecordFailure(s, attempt, recorded))
  {
    hide FailChange;
  }

  lemma RecoveryLeaves(s: Schema)
    ensures Leaves(s, Recover(s))
  {
  }

  lemma BeginLeaves(codec: Codec, s: Schema, collection: string, expected: nat, confirmed: bool, attempt: string, records: seq<Record>)
    ensures Leaves(s, Begin(codec, s, collection, expected, confirmed, attempt, records).0)
  {
    hide Evaluate, IsApplying;
  }

  lemma SaveLeaves(codec: Codec, s: Schema, collection: string, input: OperationInput, changeId: string, opId: string, newId: string)
    ensures Leaves(s, Save(codec, s, collection, input, changeId, opId, newId).0)
  {
    hide Replay, Normalize, ValidId, IsApplying;
  }

  lemma UpdateLeaves(codec: Codec, s: Schema, collection: string, opId: string, input: OperationInput)
    ensures Leaves(s, UpdateOperation(codec, s, collection, opId, input).0)
  {
    hide Replay, Normalize, IsApplying;
  }

  lemma RemovalLeaves(codec: Codec, s: Schema, collection: string, opId: string)
    ensures Leaves(s, RemoveOperation(codec, s, collection, opId).0)
  {
    hide Replay, IsApplying;
  }

  lemma DiscardLeaves(s: Schema, collection: string, expected: nat)
    ensures Leaves(s, Discard(s, collection, expected).0)
  {
    hide IsApplying;
  }

  lemma HasInitial(codec: Codec, s: Schema, collection: string)
    requires SchemaInv(codec, s) && collection in s.collections
    ensures collection in s.initial
  {
    assert CollectionOk(codec, s, collection);
  }

  lemma {:induction false} RunGrows(codec: Codec, s: Schema, events: seq<Event>, collection: string)
    requires SchemaInv(codec, s) && collection in s.collections
    ensures BeganAlike(s, Run(codec, s, events), collection)
    decreases |events|
  {
    hide SchemaInv, Step;
    StepGrows(codec, s, RecoverEvent, collection);
    if events != [] {
      StepGrows(codec, s, events[0], collection);
      StepKeeps(codec, s, events[0]);
      RunGrows(codec, Step(codec, s, events[0]), events[1..], collection);
    }
  }

  lemma LockedSinceTheStart(codec: Codec, s: Schema, collection: string)
    requires SchemaInv(codec, s) && collection in s.collections
    ensures collection in s.initial && KeepsLocked(s.initial[collection], s.collections[collection]) && ValidModel(codec, s.collections[collection])
  {
    hide AppliesOk, ValidModel, HistoryOk, KeepsLocked;
    assert CollectionOk(codec, s, collection);
    HistoryKeepsLocked(codec, s.initial[collection], Of(s.migrations, collection));
  }

  // Over any run of saved and applied changes a collection stays, with its name and kind, its system fields unaltered, and the
  // email field of an Auth collection under one ID: a required, unique text field.
  lemma LockedFieldsNeverChange(codec: Codec, s: Schema, events: seq<Event>, collection: string)
    requires SchemaInv(codec, s) && collection in s.collections
    ensures var t := Run(codec, s, events);
            && collection in t.collections && KeepsLocked(s.collections[collection], t.collections[collection])
            && ValidModel(codec, t.collections[collection])
  {
    hide SchemaInv, ValidModel, Run, SystemFieldsOf, IsEmail;
    RunGrows(codec, s, events, collection);
    RunKeeps(codec, s, events);
    LockedSinceTheStart(codec, s, collection);
    LockedSinceTheStart(codec, Run(codec, s, events), collection);
  }
}
