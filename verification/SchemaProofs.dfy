/**
 The schema lifecycle keeps one joint invariant over every run: stored operations always replay, an apply in progress
 freezes its change, and the history is a faithful record of how each model came about.
 */
module SchemaProofs {
  import opened Prelude
  import opened SchemaModel
  import opened SchemaOperations
  import opened SchemaValues
  import opened SchemaChanges

  /* ----- the history of one collection ----- */

  // The migrations of a collection, oldest first.
  function Of(migrations: seq<Migration>, collection: string): seq<Migration> {
    if migrations == [] then []
    else
      var n := |migrations| - 1;
      Of(migrations[..n], collection) + if migrations[n].collection == collection then [migrations[n]] else []
  }

  // What no change of a model may alter: its identity, its system fields, and the ID of an Auth collection's email.
  predicate KeepsLocked(c: Collection, d: Collection) {
    && (d.id, d.name, d.kind) == (c.id, c.name, c.kind)
    && SystemFieldsOf(d.fields) == SystemFieldsOf(c.fields)
    && (c.kind == Auth ==> FieldByName(c.fields, EMAIL).Some? && FieldByName(d.fields, EMAIL).Some?
                           && FieldByName(d.fields, EMAIL).value.id == FieldByName(c.fields, EMAIL).value.id
                           && IsEmail(FieldByName(d.fields, EMAIL).value))
  }

  // The diff as a patch rebuilds one model from the other.
  ghost predicate Rebuilds(before: Collection, diff: seq<DiffItem>, after: Collection) {
    forall onIndex, id :: Patch(diff, onIndex, id, Lookup(before, onIndex, id)) == Lookup(after, onIndex, id)
  }

  function ModelAfter(first: Collection, history: seq<Migration>): Collection {
    if history == [] then first else history[|history| - 1].model
  }

  // Version 1 is the initial model; each migration rebuilds the next version from the one before.
  ghost predicate HistoryOk(first: Collection, history: seq<Migration>)
    decreases |history|
  {
    if history == [] then first.version == 1
    else
      var n := |history| - 1;
      var before := ModelAfter(first, history[..n]);
      && HistoryOk(first, history[..n])
      && history[n].version == history[n].model.version == 2 + n
      && Rebuilds(before, history[n].diff, history[n].model)
      && KeepsLocked(before, history[n].model)
  }

  function PatchAll(history: seq<Migration>, onIndex: bool, id: string, value: Definition): Definition
    decreases |history|
  {
    if history == [] then value
    else
      var n := |history| - 1;
      Patch(history[n].diff, onIndex, id, PatchAll(history[..n], onIndex, id, value))
  }

  // Replaying the diffs of the whole history on the initial model gives the current fields and indexes by ID.
  lemma {:induction false} HistoryRebuilds(first: Collection, history: seq<Migration>, onIndex: bool, id: string)
    requires HistoryOk(first, history)
    ensures PatchAll(history, onIndex, id, Lookup(first, onIndex, id)) == Lookup(ModelAfter(first, history), onIndex, id)
    decreases |history|
  {
    hide Lookup, Patch, KeepsLocked;
    if history != [] {
      HistoryRebuilds(first, history[..|history| - 1], onIndex, id);
    }
  }

  lemma {:induction false} HistoryKeepsLocked(codec: Codec, first: Collection, history: seq<Migration>)
    ensures HistoryOk(first, history) && ValidModel(codec, first) ==> KeepsLocked(first, ModelAfter(first, history))
    decreases |history|
  {
    hide Rebuilds, FieldsOk, IndexesOk, HasIdField, SystemFieldsOf;
    if history != [] {
      HistoryKeepsLocked(codec, first, history[..|history| - 1]);
    }
  }

  /* ----- the invariant ----- */

  ghost predicate CollectionOk(codec: Codec, s: Schema, id: string) {
    var ok :=
      && id in s.collections && ValidModel(codec, s.collections[id]) && s.collections[id].id == id
      && id in s.initial && ValidModel(codec, s.initial[id])
      && HistoryOk(s.initial[id], Of(s.migrations, id))
      && s.collections[id] == ModelAfter(s.initial[id], Of(s.migrations, id));
    ok
  }

  ghost predicate NamesOk(collections: map<string, Collection>) {
    forall a, b | a in collections && b in collections && a != b :: Lower(collections[a].name) != Lower(collections[b].name)
  }

  ghost predicate IsMigrated(s: Schema, change: string) {
    exists m :: m in s.migrations && m.change == change
  }

  // Stored operations are in normal form, and those of an active change replay on the present model.
  ghost predicate ChangeOk(codec: Codec, s: Schema, id: string) {
    var ok :=
      && id in s.changes
      && var c := s.changes[id];
      && c.collection in s.collections && 1 <= c.version && OperationsOk(codec, c.ops)
      && (IsActive(c) ==> Replay(codec, s.collections[c.collection], c.ops).Ok?)
      && (c.status == Applied <==> IsMigrated(s, id));
    ok
  }

  ghost predicate OneActive(s: Schema) {
    forall a, b, collection | IsPending(s, collection, a) && IsPending(s, collection, b) :: a == b
  }

  // An attempt in progress freezes an active change, alone.
  ghost predicate AttemptsOk(s: Schema) {
    && (forall a | a in s.attempts :: s.attempts[a].change in s.changes
                                     && (s.attempts[a].status == InProgress ==> IsActive(s.changes[s.attempts[a].change])))
    && (forall a, b | a in s.attempts && b in s.attempts && s.attempts[a] == s.attempts[b] && s.attempts[a].status == InProgress :: a == b)
  }

  predicate RiskKnown(codec: Codec, l: Live) {
    match Replay(codec, l.model, l.ops)
    case Err(_) => false
    case Ok(target) => (exists item | item in Diff(l.model, target, l.ops) :: NeedsReview(l.model, target, item)) ==> l.confirmed
  }

  // A live apply still sees the change and the model its first transaction evaluated.
  ghost predicate LiveOk(codec: Codec, s: Schema, a: string) {
    var ok :=
      && a in s.live
      && var l := s.live[a];
      && a in s.attempts && s.attempts[a] == Attempt(l.change, InProgress)
      && l.change in s.changes
      && (s.changes[l.change].collection, s.changes[l.change].version, s.changes[l.change].ops) == (l.collection, l.expected, l.ops)
      && l.collection in s.collections && s.collections[l.collection] == l.model
      && (!l.failing ==> RiskKnown(codec, l));
    ok
  }

  // A migration belongs to an applied change and a succeeded attempt, and no two to the same.
  ghost predicate MigrationsOk(s: Schema) {
    && (forall m | m in s.migrations ::
          && m.change in s.changes && s.changes[m.change].status == Applied && s.changes[m.change].collection == m.collection
          && m.collection in s.collections
          && m.attempt in s.attempts && s.attempts[m.attempt] == Attempt(m.change, Succeeded))
    && (forall i, j | 0 <= i < j < |s.migrations| :: s.migrations[i].change != s.migrations[j].change)
  }

  ghost predicate TablesOk(codec: Codec, s: Schema) {
    && (forall id {:trigger CollectionOk(codec, s, id)} | id in s.collections :: CollectionOk(codec, s, id))
    && (forall id {:trigger ChangeOk(codec, s, id)} | id in s.changes :: ChangeOk(codec, s, id))
    && NamesOk(s.collections) && OneActive(s)
  }

  ghost predicate AppliesOk(codec: Codec, s: Schema) {
    && AttemptsOk(s) && MigrationsOk(s)
    && (forall a {:trigger LiveOk(codec, s, a)} | a in s.live :: LiveOk(codec, s, a))
  }

  ghost predicate SchemaInv(codec: Codec, s: Schema) {
    var sound := TablesOk(codec, s) && AppliesOk(codec, s);
    sound
  }

  /* ----- changes of one change row ----- */

  // A change row is written that fits: it replays if it is active, and is then the only active one of its collection.
  ghost predicate WritesRow(codec: Codec, s: Schema, t: Schema, id: string, c: Change) {
    && t == s.(changes := s.changes[id := c]) && (id in s.changes ==> IsActive(s.changes[id])) && c.status != Applied
    && c.collection in s.collections && 1 <= c.version && OperationsOk(codec, c.ops)
    && (IsActive(c) ==>
          Replay(codec, s.collections[c.collection], c.ops).Ok? && forall other | IsPending(s, c.collection, other) :: other == id)
  }

  // That happens while no apply of the change is in progress.
  lemma RowWritten(codec: Codec, s: Schema, t: Schema, id: string, c: Change)
    requires SchemaInv(codec, s) && WritesRow(codec, s, t, id, c) && !IsApplying(s, id)
    ensures SchemaInv(codec, t)
  {
    hide TablesOk, Replay, OperationsOk, RiskKnown;
    assert !IsMigrated(s, id);
    RowWrittenTables(codec, s, t, id, c);
    forall a | a in s.attempts && s.attempts[a].status == InProgress
      ensures s.attempts[a].change != id
    {
      assert s.attempts[a] == Attempt(s.attempts[a].change, InProgress);
    }
    forall a | a in t.live ensures LiveOk(codec, t, a) { assert LiveOk(codec, s, a); }
    assert forall m | m in s.migrations :: m.change != id;
  }

  lemma RowWrittenTables(codec: Codec, s: Schema, t: Schema, id: string, c: Change)
    requires TablesOk(codec, s) && WritesRow(codec, s, t, id, c) && !IsMigrated(s, id)
    ensures TablesOk(codec, t)
  {
    hide ValidModel, Replay, OperationsOk, HistoryOk, Of, NamesOk, ChangeOk, OneActive;
    forall k | k in t.collections ensures CollectionOk(codec, t, k) { assert CollectionOk(codec, s, k); }
    hide CollectionOk;
    RowWrittenChanges(codec, s, t, id, c);
    assert OneActive(t) by { RowWrittenActive(codec, s, t, id, c); }
  }

  lemma RowWrittenActive(codec: Codec, s: Schema, t: Schema, id: string, c: Change)
    requires OneActive(s) && WritesRow(codec, s, t, id, c)
    ensures OneActive(t)
  {
    hide Replay, OperationsOk, IsMigrated;
    forall a, collection | a != id
      ensures IsPending(t, collection, a) <==> IsPending(s, collection, a)
    {
    }
  }

  lemma RowWrittenChanges(codec: Codec, s: Schema, t: Schema, id: string, c: Change)
    requires TablesOk(codec, s) && WritesRow(codec, s, t, id, c) && !IsMigrated(s, id)
    ensures forall k | k in t.changes :: ChangeOk(codec, t, k)
  {
    hide Replay, OperationsOk, CollectionOk, NamesOk, OneActive;
    forall k | k in t.changes
      ensures ChangeOk(codec, t, k)
    {
      assert IsMigrated(t, k) <==> IsMigrated(s, k);
      if k != id { assert ChangeOk(codec, s, k); }
    }
  }

  ghost predicate MayEdit(s: Schema, id: string) {
    !IsApplying(s, id) && (id in s.changes ==> IsActive(s.changes[id]))
  }

  lemma StoredKeeps(codec: Codec, s: Schema, id: string, change: Change, ops: seq<Operation>, status: ChangeStatus)
    requires SchemaInv(codec, s) && MayEdit(s, id) && OperationsOk(codec, ops) && status != Applied
    requires forall other | IsPending(s, change.collection, other) :: other == id
    ensures SchemaInv(codec, StoreOperations(codec, s, id, change, ops, status).0)
  {
    hide SchemaInv, Replay, IsApplying, OperationsOk;
    if change.collection in s.collections && Replay(codec, s.collections[change.collection], ops).Ok? {
      var t := StoreOperations(codec, s, id, change, ops, status).0;
      RowWritten(codec, s, t, id, change.(ops := ops, version := change.version + 1, status := status));
    }
  }

  lemma PendingIsOnly(codec: Codec, s: Schema, collection: string)
    requires SchemaInv(codec, s)
    ensures forall id | IsPending(s, collection, id) :: PendingOf(s, collection) == Some(id)
    ensures forall id | PendingOf(s, collection) == Some(id) :: ChangeOk(codec, s, id)
  {
  }

  lemma SaveKeeps(codec: Codec, s: Schema, collection: string, input: OperationInput, changeId: string, opId: string, newId: string)
    requires SchemaInv(codec, s)
    ensures SchemaInv(codec, Save(codec, s, collection, input, changeId, opId, newId).0)
  {
    hide SchemaInv, Replay, IsApplying, Normalize, OperationOk, StoreOperations, ValidId;
    var pending := PendingOf(s, collection);
    PendingIsOnly(codec, s, collection);
    var id := pending.GetOr(changeId);
    var change := if pending.Some? then s.changes[id] else Change(collection, 0, Ready, []);
    var op := Normalize(codec, s.collections.Keys, input, opId, None, newId);
    if op.Ok? && !IsApplying(s, id) && (pending.None? ==> changeId !in s.changes) && ValidId(newId, TargetPrefix(input.kind)) {
      OperationAppended(codec, change.ops, op.value);
      StoredKeeps(codec, s, id, change, change.ops + [op.value], Ready);
    }
  }

  lemma UpdateKeeps(codec: Codec, s: Schema, collection: string, opId: string, input: OperationInput)
    requires SchemaInv(codec, s)
    ensures SchemaInv(codec, UpdateOperation(codec, s, collection, opId, input).0)
  {
    hide SchemaInv, Replay, IsApplying, Normalize, OperationOk, StoreOperations, ValidId;
    var pending := PendingOf(s, collection);
    PendingIsOnly(codec, s, collection);
    if pending.Some? && !IsApplying(s, pending.value) {
      var change := s.changes[pending.value];
      match FirstOperation(change.ops, opId)
      case None =>
      case Some(i) =>
        var op := Normalize(codec, s.collections.Keys, input, opId, Some(change.ops[i]), "");
        if op.Ok? {
          UpdatedIsNormal(codec, s.collections.Keys, input, opId, change.ops[i]);
          StoredKeeps(codec, s, pending.value, change, change.ops[i := op.value], Ready);
        }
    }
  }

  lemma RemoveKeeps(codec: Codec, s: Schema, collection: string, opId: string)
    requires SchemaInv(codec, s)
    ensures SchemaInv(codec, RemoveOperation(codec, s, collection, opId).0)
  {
    hide SchemaInv, Replay, IsApplying, OperationOk, StoreOperations;
    var pending := PendingOf(s, collection);
    PendingIsOnly(codec, s, collection);
    if pending.Some? && !IsApplying(s, pending.value) {
      var change := s.changes[pending.value];
      match FirstOperation(change.ops, opId)
      case None =>
      case Some(i) =>
        var ops := change.ops[..i] + change.ops[i + 1..];
        StoredKeeps(codec, s, pending.value, change, ops, if ops == [] then Discarded else Ready);
    }
  }

  lemma DiscardKeeps(codec: Codec, s: Schema, collection: string, expected: nat)
    requires SchemaInv(codec, s)
    ensures SchemaInv(codec, Discard(s, collection, expected).0)
  {
    hide SchemaInv, Replay, IsApplying, OperationOk;
    var pending := PendingOf(s, collection);
    PendingIsOnly(codec, s, collection);
    if pending.Some? && !IsApplying(s, pending.value) && s.changes[pending.value].version == expected {
      var change := s.changes[pending.value];
      RowWritten(codec, s, Discard(s, collection, expected).0, pending.value, change.(status := Discarded, version := change.version + 1));
    }
  }

  lemma OperationAppended(codec: Codec, ops: seq<Operation>, op: Operation)
    requires OperationsOk(codec, ops) && OperationOk(codec, op)
    ensures OperationsOk(codec, ops + [op])
  {
  }

  // Updating keeps the target, so no new ID is needed.
  lemma UpdatedIsNormal(codec: Codec, collections: set<string>, input: OperationInput, opId: string, prior: Operation)
    requires OperationOk(codec, prior) && Normalize(codec, collections, input, opId, Some(prior), "").Ok?
    ensures OperationOk(codec, Normalize(codec, collections, input, opId, Some(prior), "").value)
  {
    hide ValidId, FieldOk, IndexOk;
  }

  /* ----- applying ----- */

  // The change replays, and what blocks it is found in the records and their targets.
  ghost predicate Evaluates(codec: Codec, s: Schema, c: Change, records: seq<Record>) {
    var evaluates :=
      && c.collection in s.collections
      && var preview := Evaluate(codec, s.collections.Keys, s.collections[c.collection], c.ops, records);
      && Replay(codec, s.collections[c.collection], c.ops).Ok?
      && InvalidModel !in preview.failures
      && (preview.risk == RiskBlocked <==> preview.failures != []);
    evaluates
  }

  lemma EvaluatedReplays(codec: Codec, s: Schema, id: string, records: seq<Record>)
    requires SchemaInv(codec, s)
    ensures forall c | id in s.changes && s.changes[id] == c && IsActive(c) :: Evaluates(codec, s, c, records)
  {
    hide ValidModel, Failures, NeedsReview, CollectionOk, AppliesOk;
    if id in s.changes && IsActive(s.changes[id]) {
      assert ChangeOk(codec, s, id);
      var current := s.collections[s.changes[id].collection];
      var target := Replay(codec, current, s.changes[id].ops).value;
      NoInvalidModel(codec, s.collections.Keys, current, target, records);
    }
  }

  lemma NoInvalidModel(codec: Codec, collections: set<string>, current: Collection, target: Collection, records: seq<Record>)
    ensures InvalidModel !in Failures(codec, collections, current, target, records)
  {
    hide HasConflict;
    NoInvalidField(codec, collections, current, target.fields, records);
  }

  lemma {:induction false} NoInvalidField(codec: Codec, collections: set<string>, current: Collection, fields: seq<Field>, records: seq<Record>)
    ensures InvalidModel !in FieldFailures(codec, collections, current, fields, records)
  {
    hide AllRead;
    if fields != [] { NoInvalidField(codec, collections, current, fields[1..], records); }
  }

  lemma BeginKeeps(codec: Codec, s: Schema, collection: string, expected: nat, confirmed: bool, attempt: string, records: seq<Record>)
    requires SchemaInv(codec, s)
    ensures SchemaInv(codec, Begin(codec, s, collection, expected, confirmed, attempt, records).0)
  {
    hide Evaluate, ChangeOk, CollectionOk, RiskKnown, NamesOk, Replay;
    var t := Begin(codec, s, collection, expected, confirmed, attempt, records).0;
    if t != s {
      var id := PendingOf(s, collection).value;
      EvaluatedReplays(codec, s, id, records);
      if !t.live[attempt].failing {
        RiskIsKnown(codec, s.collections.Keys, s.collections[collection], s.changes[id].ops, records, t.live[attempt]);
      }
      assert LiveOk(codec, t, attempt);
      AttemptStarted(codec, s, t, id, attempt, t.live[attempt]);
    }
  }

  // The first transaction refused a risky change that was not confirmed.
  lemma RiskIsKnown(codec: Codec, collections: set<string>, current: Collection, ops: seq<Operation>, records: seq<Record>, l: Live)
    ensures var preview := Evaluate(codec, collections, current, ops, records);
            && Replay(codec, current, ops).Ok? && l.model == current && l.ops == ops
            && preview.risk != RiskBlocked && (preview.risk == Review ==> l.confirmed)
            ==> RiskKnown(codec, l)
  {
    hide ValidModel, Failures, NeedsReview;
  }

  // An apply begins that sees an active change, of which none is in progress.
  ghost predicate Starts(s: Schema, t: Schema, id: string, attempt: string, l: Live) {
    && id in s.changes && IsActive(s.changes[id]) && !IsApplying(s, id) && attempt !in s.attempts
    && t == s.(attempts := s.attempts[attempt := Attempt(id, InProgress)], live := s.live[attempt := l])
  }

  lemma AttemptStarted(codec: Codec, s: Schema, t: Schema, id: string, attempt: string, l: Live)
    requires SchemaInv(codec, s) && Starts(s, t, id, attempt, l) && LiveOk(codec, t, attempt)
    ensures SchemaInv(codec, t)
  {
    hide TablesOk, AttemptsOk, MigrationsOk, LiveOk, RiskKnown;
    MarkingKeepsTables(codec, s, t);
    StartedRows(s, t, id, attempt, l);
    forall a | a in t.live
      ensures LiveOk(codec, t, a)
    {
      if a != attempt { StartedLive(codec, s, t, id, attempt, l, a); }
    }
  }

  lemma StartedRows(s: Schema, t: Schema, id: string, attempt: string, l: Live)
    requires AttemptsOk(s) && MigrationsOk(s) && Starts(s, t, id, attempt, l)
    ensures AttemptsOk(t) && MigrationsOk(t)
  {
  }

  lemma StartedLive(codec: Codec, s: Schema, t: Schema, id: string, attempt: string, l: Live, a: string)
    requires LiveOk(codec, s, a) && a != attempt && Starts(s, t, id, attempt, l)
    ensures LiveOk(codec, t, a)
  {
    hide RiskKnown;
  }

  ghost predicate MayCommit(s: Schema, attempt: string) {
    attempt in s.live && !s.live[attempt].failing
  }

  // Between the two transactions nothing moves: the second one meets the very change and model the first one evaluated,
  // and fails only for what the records, the relation targets or the writing itself decide.
  lemma CommitDecidedByData(codec: Codec, s: Schema, attempt: string, records: seq<Record>, stored: bool)
    requires SchemaInv(codec, s) && MayCommit(s, attempt)
    ensures var l := s.live[attempt];
            && l.collection in s.collections && s.collections[l.collection] == l.model && PendingOf(s, l.collection) == Some(l.change)
            && s.changes[l.change].ops == l.ops && s.changes[l.change].version == l.expected
            && IsPending(s, l.collection, l.change) && attempt in s.attempts && s.attempts[attempt] == Attempt(l.change, InProgress)
            && Replay(codec, l.model, l.ops).Ok?
            && (CommitProblem(codec, s, l, records, stored).None? <==>
                  stored && Failures(codec, s.collections.Keys, l.model, Replay(codec, l.model, l.ops).value, records) == [])
            && CommitProblem(codec, s, l, records, stored) != Some(Conflict)
            && CommitProblem(codec, s, l, records, stored) != Some(ConfirmationRequired)
  {
    hide ValidModel, Failures, NeedsReview, CollectionOk, TablesOk;
    assert LiveOk(codec, s, attempt);
    var l := s.live[attempt];
    PendingIsOnly(codec, s, l.collection);
    assert s.attempts[attempt].status == InProgress;
    assert IsPending(s, l.collection, l.change);
    EvaluatedReplays(codec, s, l.change, records);
  }

  lemma VersionCounts(first: Collection, history: seq<Migration>)
    requires HistoryOk(first, history)
    ensures ModelAfter(first, history).version == 1 + |history|
  {
    hide Rebuilds, KeepsLocked;
  }

  lemma OfAppend(migrations: seq<Migration>, m: Migration, collection: string)
    ensures Of(migrations + [m], collection) == Of(migrations, collection) + if m.collection == collection then [m] else []
  {
    assert (migrations + [m])[..|migrations|] == migrations;
  }

  // A new version continues the history faithfully.
  lemma HistoryGrows(codec: Codec, first: Collection, history: seq<Migration>, ops: seq<Operation>, m: Migration)
    requires HistoryOk(first, history)
    ensures IsNextVersion(codec, ModelAfter(first, history), ops, m) ==>
            HistoryOk(first, history + [m]) && ModelAfter(first, history + [m]) == m.model && ValidModel(codec, m.model)
  {
    hide FieldsOk, IndexesOk, HasIdField, HasEmail, OperationsOk, ApplyAll, SystemFieldsOf;
    var current := ModelAfter(first, history);
    if IsNextVersion(codec, current, ops, m) {
      ReplayKeepsLocked(codec, current, ops);
      assert m.diff == Diff(current, Replay(codec, current, ops).value, ops);
      forall onIndex, id
        ensures Patch(m.diff, onIndex, id, Lookup(current, onIndex, id)) == Lookup(m.model, onIndex, id)
      {
        DiffIsAPatch(codec, current, ops, onIndex, id);
      }
      assert ValidModel(codec, m.model) && KeepsLocked(current, m.model) && Rebuilds(current, m.diff, m.model);
      hide Replay, ValidModel, Rebuilds, KeepsLocked, Diff;
      VersionCounts(first, history);
      assert (history + [m])[..|history|] == history;
    }
  }

  // A migration that replays valid operations on a valid model.
  ghost predicate IsNextVersion(codec: Codec, current: Collection, ops: seq<Operation>, m: Migration) {
    && ValidModel(codec, current) && OperationsOk(codec, ops) && Replay(codec, current, ops).Ok?
    && m.model == Replay(codec, current, ops).value.(version := current.version + 1)
    && m.version == m.model.version && m.diff == Diff(current, m.model, ops)
  }

  // What committing does, seen from the change.
  ghost predicate Committed(codec: Codec, s: Schema, t: Schema, attempt: string, m: Migration) {
    var committed :=
      && attempt in s.live && m.change == s.live[attempt].change && m.collection == s.live[attempt].collection && m.attempt == attempt
      && m.change in s.changes && m.collection in s.collections
      && var c := s.changes[m.change]; var current := s.collections[m.collection];
         && c.collection == m.collection && IsActive(c)
         && Replay(codec, current, c.ops).Ok?
         && m.model == Replay(codec, current, c.ops).value.(version := current.version + 1)
         && m.version == m.model.version && m.diff == Diff(current, m.model, c.ops)
         && t.collections == s.collections[m.collection := m.model] && t.initial == s.initial && t.migrations == s.migrations + [m]
         && t.changes == s.changes[m.change := c.(status := Applied, version := c.version + 1)]
         && attempt in s.attempts && t.attempts == s.attempts[attempt := s.attempts[attempt].(status := Succeeded)]
         && t.live == s.live - {attempt};
    committed
  }

  // A commit is that, or nothing but the mark of failure.
  ghost predicate CommitsOrMarks(codec: Codec, s: Schema, attempt: string, records: seq<Record>, stored: bool) {
    var t := Commit(codec, s, attempt, records, stored);
    var outcome :=
      && attempt in s.live
      && if CommitProblem(codec, s, s.live[attempt], records, stored).Some? then Marks(s, t, attempt)
         else |t.migrations| > |s.migrations| && Committed(codec, s, t, attempt, t.migrations[|s.migrations|]);
    outcome
  }

  lemma CommitIs(codec: Codec, s: Schema, attempt: string, records: seq<Record>, stored: bool)
    requires SchemaInv(codec, s) && MayCommit(s, attempt)
    ensures CommitsOrMarks(codec, s, attempt, records, stored)
  {
    hide SchemaInv, PendingOf, IsActive, Replay, Diff, Failures, CommitProblem;
    CommitDecidedByData(codec, s, attempt, records, stored);
  }

  lemma CommittedCollections(codec: Codec, s: Schema, t: Schema, attempt: string, m: Migration)
    requires TablesOk(codec, s) && Committed(codec, s, t, attempt, m)
    ensures forall k | k in t.collections :: CollectionOk(codec, t, k)
    ensures NamesOk(t.collections)
  {
    hide Replay, ValidModel, HistoryOk, Diff, ModelAfter, Of, Lower;
    var ops := s.changes[m.change].ops;
    assert ChangeOk(codec, s, m.change) && CollectionOk(codec, s, m.collection);
    HistoryGrows(codec, s.initial[m.collection], Of(s.migrations, m.collection), ops, m);
    KeepsName(codec, s.collections[m.collection], ops);
    forall k | k in t.collections
      ensures CollectionOk(codec, t, k)
    {
      assert CollectionOk(codec, s, k);
      OfAppend(s.migrations, m, k);
      assert Of(s.migrations, k) + [] == Of(s.migrations, k);
    }
  }

  lemma KeepsName(codec: Codec, c: Collection, ops: seq<Operation>)
    requires ValidModel(codec, c) && OperationsOk(codec, ops) && Replay(codec, c, ops).Ok?
    ensures (Replay(codec, c, ops).value.name, Replay(codec, c, ops).value.id) == (c.name, c.id)
  {
    hide ValidModel, OperationsOk, ApplyAll;
    ReplayKeepsLocked(codec, c, ops);
  }

  lemma CommittedChanges(codec: Codec, s: Schema, t: Schema, attempt: string, m: Migration)
    requires TablesOk(codec, s) && Committed(codec, s, t, attempt, m)
    ensures forall k | k in t.changes :: ChangeOk(codec, t, k)
    ensures OneActive(t)
  {
    hide Replay, ValidModel, HistoryOk, Diff, Of, OperationsOk, NamesOk, CollectionOk;
    assert forall k, collection :: IsPending(t, collection, k) ==> IsPending(s, collection, k);
    assert IsPending(s, m.collection, m.change);
    assert ChangeOk(codec, s, m.change);
    assert t.migrations[|s.migrations|] == m && m in t.migrations;
    forall k | k in t.changes
      ensures ChangeOk(codec, t, k)
    {
      assert ChangeOk(codec, s, k);
      assert IsMigrated(t, k) <==> k == m.change || IsMigrated(s, k);
      if k != m.change && IsActive(s.changes[k]) { assert IsPending(s, s.changes[k].collection, k); }
    }
  }

  lemma CommittedApplies(codec: Codec, s: Schema, t: Schema, attempt: string, m: Migration)
    requires SchemaInv(codec, s) && Committed(codec, s, t, attempt, m)
    ensures AppliesOk(codec, t)
  {
    hide Replay, Diff, RiskKnown, ChangeOk, CollectionOk, NamesOk;
    assert LiveOk(codec, s, attempt);
    assert s.attempts[attempt] == Attempt(m.change, InProgress);
    forall a | a in t.live
      ensures LiveOk(codec, t, a)
    {
      assert LiveOk(codec, s, a);
      var l := s.live[a];
      assert l.change != m.change;
      assert IsPending(s, l.collection, l.change) && IsPending(s, m.collection, m.change);
    }
    assert MigrationsOk(t) by { CommittedMigrations(codec, s, t, attempt, m); }
  }

  lemma CommittedMigrations(codec: Codec, s: Schema, t: Schema, attempt: string, m: Migration)
    requires AppliesOk(codec, s) && Committed(codec, s, t, attempt, m) && LiveOk(codec, s, attempt)
    ensures MigrationsOk(t)
  {
    hide Replay, Diff, RiskKnown;
    forall x | x in s.migrations ensures x.change != m.change { assert s.changes[x.change].status == Applied; }
  }

  lemma CommitKeeps(codec: Codec, s: Schema, attempt: string, records: seq<Record>, stored: bool)
    requires SchemaInv(codec, s)
    ensures SchemaInv(codec, Commit(codec, s, attempt, records, stored))
  {
    hide TablesOk, AppliesOk, Committed, CommitProblem, ChangeOk, CollectionOk, OneActive, NamesOk;
    var t := Commit(codec, s, attempt, records, stored);
    if attempt in s.live && !s.live[attempt].failing {
      CommitIs(codec, s, attempt, records, stored);
      if CommitProblem(codec, s, s.live[attempt], records, stored).Some? {
        FailureMarked(codec, s, t, attempt);
      } else {
        var m := t.migrations[|s.migrations|];
        CommittedKeeps(codec, s, t, attempt, m);
      }
    }
  }

  lemma CommittedKeeps(codec: Codec, s: Schema, t: Schema, attempt: string, m: Migration)
    requires SchemaInv(codec, s) && Committed(codec, s, t, attempt, m)
    ensures SchemaInv(codec, t)
  {
    hide AppliesOk, Committed, ChangeOk, CollectionOk, OneActive, NamesOk;
    CommittedCollections(codec, s, t, attempt, m);
    CommittedChanges(codec, s, t, attempt, m);
    CommittedApplies(codec, s, t, attempt, m);
  }

  ghost predicate Marks(s: Schema, t: Schema, attempt: string) {
    attempt in s.live && t == s.(live := s.live[attempt := s.live[attempt].(failing := true)])
  }

  lemma FailureMarked(codec: Codec, s: Schema, t: Schema, attempt: string)
    requires SchemaInv(codec, s) && Marks(s, t, attempt)
    ensures SchemaInv(codec, t)
  {
    hide TablesOk, Replay, RiskKnown;
    MarkingKeepsTables(codec, s, t);
    forall a | a in t.live ensures LiveOk(codec, t, a) { assert LiveOk(codec, s, a); }
  }

  /* ----- failing, dying and recovering ----- */

  // Changes are marked failed; nothing else about them moves.
  ghost predicate OnlyMarked(changes: map<string, Change>, later: map<string, Change>) {
    && later.Keys == changes.Keys
    && forall id | id in changes :: later[id] == changes[id] || (IsActive(changes[id]) && later[id] == changes[id].(status := Failed))
  }

  lemma MarkingKeepsTables(codec: Codec, s: Schema, t: Schema)
    requires TablesOk(codec, s) && OnlyMarked(s.changes, t.changes)
    requires (t.collections, t.initial, t.migrations) == (s.collections, s.initial, s.migrations)
    ensures TablesOk(codec, t)
  {
    hide ValidModel, Replay, OperationsOk, HistoryOk, Of, NamesOk;
    forall k | k in t.collections ensures CollectionOk(codec, t, k) { assert CollectionOk(codec, s, k); }
    forall k | k in t.changes
      ensures ChangeOk(codec, t, k)
    {
      assert ChangeOk(codec, s, k);
      assert IsMigrated(t, k) <==> IsMigrated(s, k);
    }
    assert forall k, collection :: IsPending(t, collection, k) <==> IsPending(s, collection, k);
  }

  lemma FailureKeeps(codec: Codec, s: Schema, attempt: string, recorded: bool)
    requires SchemaInv(codec, s)
    ensures SchemaInv(codec, RecordFailure(s, attempt, recorded))
  {
    hide TablesOk, AppliesOk;
    var t := RecordFailure(s, attempt, recorded);
    MarkingKeepsTables(codec, s, t);
    if IsFailing(s, attempt) { FailureKeepsApplies(codec, s, attempt, recorded); }
  }

  ghost predicate IsFailing(s: Schema, attempt: string) {
    attempt in s.live && s.live[attempt].failing
  }

  lemma FailureKeepsApplies(codec: Codec, s: Schema, attempt: string, recorded: bool)
    requires AppliesOk(codec, s) && IsFailing(s, attempt)
    ensures AppliesOk(codec, RecordFailure(s, attempt, recorded))
  {
    hide AttemptsOk, MigrationsOk, LiveOk;
    var t := RecordFailure(s, attempt, recorded);
    FailureRows(codec, s, attempt, recorded);
    hide RecordFailure;
    forall a | a in t.live
      ensures LiveOk(codec, t, a)
    {
      FailureLive(codec, s, attempt, recorded, a);
    }
  }

  lemma FailureRows(codec: Codec, s: Schema, attempt: string, recorded: bool)
    requires AttemptsOk(s) && MigrationsOk(s) && IsFailing(s, attempt) && LiveOk(codec, s, attempt)
    ensures var t := RecordFailure(s, attempt, recorded);
            AttemptsOk(t) && MigrationsOk(t) && t.live == s.live - {attempt}
  {
    hide RiskKnown;
    var id := s.live[attempt].change;
    assert forall m | m in s.migrations :: m.change != id;
  }

  lemma FailureLive(codec: Codec, s: Schema, attempt: string, recorded: bool, a: string)
    requires AttemptsOk(s) && IsFailing(s, attempt) && LiveOk(codec, s, attempt) && a != attempt && LiveOk(codec, s, a)
    ensures LiveOk(codec, RecordFailure(s, attempt, recorded), a)
  {
    hide RiskKnown;
    assert s.live[a].change != s.live[attempt].change;
  }

  lemma CrashKeeps(codec: Codec, s: Schema)
    requires SchemaInv(codec, s)
    ensures SchemaInv(codec, Crash(s))
  {
    hide TablesOk;
    MarkingKeepsTables(codec, s, Crash(s));
  }

  lemma RecoverKeeps(codec: Codec, s: Schema)
    requires SchemaInv(codec, s)
    ensures SchemaInv(codec, Recover(s))
  {
    hide TablesOk, AppliesOk;
    MarkingKeepsTables(codec, s, Recover(s));
    if s.live == map[] { RecoverKeepsApplies(codec, s); }
  }

  lemma RecoverKeepsApplies(codec: Codec, s: Schema)
    requires AppliesOk(codec, s) && s.live == map[]
    ensures AppliesOk(codec, Recover(s))
  {
    hide IsApplying;
  }

  // After recovery no attempt is in progress, so every pending change can be edited, applied and discarded again;
  // models, operations, versions and history are as before.
  lemma RecoveryFrees(codec: Codec, s: Schema)
    requires SchemaInv(codec, s)
    ensures var t := Recover(Crash(s));
            && SchemaInv(codec, t)
            && (forall id :: !IsApplying(t, id))
            && (t.collections, t.migrations) == (s.collections, s.migrations)
            && OnlyMarked(s.changes, t.changes)
            && Recover(Crash(t)) == t
  {
    hide SchemaInv;
    CrashKeeps(codec, s);
    RecoverKeeps(codec, Crash(s));
    var t := Recover(Crash(s));
    NothingToRecover(Crash(s));
  }

  lemma NothingToRecover(s: Schema)
    requires s.live == map[]
    ensures var t := Recover(s);
            && (forall id :: !IsApplying(t, id)) && OnlyMarked(s.changes, t.changes)
            && Recover(t).attempts == t.attempts && Recover(t).changes == t.changes
  {
    var t := Recover(s);
    assert forall a | a in t.attempts :: t.attempts[a].status != InProgress;
  }

  /* ----- creating ----- */

  lemma BuiltModel(codec: Codec, input: NewCollection, id: string, ids: seq<string>, emailId: string)
    requires Build(codec, input, id, ids, emailId).Ok?
    ensures var c := Build(codec, input, id, ids, emailId).value;
            ValidModel(codec, c) && (c.id, c.name, c.kind, c.version) == (id, input.name, input.kind, 1)
  {
    hide ValidModel, AddFields, AddAuthIdentifier, ValidInput;
  }

  lemma CreateKeeps(codec: Codec, s: Schema, input: NewCollection, id: string, ids: seq<string>, emailId: string)
    requires SchemaInv(codec, s)
    ensures SchemaInv(codec, CreateCollection(codec, s, input, id, ids, emailId).0)
  {
    hide ValidModel, Build, TablesOk, AppliesOk, Lower;
    var t := CreateCollection(codec, s, input, id, ids, emailId).0;
    if t != s {
      BuiltModel(codec, input, id, ids, emailId);
      CreatedTables(codec, s, t, id);
      CreatedApplies(codec, s, t, id);
    }
  }

  // A new row beside the old ones.
  ghost predicate Created(codec: Codec, s: Schema, t: Schema, id: string) {
    && id !in s.collections && id in t.collections && id in t.initial && t.initial[id] == t.collections[id]
    && ValidModel(codec, t.collections[id]) && t.collections[id].id == id && t.collections[id].version == 1
    && (forall k | k in s.collections :: Lower(s.collections[k].name) != Lower(t.collections[id].name))
    && t == s.(collections := s.collections[id := t.collections[id]], initial := s.initial[id := t.collections[id]])
  }

  lemma CreatedTables(codec: Codec, s: Schema, t: Schema, id: string)
    requires SchemaInv(codec, s) && Created(codec, s, t, id)
    ensures TablesOk(codec, t)
  {
    hide ValidModel, Replay, OperationsOk, HistoryOk, AppliesOk, Lower, Of;
    NoHistory(s, codec, id, t.collections[id]);
    forall k | k in t.collections ensures CollectionOk(codec, t, k) { if k != id { assert CollectionOk(codec, s, k); } }
    forall k | k in t.changes
      ensures ChangeOk(codec, t, k)
    {
      assert ChangeOk(codec, s, k);
      assert IsMigrated(t, k) <==> IsMigrated(s, k);
    }
    assert forall k, collection :: IsPending(t, collection, k) <==> IsPending(s, collection, k);
  }

  lemma CreatedApplies(codec: Codec, s: Schema, t: Schema, id: string)
    requires AppliesOk(codec, s) && Created(codec, s, t, id)
    ensures AppliesOk(codec, t)
  {
    hide RiskKnown, Lower, ValidModel;
    forall a | a in t.live ensures LiveOk(codec, t, a) { assert LiveOk(codec, s, a); }
  }

  lemma {:induction false} NoneOf(migrations: seq<Migration>, collection: string)
    requires forall m | m in migrations :: m.collection != collection
    ensures Of(migrations, collection) == []
    decreases |migrations|
  {
    if migrations != [] { NoneOf(migrations[..|migrations| - 1], collection); }
  }

  lemma NoHistory(s: Schema, codec: Codec, id: string, c: Collection)
    requires SchemaInv(codec, s) && id !in s.collections && c.version == 1
    ensures Of(s.migrations, id) == [] && HistoryOk(c, []) && ModelAfter(c, []) == c
  {
    hide TablesOk;
    NoneOf(s.migrations, id);
  }

  /* ----- every step, every run ----- */

  lemma StepKeeps(codec: Codec, s: Schema, e: Event)
    requires SchemaInv(codec, s)
    ensures SchemaInv(codec, Step(codec, s, e))
  {
    hide SchemaInv, Save, UpdateOperation, RemoveOperation, Discard, Commit, Begin, RecordFailure, Recover, CreateCollection;
    match e
    case CreateEvent(input, id, ids, emailId) => CreateKeeps(codec, s, input, id, ids, emailId);
    case BeginEvent(collection, expected, confirmed, attempt, records) => BeginKeeps(codec, s, collection, expected, confirmed, attempt, records);
    case CommitEvent(attempt, records, stored) => CommitKeeps(codec, s, attempt, records, stored);
    case FailureEvent(attempt, recorded) => FailureKeeps(codec, s, attempt, recorded);
    case CrashEvent => CrashKeeps(codec, s);
    case RecoverEvent => RecoverKeeps(codec, s);
    case SaveEvent(collection, input, changeId, opId, newId) => SaveKeeps(codec, s, collection, input, changeId, opId, newId);
    case UpdateEvent(collection, opId, input) => UpdateKeeps(codec, s, collection, opId, input);
    case RemoveEvent(collection, opId) => RemoveKeeps(codec, s, collection, opId);
    case DiscardEvent(collection, expected) => DiscardKeeps(codec, s, collection, expected);
  }

  lemma {:induction false} RunKeeps(codec: Codec, s: Schema, events: seq<Event>)
    requires SchemaInv(codec, s)
    ensures SchemaInv(codec, Run(codec, s, events))
    decreases |events|
  {
    hide SchemaInv, Step;
    if events != [] {
      StepKeeps(codec, s, events[0]);
      RunKeeps(codec, Step(codec, s, events[0]), events[1..]);
    }
  }

  lemma EmptyIsSound(codec: Codec)
    ensures SchemaInv(codec, EMPTY)
  {
  }
}
