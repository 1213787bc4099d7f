/**
 The schema service over its tables: each method is one transaction, and its contract the step of the lifecycle it takes.
 */
module SchemaService {
  import opened Prelude
  import opened SchemaModel
  import opened SchemaOperations
  import opened SchemaValues
  import opened SchemaChanges
  import opened SchemaProofs

  /* ----- building a collection ----- */

  lemma AddOneField(codec: Codec, fields: seq<Field>, seen: set<string>, given: seq<Field>, ids: seq<string>, i: nat)
    requires i < |given| && i <= |ids|
    ensures AddFields(codec, fields, seen, given[i..], ids[i..]) ==
            if i == |ids| || given[i].id != "" || given[i].system then Err(InvalidArgument)
            else
              var field := given[i].(id := ids[i]);
              if !FieldOk(codec, field) || Lower(field.name) in seen then Err(InvalidArgument)
              else AddFields(codec, fields + [field], seen + {Lower(field.name)}, given[i + 1..], ids[i + 1..])
  {
    hide FieldOk, Lower;
    assert given[i..] != [] && given[i..][0] == given[i] && given[i..][1..] == given[i + 1..];
    if i < |ids| {
      assert ids[i..] != [] && ids[i..][0] == ids[i] && ids[i..][1..] == ids[i + 1..];
    } else {
      assert ids[i..] == [];
    }
  }

  // The system fields that are kept, then the given fields under their new IDs.
  method CollectFields(codec: Codec, input: NewCollection, ids: seq<string>) returns (r: Result<seq<Field>, Error>)
    ensures r == AddFields(codec, KeptSystemFields(SYSTEM_FIELDS, input.omitted), SYSTEM_NAMES, input.fields, ids)
  {
    hide FieldOk, Lower;
    var fields := KeptSystemFields(SYSTEM_FIELDS, input.omitted);
    var seen := SYSTEM_NAMES;
    assert input.fields[0..] == input.fields && ids[0..] == ids;
    for i := 0 to |input.fields|
      invariant i <= |ids|
      invariant AddFields(codec, fields, seen, input.fields[i..], ids[i..])
                == AddFields(codec, KeptSystemFields(SYSTEM_FIELDS, input.omitted), SYSTEM_NAMES, input.fields, ids)
    {
      AddOneField(codec, fields, seen, input.fields, ids, i);
      var field := input.fields[i];
      if i == |ids| || field.id != "" || field.system {
        return Err(InvalidArgument);
      }
      field := field.(id := ids[i]);
      var key := Lower(field.name);
      if !FieldOk(codec, field) || key in seen {
        return Err(InvalidArgument);
      }
      fields, seen := fields + [field], seen + {key};
    }
    r := Result.Ok(fields);
  }

  // An Auth collection has an email: the given one, made required and unique, or a new one.
  method AddIdentifier(fields: seq<Field>, id: string) returns (r: Result<seq<Field>, Error>)
    ensures r == AddAuthIdentifier(fields, id)
  {
    for i := 0 to |fields|
      invariant FoldsToEmail(fields) == match FoldsToEmail(fields[i..]) case None => None case Some(j) => Some(i + j)
    {
      assert fields[i..][0] == fields[i] && fields[i..][1..] == fields[i + 1..];
      if Lower(fields[i].name) == EMAIL {
        if fields[i].kind != Text {
          return Err(InvalidArgument);
        }
        return Result.Ok(fields[i := fields[i].(required := true, unique := true)]);
      }
    }
    r := Result.Ok(fields + [Field(id, EMAIL, Text, true, true, "", Absent, Absent, None, false)]);
  }

  method BuildCollection(codec: Codec, input: NewCollection, id: string, ids: seq<string>, emailId: string) returns (r: Result<Collection, Error>)
    ensures r == Build(codec, input, id, ids, emailId)
  {
    hide ValidModel, ValidInput, AddFields, AddAuthIdentifier;
    if !ValidInput(input) {
      return Err(InvalidArgument);
    }
    var fields := CollectFields(codec, input, ids);
    if fields.Ok? && input.kind == Auth {
      fields := AddIdentifier(fields.value, emailId);
    }
    if fields.Err? {
      return Err(fields.error);
    }
    var c := Collection(id, input.name, input.kind, fields.value, [], 1);
    var valid := ValidateModel(codec, c);
    r := if valid then Result.Ok(c) else Err(InvalidArgument);
  }

  // The loop that looks for an operation by its ID.
  method FindOperation(ops: seq<Operation>, id: string) returns (r: Option<nat>)
    ensures r == FirstOperation(ops, id)
  {
    for i := 0 to |ops|
      invariant FirstOperation(ops, id) == match FirstOperation(ops[i..], id) case None => None case Some(j) => Some(i + j)
    {
      assert ops[i..][0] == ops[i] && ops[i..][1..] == ops[i + 1..];
      if ops[i].id == id {
        return Some(i);
      }
    }
    r := None;
  }

  class SchemaService {
    const codec: Codec
    ghost var initial: map<string, Collection>
    var collections: map<string, Collection>
    var changes: map<string, Change>
    var attempts: map<string, Attempt>
    var migrations: seq<Migration>
    var live: map<string, Live>

    ghost function View(): Schema
      reads this
    {
      Schema(collections, initial, changes, attempts, migrations, live)
    }

    ghost predicate Valid()
      reads this
    {
      SchemaInv(codec, View())
    }

    constructor (codec: Codec)
      ensures this.codec == codec && View() == EMPTY && Valid()
    {
      this.codec := codec;
      initial, collections, changes, attempts, migrations, live := map[], map[], map[], map[], [], map[];
      new;
      EmptyIsSound(codec);
    }

    // The active change of the collection, if there is one.
    method LoadPending(collection: string) returns (r: Option<string>)
      requires Valid()
      ensures r == PendingOf(View(), collection)
    {
      PendingIsOnly(codec, View(), collection);
      if exists id | id in changes :: changes[id].collection == collection && IsActive(changes[id]) {
        var id :| id in changes && changes[id].collection == collection && IsActive(changes[id]);
        assert IsPending(View(), collection, id);
        r := Some(id);
      } else {
        assert forall id :: !IsPending(View(), collection, id);
        r := None;
      }
    }

    method InProgress(change: string) returns (r: bool)
      ensures r == IsApplying(View(), change)
    {
      r := exists a | a in attempts :: attempts[a] == Attempt(change, SchemaChanges.InProgress);
    }

    method Persist(id: string, change: Change, ops: seq<Operation>, status: ChangeStatus) returns (r: Result<Change, Error>)
      modifies this`changes
      ensures (View(), r) == StoreOperations(codec, old(View()), id, change, ops, status)
    {
      hide Replay;
      if change.collection !in collections {
        return Err(NotFound);
      }
      var target := ApplyOperations(codec, collections[change.collection], ops);
      if target.Err? {
        return Err(target.error);
      }
      var stored := Change(change.collection, change.version + 1, status, ops);
      changes := changes[id := stored];
      r := Result.Ok(stored);
    }

    method SaveOperation(collection: string, input: OperationInput, changeId: string, opId: string, newId: string)
      returns (r: Result<Change, Error>)
      requires Valid() && (changeId !in changes) && ValidId(newId, TargetPrefix(input.kind))
      modifies this`changes
      ensures Valid() && (View(), r) == Save(codec, old(View()), collection, input, changeId, opId, newId)
    {
      hide SchemaInv, Normalize, StoreOperations, IsApplying, ValidId;
      SaveKeeps(codec, View(), collection, input, changeId, opId, newId);
      if collection !in collections {
        return Err(NotFound);
      }
      var pending := LoadPending(collection);
      var id := if pending.Some? then pending.value else changeId;
      var change := if pending.Some? then changes[id] else Change(collection, 0, Ready, []);
      var applying := InProgress(id);
      if applying {
        return Err(Conflict);
      }
      match Normalize(codec, collections.Keys, input, opId, None, newId) {
        case Err(e) => r := Err(e);
        case Ok(op) => r := Persist(id, change, change.ops + [op], Ready);
      }
    }

    method EditOperation(collection: string, opId: string, input: OperationInput) returns (r: Result<Change, Error>)
      requires Valid()
      modifies this`changes
      ensures Valid() && (View(), r) == UpdateOperation(codec, old(View()), collection, opId, input)
    {
      hide SchemaInv, Normalize, StoreOperations, IsApplying;
      UpdateKeeps(codec, View(), collection, opId, input);
      if collection !in collections {
        return Err(NotFound);
      }
      var pending := LoadPending(collection);
      if pending.None? {
        return Err(NotFound);
      }
      var change := changes[pending.value];
      var applying := InProgress(pending.value);
      if applying {
        return Err(Conflict);
      }
      var index := FindOperation(change.ops, opId);
      if index.None? {
        return Err(NotFound);
      }
      match Normalize(codec, collections.Keys, input, opId, Some(change.ops[index.value]), "") {
        case Err(e) => r := Err(e);
        case Ok(op) => r := Persist(pending.value, change, change.ops[index.value := op], Ready);
      }
    }

    method DropOperation(collection: string, opId: string) returns (r: Result<Change, Error>)
      requires Valid()
      modifies this`changes
      ensures Valid() && (View(), r) == RemoveOperation(codec, old(View()), collection, opId)
    {
      hide SchemaInv, StoreOperations, IsApplying;
      RemoveKeeps(codec, View(), collection, opId);
      var pending := LoadPending(collection);
      if pending.None? {
        return Err(NotFound);
      }
      var change := changes[pending.value];
      var applying := InProgress(pending.value);
      if applying {
        return Err(Conflict);
      }
      var index := FindOperation(change.ops, opId);
      if index.None? {
        return Err(NotFound);
      }
      var ops := change.ops[..index.value] + change.ops[index.value + 1..];
      r := Persist(pending.value, change, ops, if |ops| == 0 then Discarded else Ready);
    }

    method DiscardChange(collection: string, expected: nat) returns (r: Result<Change, Error>)
      requires Valid()
      modifies this`changes
      ensures Valid() && (View(), r) == Discard(old(View()), collection, expected)
    {
      hide SchemaInv, IsApplying;
      DiscardKeeps(codec, View(), collection, expected);
      var pending := LoadPending(collection);
      if pending.None? {
        return Err(NotFound);
      }
      var change := changes[pending.value];
      if change.version != expected {
        return Err(Conflict);
      }
      var applying := InProgress(pending.value);
      if applying {
        return Err(Conflict);
      }
      change := change.(status := Discarded, version := change.version + 1);
      changes := changes[pending.value := change];
      r := Result.Ok(change);
    }

    // Risk, diff and failed preconditions of a change against the records.
    method EvaluateChange(current: Collection, ops: seq<Operation>, records: seq<Record>) returns (preview: Preview)
      ensures preview == Evaluate(codec, collections.Keys, current, ops, records)
    {
      hide Replay, Failures, Diff, NeedsReview;
      var target := ApplyOperations(codec, current, ops);
      if target.Err? {
        return Preview(RiskBlocked, [], [InvalidModel]);
      }
      var diff := BuildDiff(current, target.value, ops);
      var failures := CheckTargetPreconditions(codec, collections.Keys, current, target.value, records);
      var risk := Safe;
      for i := 0 to |diff|
        invariant risk == Safe && forall j | 0 <= j < i :: !NeedsReview(current, target.value, diff[j])
      {
        if NeedsReview(current, target.value, diff[i]) {
          risk := Review;
          break;
        }
      }
      preview := Preview(if failures != [] then RiskBlocked else risk, diff, failures);
    }

    // The first transaction of an apply.
    method BeginApply(collection: string, expected: nat, confirmed: bool, attempt: string, records: seq<Record>) returns (r: Result<string, Error>)
      requires Valid() && attempt !in attempts
      modifies this`attempts, this`live
      ensures Valid() && (View(), r) == Begin(codec, old(View()), collection, expected, confirmed, attempt, records)
    {
      hide SchemaInv, IsApplying, Evaluate;
      BeginKeeps(codec, View(), collection, expected, confirmed, attempt, records);
      if collection !in collections {
        return Err(NotFound);
      }
      var pending := LoadPending(collection);
      if pending.None? {
        return Err(NotFound);
      }
      var change := changes[pending.value];
      if change.version != expected {
        return Err(Conflict);
      }
      var applying := InProgress(pending.value);
      if applying {
        return Err(Conflict);
      }
      var model := collections[collection];
      var evaluation := EvaluateChange(model, change.ops, records);
      var failing := false;
      if evaluation.risk == RiskBlocked {
        if UniqueValuesConflict in evaluation.failures {
          failing := true;
        } else {
          return Err(Blocked);
        }
      } else if evaluation.risk == Review && !confirmed {
        return Err(ConfirmationRequired);
      }
      attempts := attempts[attempt := Attempt(pending.value, SchemaChanges.InProgress)];
      live := live[attempt := Live(collection, pending.value, expected, confirmed, model, change.ops, failing)];
      r := Result.Ok(pending.value);
    }

    // What the second transaction finds wrong when it looks again.
    method CheckCommit(l: Live, records: seq<Record>, stored: bool) returns (problem: Option<Error>)
      requires Valid()
      ensures problem == CommitProblem(codec, View(), l, records, stored)
    {
      hide SchemaInv, Evaluate, Replay;
      if l.collection !in collections {
        return Some(NotFound);
      }
      var pending := LoadPending(l.collection);
      if pending.None? || pending.value != l.change || changes[pending.value].version != l.expected {
        return Some(Conflict);
      }
      var evaluation := EvaluateChange(collections[l.collection], changes[pending.value].ops, records);
      if evaluation.risk == RiskBlocked {
        return Some(Blocked);
      }
      if evaluation.risk == Review && !l.confirmed {
        return Some(ConfirmationRequired);
      }
      var target := ApplyOperations(codec, collections[l.collection], changes[pending.value].ops);
      if target.Err? || !stored {
        return Some(InvalidArgument);
      }
      problem := None;
    }

    // The second transaction of an apply: everything, or nothing but the mark of failure.
    method CommitApply(attempt: string, records: seq<Record>, stored: bool)
      requires Valid() && attempt in live && !live[attempt].failing
      modifies this`collections, this`migrations, this`attempts, this`changes, this`live
      ensures Valid() && View() == Commit(codec, old(View()), attempt, records, stored)
    {
      hide SchemaInv, Replay, CommitProblem, Diff, PendingOf;
      CommitKeeps(codec, View(), attempt, records, stored);
      CommitDecidedByData(codec, View(), attempt, records, stored);
      var l := live[attempt];
      var problem := CheckCommit(l, records, stored);
      if problem.Some? {
        live := live[attempt := l.(failing := true)];
        return;
      }
      var change := changes[l.change];
      var current := collections[l.collection];
      var replayed := ApplyOperations(codec, current, change.ops);
      var target := replayed.value.(version := current.version + 1);
      collections := collections[l.collection := target];
      var diff := BuildDiff(current, target, change.ops);
      migrations := migrations + [Migration(l.change, l.collection, attempt, target.version, diff, target)];
      if attempt in attempts && attempts[attempt].status == SchemaChanges.InProgress {
        attempts := attempts[attempt := attempts[attempt].(status := Succeeded)];
      }
      changes := changes[l.change := change.(status := Applied, version := change.version + 1)];
      live := live - {attempt};
    }

    method RecordApplyFailure(attempt: string, recorded: bool)
      requires Valid() && attempt in live && live[attempt].failing
      modifies this`attempts, this`changes, this`live
      ensures Valid() && View() == RecordFailure(old(View()), attempt, recorded)
    {
      hide SchemaInv;
      FailureKeeps(codec, View(), attempt, recorded);
      var change := live[attempt].change;
      live := live - {attempt};
      if recorded && attempt in attempts && attempts[attempt].status == SchemaChanges.InProgress {
        attempts := attempts[attempt := attempts[attempt].(status := AttemptFailed)];
        if change in changes && IsActive(changes[change]) {
          changes := changes[change := changes[change].(status := Failed)];
        }
      }
    }

    // Startup: every attempt left in progress was interrupted, and its change is kept as failed.
    method RecoverInterrupted()
      requires Valid() && live == map[]
      modifies this`attempts, this`changes
      ensures Valid() && View() == Recover(old(View()))
    {
      hide SchemaInv;
      RecoverKeeps(codec, View());
      ghost var before := View();
      var pending := set a | a in attempts && attempts[a].status == SchemaChanges.InProgress;
      CloseAttempts(pending);
      assert forall id :: Closed(before, pending, id) <==> IsApplying(before, id);
      assert attempts == Recover(before).attempts && changes == Recover(before).changes;
    }

    // The interrupted attempts, one by one.
    method CloseAttempts(interrupted: set<string>)
      requires interrupted <= attempts.Keys
      modifies this`attempts, this`changes
      ensures attempts.Keys == old(attempts).Keys
      ensures forall a | a in attempts :: attempts[a] == ClosedAttempt(old(View()), interrupted, a)
      ensures changes.Keys == old(changes).Keys
      ensures forall id | id in changes :: changes[id] == ClosedChange(old(View()), interrupted, id)
    {
      hide Closed, ClosedAttempt, ClosedChange;
      ghost var before := View();
      var pending := interrupted;
      assert interrupted - pending == {};
      NothingClosed(before);
      while pending != {}
        invariant pending <= interrupted && attempts.Keys == before.attempts.Keys && changes.Keys == before.changes.Keys
        invariant forall a | a in before.attempts :: attempts[a] == ClosedAttempt(before, interrupted - pending, a)
        invariant forall id | id in before.changes :: changes[id] == ClosedChange(before, interrupted - pending, id)
        decreases pending
      {
        var a :| a in pending;
        ClosedOne(before, interrupted, pending, a);
        attempts := attempts[a := attempts[a].(status := Interrupted)];
        var id := attempts[a].change;
        if id in changes && IsActive(changes[id]) {
          changes := changes[id := changes[id].(status := Failed)];
        }
        pending := pending - {a};
      }
      assert interrupted - pending == interrupted;
    }

    method CreateCollection(input: NewCollection, id: string, ids: seq<string>, emailId: string) returns (r: Result<Collection, Error>)
      requires Valid() && id !in collections
      modifies this`collections, this`initial
      ensures Valid() && (View(), r) == SchemaChanges.CreateCollection(codec, old(View()), input, id, ids, emailId)
    {
      hide SchemaInv, Build, Lower;
      CreateKeeps(codec, View(), input, id, ids, emailId);
      r := BuildCollection(codec, input, id, ids, emailId);
      if r.Err? {
        return;
      }
      var c := r.value;
      if exists k | k in collections :: Lower(collections[k].name) == Lower(c.name) {
        return Err(Conflict);
      }
      if exists f | f in c.fields :: f.kind == Relation && (f.relation.None? || f.relation.value.target !in collections) {
        return Err(InvalidArgument);
      }
      collections := collections[id := c];
      initial := initial[id := c];
    }
  }

  // Some attempt of the set belongs to the change.
  ghost predicate Closed(s: Schema, closed: set<string>, id: string) {
    exists a :: a in closed && a in s.attempts && s.attempts[a].change == id
  }

  ghost function ClosedAttempt(s: Schema, closed: set<string>, a: string): Attempt
    requires a in s.attempts
  {
    if a in closed then s.attempts[a].(status := Interrupted) else s.attempts[a]
  }

  ghost function ClosedChange(s: Schema, closed: set<string>, id: string): Change
    requires id in s.changes
  {
    if Closed(s, closed, id) && IsActive(s.changes[id]) then s.changes[id].(status := Failed) else s.changes[id]
  }

  lemma NothingClosed(s: Schema)
    ensures forall a | a in s.attempts :: ClosedAttempt(s, {}, a) == s.attempts[a]
    ensures forall id | id in s.changes :: ClosedChange(s, {}, id) == s.changes[id]
  {
  }

  lemma ClosedOne(s: Schema, found: set<string>, pending: set<string>, a: string)
    requires a in pending && pending <= found && a in s.attempts
    ensures ClosedAttempt(s, found - pending, a) == s.attempts[a]
    ensures forall b | b in s.attempts ::
        ClosedAttempt(s, found - (pending - {a}), b) ==
        if b == a then s.attempts[a].(status := Interrupted) else ClosedAttempt(s, found - pending, b)
    ensures forall id | id in s.changes ::
        var c := ClosedChange(s, found - pending, id);
        ClosedChange(s, found - (pending - {a}), id) ==
        if id == s.attempts[a].change && IsActive(c) then c.(status := Failed) else c
  {
    assert found - (pending - {a}) == (found - pending) + {a};
    forall id | id in s.changes
      ensures Closed(s, (found - pending) + {a}, id) <==> Closed(s, found - pending, id) || id == s.attempts[a].change
    {
    }
  }
}
