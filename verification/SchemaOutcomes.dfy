/**
 What evaluating, starting and editing a schema change answer, written out in terms of the two models, the records and the tables.
 */
module SchemaOutcomes {
  import opened Prelude
  import opened Keyed
  import opened SchemaModel
  import opened SchemaOperations
  import opened SchemaValues
  import opened SchemaChanges
  import opened SchemaProofs
  import opened SchemaCreation

  /* ----- when a change must be reviewed ----- */

  // A field of the one model is gone from the other, or differs there in what it means.
  ghost predicate FieldMoves(current: Collection, target: Collection, id: string) {
    && FieldById(current.fields, id).Some?
    && (FieldById(target.fields, id).None?
        || var before, after := FieldById(current.fields, id).value, FieldById(target.fields, id).value;
           before.kind != after.kind || before.name != after.name || before.required != after.required || before.unique != after.unique
           || before.validation != after.validation || before.relation != after.relation)
  }

  // A change that is not blocked must be reviewed exactly if it removes a field of the model, or changes the type, name, rules or
  // relation of one.
  lemma ReviewIsExact(codec: Codec, collections: set<string>, current: Collection, ops: seq<Operation>, records: seq<Record>)
    requires ValidModel(codec, current) && OperationsOk(codec, ops)
    ensures var preview := Evaluate(codec, collections, current, ops, records);
            preview.risk != RiskBlocked ==>
              && Replay(codec, current, ops).Ok?
              && (preview.risk == Review <==> exists id :: FieldMoves(current, Replay(codec, current, ops).value, id))
  {
    hide ValidModel, OperationsOk, Failures, ApplyAll, FieldMoves;
    if Replay(codec, current, ops).Ok? {
      ValidModelHasDistinctIds(codec, current);
      var target := Replay(codec, current, ops).value;
      if id :| FieldMoves(current, target, id) {
        MovedIsTouched(codec, current, ops, id);
        var i :| 0 <= i < |ops| && ops[i].kind != OnIndex && ops[i].target == id;
        MovingNeedsReview(current, target, Diff(current, target, ops)[i]);
        assert Diff(current, target, ops)[i] in Diff(current, target, ops);
      }
      if item :| item in Diff(current, target, ops) && NeedsReview(current, target, item) {
        MovingNeedsReview(current, target, item);
        assert FieldMoves(current, target, item.target);
      }
    }
  }

  lemma MovingNeedsReview(current: Collection, target: Collection, item: DiffItem)
    ensures NeedsReview(current, target, item) <==> item.kind != OnIndex && FieldMoves(current, target, item.target)
  {
  }

  // What no operation names stays.
  lemma MovedIsTouched(codec: Codec, current: Collection, ops: seq<Operation>, id: string)
    requires DistinctIds(current) && OperationsOk(codec, ops) && ApplyAll(current, ops).Ok? && FieldMoves(current, ApplyAll(current, ops).value, id)
    ensures exists i :: 0 <= i < |ops| && ops[i].kind != OnIndex && ops[i].target == id
  {
    hide OperationsOk, ApplyAll, DistinctIds;
    UntouchedStays(codec, current, ops, false, id);
  }

  /* ----- when a change is blocked ----- */

  // The records and the other collections leave room for a field of the target: its relation points somewhere, a new required one has
  // a default wherever there are records, and a changed one reads every stored value.
  ghost predicate FieldFits(codec: Codec, collections: set<string>, current: Collection, f: Field, records: seq<Record>) {
    && (f.kind == Relation ==> f.relation.Some? && f.relation.value.target in collections)
    && match FieldById(current.fields, f.id)
       case None => records == [] || !f.required || (f.default != Absent && !(f.default.Given? && f.default.value == Null))
       case Some(previous) =>
         previous == f
         || forall r | r in records :: var v := Decode(codec, f, CellOf(r, f.id)); v.Some? && Accepts(codec, f, v.value, true)
  }

  // A change is blocked exactly if it does not replay, a field of its target does not fit, or two records agree on a unique field
  // or index of it.
  lemma BlockedIsExact(codec: Codec, collections: set<string>, current: Collection, ops: seq<Operation>, records: seq<Record>)
    ensures var preview, replayed := Evaluate(codec, collections, current, ops, records), Replay(codec, current, ops);
            && (replayed.Err? ==> preview == Preview(RiskBlocked, [], [InvalidModel]))
            && (replayed.Ok? ==>
                  var target := replayed.value;
                  && preview.diff == Diff(current, target, ops)
                  && (preview.risk == RiskBlocked <==>
                        || (exists f | f in target.fields :: !f.system && !FieldFits(codec, collections, current, f, records))
                        || UniqueValuesConflict in preview.failures)
                  && (UniqueValuesConflict in preview.failures <==>
                        || (exists f | f in target.fields :: !f.system && f.unique && Repeats(current, target, [f.id], records))
                        || (exists x | x in target.indexes :: x.unique && Repeats(current, target, x.fields, records))))
  {
    hide ValidModel, ApplyAll, FieldFits, Repeats, AllRead;
    if Replay(codec, current, ops).Ok? {
      var target := Replay(codec, current, ops).value;
      FieldFailuresAreExact(codec, collections, current, target.fields, records);
      var found := FieldFailures(codec, collections, current, target.fields, records);
      hide FieldFailures;
      var last := if HasConflict(current, target, records) then [UniqueValuesConflict] else [];
      assert Failures(codec, collections, current, target, records) == found + last;
      assert UniqueValuesConflict in found + last <==> UniqueValuesConflict in last;
    }
  }

  lemma {:induction false} FieldFailuresAreExact(codec: Codec, collections: set<string>, current: Collection, fields: seq<Field>,
                                                 records: seq<Record>)
    ensures var found := FieldFailures(codec, collections, current, fields, records);
            && (found == [] <==> forall f | f in fields && !f.system :: FieldFits(codec, collections, current, f, records))
            && UniqueValuesConflict !in found
  {
    hide FieldFits, RelationFailures, ValueFailures;
    if fields != [] {
      FieldFailuresAreExact(codec, collections, current, fields[1..], records);
      OneFieldFails(codec, collections, current, fields[0], records);
    }
  }

  lemma OneFieldFails(codec: Codec, collections: set<string>, current: Collection, f: Field, records: seq<Record>)
    ensures var found := RelationFailures(collections, f) + ValueFailures(codec, current, f, records);
            (found == [] <==> FieldFits(codec, collections, current, f, records)) && UniqueValuesConflict !in found
  {
    hide Decode, Accepts;
  }

  // When two records repeat a key: each part of it is the same, and none is null. A stored part is what the column holds, numbers
  // compared as numbers; a part of a new field is its default, the same for all records.
  lemma KeysAreCompared(current: Collection, target: Collection, ids: seq<string>, r: Record, s: Record)
    ensures SameKey(current, target, ids, r, s) <==> forall id | id in ids :: SamePart(current, target, id, CellOf(r, id), CellOf(s, id))
  {
  }

  ghost predicate SamePart(current: Collection, target: Collection, id: string, a: Cell, b: Cell) {
    if FieldById(current.fields, id).Some? then
      && a != Nothing && b != Nothing
      && (a == b || (a.OfInt? && b.OfFloat? && a.whole as real == b.float) || (a.OfFloat? && b.OfInt? && a.float == b.whole as real))
    else
      match FieldById(target.fields, id)
      case None => false
      case Some(f) => f.default.Given? && f.default.value != Null
  }

  /* ----- starting to apply ----- */

  // What the first transaction answers: a change that is missing, has moved on or is being applied is refused, then one that is blocked
  // otherwise than by repeated values, then one that must be reviewed and is not confirmed; otherwise its attempt is in progress.
  lemma BeginIsExact(codec: Codec, s: Schema, collection: string, expected: nat, confirmed: bool, attempt: string, records: seq<Record>, id: string)
    requires SchemaInv(codec, s)
    ensures collection !in s.collections || (forall k :: !IsPending(s, collection, k)) ==>
              Begin(codec, s, collection, expected, confirmed, attempt, records) == (s, Err(NotFound))
    ensures collection in s.collections && IsPending(s, collection, id) ==>
              var c, model := s.changes[id], s.collections[collection];
              var preview := Evaluate(codec, s.collections.Keys, model, c.ops, records);
              var repeated := preview.risk == RiskBlocked && UniqueValuesConflict in preview.failures;
              Begin(codec, s, collection, expected, confirmed, attempt, records) ==
              if c.version != expected || attempt in s.attempts || Attempt(id, InProgress) in s.attempts.Values then (s, Err(Conflict))
              else if preview.risk == RiskBlocked && !repeated then (s, Err(Blocked))
              else if preview.risk == Review && !confirmed then (s, Err(ConfirmationRequired))
              else
                (s.(attempts := s.attempts[attempt := Attempt(id, InProgress)],
                    live := s.live[attempt := Live(collection, id, expected, confirmed, model, c.ops, repeated)]), Result.Ok(id))
  {
    hide TablesOk, AppliesOk, Evaluate;
    PendingIs(codec, s, collection, id);
    hide SchemaInv, PendingOf;
    assert IsApplying(s, id) <==> Attempt(id, InProgress) in s.attempts.Values;
  }

  lemma PendingIs(codec: Codec, s: Schema, collection: string, id: string)
    requires SchemaInv(codec, s)
    ensures IsPending(s, collection, id) ==> PendingOf(s, collection) == Some(id)
    ensures (forall k :: !IsPending(s, collection, k)) ==> PendingOf(s, collection) == None
  {
    hide SchemaInv;
    PendingIsOnly(codec, s, collection);
  }

  // A field that goes, or comes to mean something else, never does so unconfirmed.
  lemma UnconfirmedReviewIsRefused(codec: Codec, s: Schema, collection: string, expected: nat, attempt: string, records: seq<Record>, id: string,
                                   fieldId: string)
    requires SchemaInv(codec, s) && collection in s.collections && IsPending(s, collection, id) && s.changes[id].version == expected
    requires attempt !in s.attempts && Attempt(id, InProgress) !in s.attempts.Values
    ensures Replay(codec, s.collections[collection], s.changes[id].ops).Ok?
    ensures var preview := Evaluate(codec, s.collections.Keys, s.collections[collection], s.changes[id].ops, records);
            preview.risk != RiskBlocked
            && FieldMoves(s.collections[collection], Replay(codec, s.collections[collection], s.changes[id].ops).value, fieldId) ==>
              Begin(codec, s, collection, expected, false, attempt, records) == (s, Err(ConfirmationRequired))
  {
    hide AppliesOk, Evaluate, Replay, ValidModel, OperationsOk, HistoryOk, FieldMoves, Begin, NamesOk, OneActive;
    assert ChangeOk(codec, s, id) && CollectionOk(codec, s, collection);
    ReviewIsExact(codec, s.collections.Keys, s.collections[collection], s.changes[id].ops, records);
    BeginIsExact(codec, s, collection, expected, false, attempt, records, id);
  }

  /* ----- committing ----- */

  // What the second transaction leaves. If the writing succeeds and no precondition fails, the model is the replayed one in its next version,
  // a migration of exactly that joins the history, attempt and change are marked, and the apply is over; no other row moves. Otherwise
  // the apply is marked as failing, and nothing else.
  lemma CommittingIsExact(codec: Codec, s: Schema, attempt: string, records: seq<Record>, stored: bool)
    requires SchemaInv(codec, s) && attempt in s.live && !s.live[attempt].failing
    ensures var l := s.live[attempt];
            var replayed := Replay(codec, l.model, l.ops);
            && replayed.Ok? && l.change in s.changes && l.collection in s.collections
            && var n := l.model.version + 1;
            var target := replayed.value.(version := n);
            Commit(codec, s, attempt, records, stored) ==
            if stored && Failures(codec, s.collections.Keys, l.model, replayed.value, records) == [] then
              Schema(s.collections[l.collection := target], s.initial,
                     s.changes[l.change := Change(l.collection, l.expected + 1, Applied, l.ops)],
                     s.attempts[attempt := Attempt(l.change, Succeeded)],
                     s.migrations + [Migration(l.change, l.collection, attempt, n, Diff(l.model, target, l.ops), target)], s.live - {attempt})
            else s.(live := s.live[attempt := l.(failing := true)])
  {
    hide SchemaInv, Evaluate, Replay, Failures, CommitProblem, Diff, Commit, PendingOf;
    CommitDecidedByData(codec, s, attempt, records, stored);
    CommitIs(codec, s, attempt, records, stored);
    if CommitProblem(codec, s, s.live[attempt], records, stored).None? {
      LastIsNew(s.migrations, Commit(codec, s, attempt, records, stored).migrations);
    }
  }

  lemma LastIsNew(had: seq<Migration>, has: seq<Migration>)
    requires |has| > |had|
    ensures forall m | has == had + [m] :: has[|had|] == m
  {
  }

  // An item of a diff repeats its operation and has the definition on either side, under the name it has after, or had.
  lemma ItemIsExact(current: Collection, target: Collection, ops: seq<Operation>, i: nat)
    requires i < |ops|
    ensures var op, item := ops[i], Diff(current, target, ops)[i];
            && (item.kind, item.action, item.target) == (op.kind, op.action, op.target)
            && (op.kind != OnIndex ==>
                  && (match FieldById(current.fields, op.target) case None => item.before == NoDefinition case Some(f) => item.before == FieldDefinition(f))
                  && (match FieldById(target.fields, op.target)
                      case Some(f) => item.after == FieldDefinition(f) && item.name == f.name
                      case None => item.after == NoDefinition && (item.before.FieldDefinition? ==> item.name == item.before.field.name)))
            && (op.kind == OnIndex ==>
                  && (match IndexById(current.indexes, op.target) case None => item.before == NoDefinition case Some(x) => item.before == IndexDefinition(x))
                  && (match IndexById(target.indexes, op.target)
                      case Some(x) => item.after == IndexDefinition(x) && item.name == x.name
                      case None => item.after == NoDefinition && (item.before.IndexDefinition? ==> item.name == item.before.index.name)))
  {
    hide Find;
  }

  /* ----- one operation ----- */

  ghost predicate IsLockedEmail(c: Collection, f: Field) {
    c.kind == Auth && f.name == "email"
  }

  // When an operation applies to a model, and what it answers when it does not: what is added must be new; what is removed or changed
  // must be there, and be no system field; the email of an Auth collection is never removed, and stays a required, unique text.
  lemma OperationAppliesExactly(codec: Codec, c: Collection, op: Operation)
    requires OperationOk(codec, op)
    ensures op.kind == OnIndex ==>
              var found := IndexById(c.indexes, op.target);
              && (ApplyOne(c, op).Ok? <==> (op.action == Add <==> found.None?))
              && (ApplyOne(c, op).Err? ==> ApplyOne(c, op).error == if op.action == Add then Conflict else NotFound)
    ensures op.kind != OnIndex ==>
              match FieldById(c.fields, op.target)
              case None =>
                && (ApplyOne(c, op).Ok? <==> op.action == Add)
                && (op.action == Remove ==> ApplyOne(c, op) == Err(InvalidArgument)) && (op.action == Update ==> ApplyOne(c, op) == Err(NotFound))
              case Some(f) =>
                && (op.action == Add ==> ApplyOne(c, op) == Err(Conflict))
                && (op.action == Remove ==>
                      if f.system || IsLockedEmail(c, f) then ApplyOne(c, op) == Err(InvalidArgument) else ApplyOne(c, op).Ok?)
                && (op.action == Update ==>
                      var d := op.definition.field;
                      if f.system then ApplyOne(c, op) == Err(NotFound)
                      else if IsLockedEmail(c, f) && !(d.name == "email" && d.kind == Text && d.required && d.unique) then
                        ApplyOne(c, op) == Err(InvalidArgument)
                      else ApplyOne(c, op).Ok?)
  {
    hide ValidId, FieldOk, IndexOk, Find;
  }

  // And where it applies: what is added comes last, what is changed keeps its place, and what is removed leaves the others in order.
  lemma OperationKeepsPlaces(codec: Codec, c: Collection, op: Operation)
    requires OperationOk(codec, op) && DistinctIds(c) && ApplyOne(c, op).Ok?
    ensures var d := ApplyOne(c, op).value;
            if op.kind == OnIndex then
              && d == c.(indexes := d.indexes)
              && match op.action
                 case Add => d.indexes == c.indexes + [op.definition.index]
                 case Update => exists i :: IsAt(c.indexes, IndexKey, op.target, i) && d.indexes == c.indexes[i := op.definition.index]
                 case Remove => exists i :: IsAt(c.indexes, IndexKey, op.target, i) && d.indexes == c.indexes[..i] + c.indexes[i + 1..]
            else
              && d == c.(fields := d.fields)
              && match op.action
                 case Add => d.fields == c.fields + [op.definition.field]
                 case Update => exists i :: IsAt(c.fields, FieldKey, op.target, i) && d.fields == c.fields[i := op.definition.field]
                 case Remove => exists i :: IsAt(c.fields, FieldKey, op.target, i) && d.fields == c.fields[..i] + c.fields[i + 1..]
  {
    hide ValidId, FieldOk, IndexOk, Find, Distinct;
    if op.action != Add {
      if op.kind == OnIndex {
        PlaceOf(c.indexes, IndexKey, op.target, if op.action == Update then op.definition.index else Find(c.indexes, IndexKey, op.target).value);
      } else {
        PlaceOf(c.fields, FieldKey, op.target, if op.action == Update then op.definition.field else Find(c.fields, FieldKey, op.target).value);
      }
    }
  }

  predicate IsAt<T>(items: seq<T>, key: T -> string, id: string, i: int) {
    0 <= i < |items| && key(items[i]) == id
  }

  lemma {:induction false} PlaceOf<T>(items: seq<T>, key: T -> string, id: string, x: T)
    requires Find(items, key, id).Some?
    ensures exists i :: IsAt(items, key, id, i) && Put(items, key, id, x) == items[i := x] && Drop(items, key, id) == items[..i] + items[i + 1..]
  {
    OnePlace(items, key, id, x);
    hide Put, Drop, Find;
    if key(items[0]) == id {
      assert IsAt(items, key, id, 0);
    } else {
      PlaceOf(items[1..], key, id, x);
      var i :| IsAt(items[1..], key, id, i) && Put(items[1..], key, id, x) == items[1..][i := x]
               && Drop(items[1..], key, id) == items[1..][..i] + items[1..][i + 1..];
      PlaceAfter(items[0], items[1..], i, x);
      assert [items[0]] + items[1..] == items;
      assert IsAt(items, key, id, i + 1);
    }
  }

  lemma OnePlace<T>(items: seq<T>, key: T -> string, id: string, x: T)
    requires items != []
    ensures key(items[0]) == id ==> Put(items, key, id, x) == items[0 := x] && Drop(items, key, id) == items[..0] + items[0 + 1..]
    ensures key(items[0]) != id ==>
              && Put(items, key, id, x) == [items[0]] + Put(items[1..], key, id, x)
              && Drop(items, key, id) == [items[0]] + Drop(items[1..], key, id)
              && Find(items, key, id) == Find(items[1..], key, id)
  {
  }

  lemma PlaceAfter<T>(head: T, rest: seq<T>, i: int, x: T)
    requires 0 <= i < |rest|
    ensures var all := [head] + rest;
            [head] + rest[i := x] == all[i + 1 := x] && [head] + (rest[..i] + rest[i + 1..]) == all[..i + 1] + all[i + 1 + 1..]
  {
  }

  /* ----- saving an operation ----- */

  // The ID a definition may carry: none when something is first added, otherwise none or the target's.
  ghost predicate MayDeclare(input: OperationInput, prior: Option<Operation>, target: string, declared: string) {
    declared == "" || ((prior.Some? || input.action != Add) && declared == target)
  }

  // A relation operation may leave the type of its field out.
  ghost function TypedAs(input: OperationInput, f: Field): Field {
    if input.kind == OnRelation && f.kind == Untyped then f.(kind := Relation) else f
  }

  // Which operations are stored, and as what: an edit repeats kind, action and target of the operation; what is changed or removed has a
  // proper ID; a definition is valid under the target's ID, a relation field exactly in a relation operation, to a collection that exists.
  lemma NormalizeIsExact(codec: Codec, collections: set<string>, input: OperationInput, id: string, prior: Option<Operation>, newId: string)
    ensures var r := Normalize(codec, collections, input, id, prior, newId);
            var target := if prior.Some? then prior.value.target else if input.action == Add then newId else input.target;
            var about :=
              && (prior.Some? ==> (prior.value.kind, prior.value.action) == (input.kind, input.action) && input.target in {"", target})
              && (input.action != Add ==> ValidId(target, if input.kind == OnIndex then "idx_" else "fld_"));
            && (r.Err? ==> r.error == InvalidArgument)
            && (input.action == Remove ==>
                  (r.Ok? <==> about) && (r.Ok? ==> r.value == Operation(id, input.kind, Remove, target, NoDefinition)))
            && (input.action != Remove && input.kind == OnIndex ==>
                  && (r.Ok? <==> about && input.index.Some? && MayDeclare(input, prior, target, input.index.value.id)
                                 && IndexOk(input.index.value.(id := target)))
                  && (r.Ok? ==> r.value == Operation(id, OnIndex, input.action, target, IndexDefinition(input.index.value.(id := target)))))
            && (input.action != Remove && input.kind != OnIndex ==>
                  && (r.Ok? <==>
                        && about && input.field.Some?
                        && var f := TypedAs(input, input.field.value);
                        && (input.kind == OnRelation <==> f.kind == Relation) && (input.action == Add ==> !f.system)
                        && MayDeclare(input, prior, target, f.id) && FieldOk(codec, f.(id := target))
                        && (f.kind == Relation ==> f.relation.Some? && f.relation.value.target in collections))
                  && (r.Ok? ==>
                        r.value == Operation(id, input.kind, input.action, target,
                                             FieldDefinition(TypedAs(input, input.field.value).(id := target)))))
  {
    hide ValidId, IndexOk, DefaultOk, FileRulesOk, Reserved, ValidName;
  }

  /* ----- editing a change ----- */

  // What storing the operations of a change answers: they must replay on the model; then the change counts one version.
  ghost function Stored(codec: Codec, s: Schema, id: string, before: Change, ops: seq<Operation>, status: ChangeStatus)
    : (Schema, Result<Change, Error>)
    requires before.collection in s.collections
  {
    var replayed := Replay(codec, s.collections[before.collection], ops);
    if replayed.Err? then (s, Err(replayed.error))
    else
      var after := Change(before.collection, before.version + 1, status, ops);
      (s.(changes := s.changes[id := after]), Result.Ok(after))
  }

  // A saved operation comes last in the pending change of its collection, or first in a new one. While an attempt of the change is in
  // progress it is refused.
  lemma SavingIsExact(codec: Codec, s: Schema, collection: string, input: OperationInput, changeId: string, opId: string, newId: string,
                      id: string)
    requires SchemaInv(codec, s) && collection in s.collections && changeId !in s.changes
    requires ValidId(newId, if input.kind == OnIndex then "idx_" else "fld_")
    requires IsPending(s, collection, id) || ((forall k :: !IsPending(s, collection, k)) && id == changeId)
    ensures var before := if IsPending(s, collection, id) then s.changes[id] else Change(collection, 0, Ready, []);
            var op := Normalize(codec, s.collections.Keys, input, opId, None, newId);
            Save(codec, s, collection, input, changeId, opId, newId) ==
            if Attempt(id, InProgress) in s.attempts.Values then (s, Err(Conflict))
            else if op.Err? then (s, Err(op.error))
            else Stored(codec, s, id, before, before.ops + [op.value], Ready)
  {
    hide SchemaInv, Normalize, Replay, ValidId;
    PendingIs(codec, s, collection, id);
    hide PendingOf;
    assert IsApplying(s, id) <==> Attempt(id, InProgress) in s.attempts.Values;
  }

  // An edited operation keeps its place.
  lemma UpdatingIsExact(codec: Codec, s: Schema, collection: string, opId: string, input: OperationInput, id: string)
    requires SchemaInv(codec, s) && collection in s.collections
    ensures (forall k :: !IsPending(s, collection, k)) ==> UpdateOperation(codec, s, collection, opId, input) == (s, Err(NotFound))
    ensures IsPending(s, collection, id) ==>
              var before, updated := s.changes[id], UpdateOperation(codec, s, collection, opId, input);
              if Attempt(id, InProgress) in s.attempts.Values then updated == (s, Err(Conflict))
              else if forall op | op in before.ops :: op.id != opId then updated == (s, Err(NotFound))
              else exists i :: IsOperation(before.ops, opId, i) && updated == Edited(codec, s, id, before, input, i)
  {
    hide SchemaInv, Normalize, Replay, FirstOperation, PendingOf;
    PendingIs(codec, s, collection, id);
    if IsPending(s, collection, id) {
      assert IsApplying(s, id) <==> Attempt(id, InProgress) in s.attempts.Values;
      hide IsApplying;
      FirstIsThere(s.changes[id].ops, opId);
    }
  }

  ghost function Edited(codec: Codec, s: Schema, id: string, before: Change, input: OperationInput, i: int): (Schema, Result<Change, Error>)
    requires before.collection in s.collections && 0 <= i < |before.ops|
  {
    var op := Normalize(codec, s.collections.Keys, input, before.ops[i].id, Some(before.ops[i]), "");
    if op.Err? then (s, Err(op.error)) else Stored(codec, s, id, before, before.ops[i := op.value], Ready)
  }

  // The others keep their order when one is removed, and with the last one the change is discarded.
  lemma RemovingIsExact(codec: Codec, s: Schema, collection: string, opId: string, id: string)
    requires SchemaInv(codec, s) && collection in s.collections
    ensures (forall k :: !IsPending(s, collection, k)) ==> RemoveOperation(codec, s, collection, opId) == (s, Err(NotFound))
    ensures IsPending(s, collection, id) ==>
              var before, removed := s.changes[id], RemoveOperation(codec, s, collection, opId);
              if Attempt(id, InProgress) in s.attempts.Values then removed == (s, Err(Conflict))
              else if forall op | op in before.ops :: op.id != opId then removed == (s, Err(NotFound))
              else
                exists i :: IsOperation(before.ops, opId, i)
                            && var rest := before.ops[..i] + before.ops[i + 1..];
                            removed == Stored(codec, s, id, before, rest, if |before.ops| == 1 then Discarded else Ready)
  {
    hide SchemaInv, Replay, FirstOperation, PendingOf;
    PendingIs(codec, s, collection, id);
    if IsPending(s, collection, id) {
      assert IsApplying(s, id) <==> Attempt(id, InProgress) in s.attempts.Values;
      hide IsApplying;
      FirstIsThere(s.changes[id].ops, opId);
      if i :| IsOperation(s.changes[id].ops, opId, i) {
        assert s.changes[id].ops[..i] + s.changes[id].ops[i + 1..] == [] <==> |s.changes[id].ops| == 1;
      }
    }
  }

  // The place is the first of an operation with the ID.
  ghost predicate IsOperation(ops: seq<Operation>, id: string, i: int) {
    0 <= i < |ops| && ops[i].id == id && forall j | 0 <= j < i :: ops[j].id != id
  }

  lemma {:induction false} FirstIsThere(ops: seq<Operation>, id: string)
    ensures match FirstOperation(ops, id)
            case None => forall op | op in ops :: op.id != id
            case Some(i) => IsOperation(ops, id, i) && ops[i] in ops
  {
    if ops != [] && ops[0].id != id {
      FirstIsThere(ops[1..], id);
      forall j | 0 <= j < |ops| && FirstOperation(ops, id).Some? && j < FirstOperation(ops, id).value
        ensures ops[j].id != id
      {
        if j > 0 { assert ops[j] == ops[1..][j - 1]; }
      }
    }
  }

  // A change is discarded at the version expected, while no attempt of it is in progress; its operations stay as they are.
  lemma DiscardingIsExact(codec: Codec, s: Schema, collection: string, expected: nat, id: string)
    requires SchemaInv(codec, s)
    ensures (forall k :: !IsPending(s, collection, k)) ==> Discard(s, collection, expected) == (s, Err(NotFound))
    ensures IsPending(s, collection, id) ==>
              var before := s.changes[id];
              var after := Change(before.collection, before.version + 1, Discarded, before.ops);
              Discard(s, collection, expected) ==
              if before.version != expected || Attempt(id, InProgress) in s.attempts.Values then (s, Err(Conflict))
              else (s.(changes := s.changes[id := after]), Result.Ok(after))
  {
    hide SchemaInv;
    PendingIs(codec, s, collection, id);
    hide PendingOf;
    assert IsApplying(s, id) <==> Attempt(id, InProgress) in s.attempts.Values;
  }

  /* ----- failing and recovering ----- */

  ghost function MarkedFailed(c: Change): Change {
    if c.status == Ready || c.status == Failed then Change(c.collection, c.version, Failed, c.ops) else c
  }

  // A failed apply leaves its attempt marked as failed, and its change; when even that is not recorded it leaves nothing but its absence.
  lemma FailingIsExact(codec: Codec, s: Schema, attempt: string, recorded: bool)
    requires SchemaInv(codec, s) && attempt in s.live && s.live[attempt].failing
    ensures var change := s.live[attempt].change;
            && change in s.changes
            && RecordFailure(s, attempt, recorded) ==
               if !recorded then s.(live := s.live - {attempt})
               else s.(live := s.live - {attempt}, attempts := s.attempts[attempt := Attempt(change, AttemptFailed)],
                       changes := s.changes[change := MarkedFailed(s.changes[change])])
  {
    hide TablesOk, RiskKnown;
    assert LiveOk(codec, s, attempt);
  }

  // Recovery marks every attempt in progress as interrupted, and its change as failed.
  lemma RecoveringIsExact(s: Schema)
    requires s.live == map[]
    ensures var t := Recover(s);
            && t == s.(attempts := t.attempts, changes := t.changes)
            && t.attempts.Keys == s.attempts.Keys && t.changes.Keys == s.changes.Keys
            && (forall a | a in s.attempts ::
                  t.attempts[a] == if s.attempts[a].status == InProgress then Attempt(s.attempts[a].change, Interrupted) else s.attempts[a])
            && (forall id | id in s.changes ::
                  t.changes[id] == if Attempt(id, InProgress) in s.attempts.Values then MarkedFailed(s.changes[id]) else s.changes[id])
  {
    assert forall id :: IsApplying(s, id) <==> Attempt(id, InProgress) in s.attempts.Values;
    hide IsApplying;
  }

  /* ----- creating ----- */

  // A collection is created as it is built, under a name no other one has whatever the case, with relations to existing collections.
  lemma CollectionIsCreatedExactly(codec: Codec, s: Schema, input: NewCollection, id: string, ids: seq<string>, emailId: string)
    requires id !in s.collections
    ensures var built, created := Build(codec, input, id, ids, emailId), CreateCollection(codec, s, input, id, ids, emailId);
            if built.Err? then created == (s, Err(built.error))
            else if exists k | k in s.collections :: Lower(s.collections[k].name) == Lower(built.value.name) then created == (s, Err(Conflict))
            else if forall f | f in built.value.fields && f.kind == Relation :: f.relation.Some? && f.relation.value.target in s.collections then
              created == (s.(collections := s.collections[id := built.value], initial := s.initial[id := built.value]), Result.Ok(built.value))
            else created == (s, Err(InvalidArgument))
  {
    hide Build, Lower;
  }

  // The system fields a collection starts with: its ID, and the two times unless they are omitted.
  lemma SystemFieldsAreExact(omitted: seq<string>)
    ensures var created := Field("fld_system_created_at", "createdAt", DateTime, true, false, "", Absent, Absent, None, true);
            var updated := Field("fld_system_updated_at", "updatedAt", DateTime, true, false, "", Absent, Absent, None, true);
            KeptSystemFields(SYSTEM_FIELDS, omitted) ==
            (if "id" in omitted then [] else [Field("fld_system_id", "id", Text, true, false, "", Absent, Absent, None, true)])
            + (if "createdAt" in omitted then [] else [created]) + (if "updatedAt" in omitted then [] else [updated])
  {
    var fields := SYSTEM_FIELDS;
    assert fields == [fields[0]] + ([fields[1]] + ([fields[2]] + []));
    KeptOne(fields[0], [fields[1]] + ([fields[2]] + []), omitted);
    KeptOne(fields[1], [fields[2]] + [], omitted);
    KeptOne(fields[2], [], omitted);
    assert KeptSystemFields([], omitted) == [];
    hide KeptSystemFields;
  }

  // After them come the given fields under the IDs drawn for them. In an Auth collection the first that is called email, whatever the case,
  // becomes required and unique; if there is none, one is added last.
  lemma InitialFieldsAreExact(input: NewCollection, ids: seq<string>, emailId: string)
    requires |input.fields| <= |ids|
    ensures var n := |input.fields|;
            var all := InitialFields(input, ids, emailId);
            var system := KeptSystemFields(SYSTEM_FIELDS, input.omitted);
            var given := seq(n, i requires 0 <= i < n => input.fields[i].(id := ids[i]));
            && (input.kind == Normal ==> all == system + given)
            && (input.kind == Auth && (forall i | 0 <= i < n :: Lower(input.fields[i].name) != "email") ==>
                  all == system + given + [Field(emailId, "email", Text, true, true, "", Absent, Absent, None, false)])
            && (forall i | input.kind == Auth && IsFirstEmail(input.fields, i) ::
                  all == system + given[i := given[i].(required := true, unique := true)])
  {
    hide KeptSystemFields, Lower, FoldsToEmail;
    var given := Assigned(input.fields, ids);
    FirstFold(given);
    assert forall i | 0 <= i < |given| :: given[i].name == input.fields[i].name && given[i] in given;
  }

  predicate IsFirstEmail(fields: seq<Field>, i: int) {
    0 <= i < |fields| && Lower(fields[i].name) == "email" && forall j | 0 <= j < i :: Lower(fields[j].name) != "email"
  }

  /* ----- values and definitions ----- */

  function Texts(texts: seq<string>): Value {
    List(seq(|texts|, i requires 0 <= i < |texts| => Str(texts[i])))
  }

  // What a field accepts: null exactly if it is not required or that is not asked for, and otherwise a value of its type.
  lemma ValuesAreExact(codec: Codec, f: Field, v: Value)
    ensures Accepts(codec, f, Null, true) <==> !f.required
    ensures Accepts(codec, f, Null, false)
    ensures v != Null ==>
              match f.kind
              case Boolean => Accepts(codec, f, v, true) <==> v in {Bool(false), Bool(true)}
              case Json => Accepts(codec, f, v, true)
              case File => Accepts(codec, f, v, true) <==> exists text :: v == Str(text)
              case DateTime => Accepts(codec, f, v, true) <==> exists text :: v == Str(text) && codec.instant(text)
              case Text => Accepts(codec, f, v, true) <==> exists text :: v == Str(text) && TextOk(f.validation, text)
              case Number => Accepts(codec, f, v, true) <==> exists n :: v == Num(n) && NumberOk(f.validation, n)
              case Files => Accepts(codec, f, v, true) <==> exists texts :: v == Texts(texts) && |texts| <= 32 && "" !in texts
              case Relation =>
                Accepts(codec, f, v, true) <==>
                f.relation.Some?
                && if f.relation.value.cardinality in {"one-to-many", "many-to-many"} then exists texts :: v == Texts(texts)
                   else exists text :: v == Str(text)
              case _ => !Accepts(codec, f, v, true)
    ensures v != Null ==> (Accepts(codec, f, v, false) <==> Accepts(codec, f, v, true))
  {
    hide TextOk, NumberOk;
    if v.List? {
      TextsAreTexts(v);
      hide Texts;
    }
  }

  lemma TextsAreTexts(v: Value)
    requires v.List?
    ensures (forall x | x in v.items :: x.Str?) <==> exists texts :: v == Texts(texts)
    ensures |v.items| <= 32 && (forall x | x in v.items :: x.Str? && x.text != "") <==>
            exists texts :: v == Texts(texts) && |texts| <= 32 && "" !in texts
  {
    if forall x | x in v.items :: x.Str? {
      var texts := seq(|v.items|, i requires 0 <= i < |v.items| => v.items[i].text);
      assert forall i | 0 <= i < |texts| :: Texts(texts).items[i] == v.items[i];
      assert v == Texts(texts);
    }
    forall texts | v == Texts(texts)
      ensures forall x | x in v.items :: x.Str? && x.text in texts
      ensures forall t | t in texts :: Str(t) in v.items
      ensures |texts| == |v.items|
    {
      forall t | t in texts ensures Str(t) in v.items { var i :| 0 <= i < |texts| && texts[i] == t; assert v.items[i] == Str(t); }
    }
  }

  // Which definitions of a field are stored. File rules are looked at for files alone.
  lemma FieldIsValidExactly(codec: Codec, f: Field)
    ensures FieldOk(codec, f) <==>
            && ValidName(f.name) && Lower(f.name) !in {"id", "createdat", "updatedat", "password"} && !f.system
            && f.kind in {Text, Number, Boolean, DateTime, Json, Relation, File, Files}
            && (f.validation.Absent? || (f.validation.Given? && f.validation.value.Object?))
            && (f.relation.Some? <==> f.kind == Relation)
            && (f.relation.Some? ==> ValidId(f.relation.value.target, "col_")
                                     && f.relation.value.cardinality in {"one-to-one", "many-to-one", "one-to-many", "many-to-many"})
            && (f.kind in {File, Files} ==> FileRulesOk(codec, f))
            && (f.default.Absent? || (f.default.Given? && (if f.default.value == Null then !f.required else Accepts(codec, f, f.default.value, false))))
  {
    SystemNamesFold();
    assert forall s | s in SYSTEM_FIELDS :: s == SYSTEM_FIELDS[0] || s == SYSTEM_FIELDS[1] || s == SYSTEM_FIELDS[2];
    assert SYSTEM_FIELDS[0] in SYSTEM_FIELDS && SYSTEM_FIELDS[1] in SYSTEM_FIELDS && SYSTEM_FIELDS[2] in SYSTEM_FIELDS;
    hide ValidName, Lower, ValidId, FileRulesOk, TextOk, NumberOk;
  }

  // The rules a field of files may give: at most 128 MiB for a file, 1 to 16 media types and, unless it holds a single file, 1 to 32 files.
  lemma FileRulesAreExact(codec: Codec, f: Field)
    ensures FileRulesOk(codec, f) <==>
            && (f.kind == Files ==> !f.unique)
            && (f.validation.Absent?
                || (f.validation.Given? && f.validation.value.Object?
                    && var rules := f.validation.value.members;
                    && (forall name | name in rules ::
                          match name
                          case "maxBytes" => rules[name].Null? || IsWhole(rules[name], 134217728)
                          case "maxFiles" => f.kind != File && (rules[name].Null? || IsWhole(rules[name], 32))
                          case "allowedMimeTypes" =>
                            && rules[name].List? && 1 <= |rules[name].items| <= 16
                            && forall x | x in rules[name].items :: x.Str? && codec.mime(x.text)
                          case _ => false)))
  {
  }

  ghost predicate IsWhole(v: Value, most: int) {
    v.Num? && v.number == v.number.Floor as real && 1.0 <= v.number <= most as real
  }

  // An index is over 1 to 16 different ordinary fields.
  lemma IndexIsValidExactly(x: Index)
    ensures IndexOk(x) <==>
            && ValidId(x.id, "idx_") && ValidName(x.name) && 1 <= |x.fields| <= 16
            && (forall f | f in x.fields :: ValidId(f, "fld_") && !("fld_system_" <= f))
            && forall i, j | 0 <= i < |x.fields| && 0 <= j < |x.fields| && x.fields[i] == x.fields[j] :: i == j
  {
    hide ValidId, ValidName;
  }
}
