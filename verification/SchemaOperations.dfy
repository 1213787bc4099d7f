/**
 Pending schema operations: their normal form, their replay on a model, and the diff that records what changed.
 A diff is a faithful patch: by ID it rebuilds the target from the current model and touches nothing else.
 */
module SchemaOperations {
  import opened Prelude
  import opened Keyed
  import opened SchemaModel

  datatype Kind = OnField | OnRelation | OnIndex

  datatype Action = Add | Update | Remove

  datatype Definition = NoDefinition | FieldDefinition(field: Field) | IndexDefinition(index: Index)

  datatype Operation = Operation(id: string, kind: Kind, action: Action, target: string, definition: Definition)

  datatype Error = InvalidArgument | NotFound | Conflict | Blocked | ConfirmationRequired

  // An operation as it arrives; its definition is a text, of which JSON makes a field or an index or neither.
  datatype OperationInput = OperationInput(kind: Kind, action: Action, target: string, field: Option<Field>, index: Option<Index>)

  datatype DiffItem = DiffItem(kind: Kind, action: Action, target: string, name: string, before: Definition, after: Definition)

  /* ----- the normal form of an operation ----- */

  function TargetPrefix(kind: Kind): string {
    if kind == OnIndex then "idx_" else "fld_"
  }

  // The ID of the defined item: a new one when added, otherwise the target's; a definition may only repeat it.
  function TargetOf(input: OperationInput, prior: Option<Operation>): Result<string, Error> {
    match prior
    case None => Result.Ok(input.target)
    case Some(p) =>
      if p.kind != input.kind || p.action != input.action then Err(InvalidArgument)
      else if input.target != "" && input.target != p.target then Err(InvalidArgument)
      else Result.Ok(p.target)
  }

  function DefinedId(input: OperationInput, prior: Option<Operation>, target: string, declared: string, newId: string): Result<string, Error> {
    if input.action == Add then
      if prior.None? then if declared != "" then Err(InvalidArgument) else Result.Ok(newId)
      else if declared != "" && declared != target then Err(InvalidArgument) else Result.Ok(target)
    else if !ValidId(target, TargetPrefix(input.kind)) || (declared != "" && declared != target) then Err(InvalidArgument)
    else Result.Ok(target)
  }

  function NormalIndex(input: OperationInput, prior: Option<Operation>, target: string, newId: string): Result<Definition, Error> {
    if input.index.None? then Err(InvalidArgument)
    else
      match DefinedId(input, prior, target, input.index.value.id, newId)
      case Err(e) => Err(e)
      case Ok(id) =>
        var index := input.index.value.(id := id);
        if IndexOk(index) then Result.Ok(IndexDefinition(index)) else Err(InvalidArgument)
  }

  // Only relation operations define relation fields; a relation operation may leave the type out.
  function NormalField(codec: Codec, collections: set<string>, input: OperationInput, prior: Option<Operation>, target: string,
                       newId: string): Result<Definition, Error> {
    if input.field.None? then Err(InvalidArgument)
    else
      var given := input.field.value;
      var declared := if input.kind == OnRelation && given.kind == Untyped then given.(kind := Relation) else given;
      if (input.kind == OnRelation) != (declared.kind == Relation) then Err(InvalidArgument)
      else if input.action == Add && declared.system then Err(InvalidArgument)
      else
        match DefinedId(input, prior, target, declared.id, newId)
        case Err(e) => Err(e)
        case Ok(id) =>
          var field := declared.(id := id);
          if !FieldOk(codec, field) then Err(InvalidArgument)
          else if field.kind == Relation && field.relation.value.target !in collections then Err(InvalidArgument)
          else Result.Ok(FieldDefinition(field))
  }

  function DefinitionId(d: Definition): string {
    match d
    case NoDefinition => ""
    case FieldDefinition(f) => f.id
    case IndexDefinition(x) => x.id
  }

  function Normalize(codec: Codec, collections: set<string>, input: OperationInput, id: string, prior: Option<Operation>,
                     newId: string): (r: Result<Operation, Error>)
    ensures r.Ok? && ValidId(newId, TargetPrefix(input.kind)) && (prior.Some? ==> OperationOk(codec, prior.value)) ==> OperationOk(codec, r.value)
  {
    match TargetOf(input, prior)
    case Err(e) => Err(e)
    case Ok(target) =>
      if input.action == Remove then
        if ValidId(target, TargetPrefix(input.kind)) then Result.Ok(Operation(id, input.kind, Remove, target, NoDefinition)) else Err(InvalidArgument)
      else
        var definition := if input.kind == OnIndex then NormalIndex(input, prior, target, newId)
          else NormalField(codec, collections, input, prior, target, newId);
        match definition
        case Err(e) => Err(e)
        case Ok(d) => Result.Ok(Operation(id, input.kind, input.action, DefinitionId(d), d))
  }

  // What a saved operation is: the kind and action asked for, a new ID for what is added, and otherwise the target asked for,
  // which editing the operation can never change.
  lemma NormalizeKeepsTarget(codec: Codec, collections: set<string>, input: OperationInput, id: string, prior: Option<Operation>, newId: string)
    ensures var r := Normalize(codec, collections, input, id, prior, newId);
            r.Ok? ==>
              && (r.value.id, r.value.kind, r.value.action) == (id, input.kind, input.action)
              && r.value.target == (if prior.Some? then prior.value.target else if input.action == Add then newId else input.target)
              && (prior.Some? ==> (prior.value.kind, prior.value.action) == (input.kind, input.action))
              && (input.action == Remove <==> r.value.definition == NoDefinition)
              && (r.value.definition.FieldDefinition? ==>
                    && (input.kind == OnRelation <==> r.value.definition.field.kind == Relation)
                    && (r.value.definition.field.kind == Relation ==> r.value.definition.field.relation.value.target in collections))
  {
    hide ValidId, IndexOk, DefaultOk, FileRulesOk, Reserved, ValidName;
  }

  // A stored operation names a proper target, and its definition is a valid item under the target's own ID.
  predicate OperationOk(codec: Codec, op: Operation) {
    && ValidId(op.target, TargetPrefix(op.kind))
    && match op.definition
       case NoDefinition => op.action == Remove
       case FieldDefinition(f) => op.action != Remove && op.kind != OnIndex && f.id == op.target && FieldOk(codec, f)
       case IndexDefinition(x) => op.action != Remove && op.kind == OnIndex && x.id == op.target && IndexOk(x)
  }

  /* ----- replay ----- */

  function ApplyToFields(c: Collection, op: Operation): Result<Collection, Error>
    requires op.kind != OnIndex
  {
    var found := FieldById(c.fields, op.target);
    match op.action
    case Remove =>
      if found.None? || found.value.system then Err(InvalidArgument)
      else if c.kind == Auth && found.value.name == EMAIL then Err(InvalidArgument)
      else Result.Ok(c.(fields := Drop(c.fields, FieldKey, op.target)))
    case Add =>
      if !op.definition.FieldDefinition? then Err(InvalidArgument)
      else if found.Some? then Err(Conflict)
      else Result.Ok(c.(fields := c.fields + [op.definition.field]))
    case Update =>
      if !op.definition.FieldDefinition? then Err(InvalidArgument)
      else if found.None? || found.value.system then Err(NotFound)
      else if c.kind == Auth && found.value.name == EMAIL && !KeepsEmail(op.definition.field) then Err(InvalidArgument)
      else Result.Ok(c.(fields := Put(c.fields, FieldKey, op.target, op.definition.field)))
  }

  predicate KeepsEmail(f: Field) {
    f.name == EMAIL && f.kind == Text && f.required && f.unique
  }

  function ApplyToIndexes(c: Collection, op: Operation): Result<Collection, Error> {
    var found := IndexById(c.indexes, op.target);
    match op.action
    case Remove => if found.None? then Err(NotFound) else Result.Ok(c.(indexes := Drop(c.indexes, IndexKey, op.target)))
    case Add =>
      if !op.definition.IndexDefinition? then Err(InvalidArgument)
      else if found.Some? then Err(Conflict)
      else Result.Ok(c.(indexes := c.indexes + [op.definition.index]))
    case Update =>
      if !op.definition.IndexDefinition? then Err(InvalidArgument)
      else if found.None? then Err(NotFound)
      else Result.Ok(c.(indexes := Put(c.indexes, IndexKey, op.target, op.definition.index)))
  }

  function ApplyOne(c: Collection, op: Operation): Result<Collection, Error> {
    if op.kind == OnIndex then ApplyToIndexes(c, op) else ApplyToFields(c, op)
  }

  function ApplyAll(c: Collection, ops: seq<Operation>): Result<Collection, Error>
    decreases |ops|
  {
    if ops == [] then Result.Ok(c)
    else
      match ApplyOne(c, ops[0])
      case Err(e) => Err(e)
      case Ok(d) => ApplyAll(d, ops[1..])
  }

  // The model the operations lead to, if it is valid.
  function Replay(codec: Codec, current: Collection, ops: seq<Operation>): Result<Collection, Error> {
    match ApplyAll(current, ops)
    case Err(e) => Err(e)
    case Ok(target) => if ValidModel(codec, target) then Result.Ok(target) else Err(InvalidArgument)
  }

  lemma ApplyOneMore(c: Collection, ops: seq<Operation>, i: nat)
    requires i < |ops|
    ensures ApplyAll(c, ops[i..]) == match ApplyOne(c, ops[i]) case Ok(d) => ApplyAll(d, ops[i + 1..]) case Err(e) => Err(e)
  {
    assert ops[i..][0] == ops[i] && ops[i..][1..] == ops[i + 1..];
  }

  // The loops that find the item of a target and remove or replace it in place.
  method RemoveField(fields: seq<Field>, id: string) returns (kept: seq<Field>)
    ensures kept == Drop(fields, FieldKey, id)
  {
    for i := 0 to |fields|
      invariant Drop(fields, FieldKey, id) == fields[..i] + Drop(fields[i..], FieldKey, id)
    {
      assert fields[i..][0] == fields[i] && fields[i..][1..] == fields[i + 1..];
      if fields[i].id == id {
        return fields[..i] + fields[i + 1..];
      }
      var rest := Drop(fields[i + 1..], FieldKey, id);
      assert fields[..i] + ([fields[i]] + rest) == fields[..i + 1] + rest;
    }
    kept := fields;
  }

  method ReplaceField(fields: seq<Field>, id: string, definition: Field) returns (changed: seq<Field>)
    ensures changed == Put(fields, FieldKey, id, definition)
  {
    for i := 0 to |fields|
      invariant Put(fields, FieldKey, id, definition) == fields[..i] + Put(fields[i..], FieldKey, id, definition)
    {
      assert fields[i..][0] == fields[i] && fields[i..][1..] == fields[i + 1..];
      if fields[i].id == id {
        return fields[..i] + ([definition] + fields[i + 1..]);
      }
      var rest := Put(fields[i + 1..], FieldKey, id, definition);
      assert fields[..i] + ([fields[i]] + rest) == fields[..i + 1] + rest;
    }
    changed := fields;
  }

  method ApplyOperations(codec: Codec, current: Collection, ops: seq<Operation>) returns (r: Result<Collection, Error>)
    ensures r == Replay(codec, current, ops)
  {
    var target := current;
    assert ops[0..] == ops;
    for i := 0 to |ops|
      invariant ApplyAll(current, ops) == ApplyAll(target, ops[i..])
    {
      hide ValidModel;
      var op := ops[i];
      ApplyOneMore(target, ops, i);
      if op.kind == OnIndex {
        match ApplyToIndexes(target, op) {
          case Err(e) => return Err(e);
          case Ok(changed) => target := changed;
        }
      } else {
        var found := FieldById(target.fields, op.target);
        if op.action == Remove {
          if found.None? || found.value.system || (target.kind == Auth && found.value.name == EMAIL) {
            return Err(InvalidArgument);
          }
          var kept := RemoveField(target.fields, op.target);
          target := target.(fields := kept);
        } else if !op.definition.FieldDefinition? {
          return Err(InvalidArgument);
        } else if op.action == Add {
          if found.Some? {
            return Err(Conflict);
          }
          target := target.(fields := target.fields + [op.definition.field]);
        } else {
          var definition := op.definition.field;
          if found.None? || found.value.system {
            return Err(NotFound);
          }
          if target.kind == Auth && found.value.name == EMAIL
             && (definition.name != EMAIL || definition.kind != Text || !definition.required || !definition.unique) {
            return Err(InvalidArgument);
          }
          var changed := ReplaceField(target.fields, op.target, definition);
          target := target.(fields := changed);
        }
      }
    }
    var valid := ValidateModel(codec, target);
    r := if valid then Result.Ok(target) else Err(InvalidArgument);
  }

  /* ----- what one operation changes ----- */

  // A field or an index, by ID.
  function Lookup(c: Collection, onIndex: bool, id: string): Definition {
    if onIndex then
      match IndexById(c.indexes, id)
      case None => NoDefinition
      case Some(x) => IndexDefinition(x)
    else
      match FieldById(c.fields, id)
      case None => NoDefinition
      case Some(f) => FieldDefinition(f)
  }

  predicate Touches(op: Operation, onIndex: bool, id: string) {
    (op.kind == OnIndex) == onIndex && op.target == id
  }

  predicate DistinctIds(c: Collection) {
    Distinct(c.fields, FieldKey) && Distinct(c.indexes, IndexKey)
  }

  lemma SystemIdIsNotOrdinary(f: Field)
    requires SystemFieldOk(f)
    ensures !ValidId(f.id, "fld_")
  {
    assert FieldByName(SYSTEM_FIELDS, f.name).value in SYSTEM_FIELDS;
    assert |SYSTEM_FIELDS[0].id| == 13 && |SYSTEM_FIELDS[1].id| == 21 && |SYSTEM_FIELDS[2].id| == 21;
  }

  lemma ValidModelHasDistinctIds(codec: Codec, c: Collection)
    requires ValidModel(codec, c)
    ensures DistinctIds(c)
  {
    hide FieldOk, SystemFieldOk, ValidId, Lower, HasEmail, IndexOk;
    forall i, j | 0 <= i < j < |c.fields|
      ensures c.fields[i].id != c.fields[j].id
    {
      if c.fields[i].system && !c.fields[j].system {
        SystemIdIsNotOrdinary(c.fields[i]);
      } else if !c.fields[i].system && c.fields[j].system {
        SystemIdIsNotOrdinary(c.fields[j]);
      }
    }
  }

  lemma ApplyOneLooksUp(codec: Codec, c: Collection, op: Operation, onIndex: bool, id: string)
    requires DistinctIds(c) && OperationOk(codec, op) && ApplyOne(c, op).Ok?
    ensures var d := ApplyOne(c, op).value;
            && DistinctIds(d) && (d.id, d.name, d.kind, d.version) == (c.id, c.name, c.kind, c.version)
            && Lookup(d, onIndex, id) == if Touches(op, onIndex, id) then op.definition else Lookup(c, onIndex, id)
  {
    hide OperationOk, ApplyToFields, ApplyToIndexes, Find, Distinct;
    if op.kind == OnIndex { IndexesLookUp(codec, c, op, id); } else { FieldsLookUp(codec, c, op, id); }
  }

  lemma FieldsLookUp(codec: Codec, c: Collection, op: Operation, id: string)
    requires op.kind != OnIndex && DistinctIds(c) && OperationOk(codec, op) && ApplyToFields(c, op).Ok?
    ensures var d := ApplyToFields(c, op).value;
            && d == c.(fields := d.fields) && DistinctIds(d)
            && Lookup(d, false, id) == if op.target == id then op.definition else Lookup(c, false, id)
  {
    hide ValidId, FieldOk, IndexOk, Find, Distinct;
    match op.action
    case Remove => FindDrop(c.fields, FieldKey, op.target, id);
    case Add => FindAppend(c.fields, FieldKey, op.definition.field, id);
    case Update =>
      FindPut(c.fields, FieldKey, op.target, op.definition.field, id);
      PutKeepsDistinct(c.fields, FieldKey, op.target, op.definition.field);
  }

  lemma IndexesLookUp(codec: Codec, c: Collection, op: Operation, id: string)
    requires op.kind == OnIndex && DistinctIds(c) && OperationOk(codec, op) && ApplyToIndexes(c, op).Ok?
    ensures var d := ApplyToIndexes(c, op).value;
            && d == c.(indexes := d.indexes) && DistinctIds(d)
            && Lookup(d, true, id) == if op.target == id then op.definition else Lookup(c, true, id)
  {
    hide ValidId, FieldOk, IndexOk, Find, Distinct;
    match op.action
    case Remove => FindDrop(c.indexes, IndexKey, op.target, id);
    case Add => FindAppend(c.indexes, IndexKey, op.definition.index, id);
    case Update =>
      FindPut(c.indexes, IndexKey, op.target, op.definition.index, id);
      PutKeepsDistinct(c.indexes, IndexKey, op.target, op.definition.index);
  }

  predicate OperationsOk(codec: Codec, ops: seq<Operation>) {
    forall op | op in ops :: OperationOk(codec, op)
  }

  // What no operation names is untouched.
  lemma {:induction false} UntouchedStays(codec: Codec, c: Collection, ops: seq<Operation>, onIndex: bool, id: string)
    requires DistinctIds(c) && OperationsOk(codec, ops) && ApplyAll(c, ops).Ok?
    ensures var d := ApplyAll(c, ops).value;
            && (d.id, d.name, d.kind, d.version) == (c.id, c.name, c.kind, c.version)
            && ((forall op | op in ops :: !Touches(op, onIndex, id)) ==> Lookup(d, onIndex, id) == Lookup(c, onIndex, id))
    decreases |ops|
  {
    hide OperationOk, ApplyOne, Lookup, Touches;
    if ops != [] {
      ApplyOneLooksUp(codec, c, ops[0], onIndex, id);
      UntouchedStays(codec, ApplyOne(c, ops[0]).value, ops[1..], onIndex, id);
    }
  }

  /* ----- the diff ----- */

  function NameOf(d: Definition): string {
    match d
    case NoDefinition => ""
    case FieldDefinition(f) => f.name
    case IndexDefinition(x) => x.name
  }

  function ItemOf(current: Collection, target: Collection, op: Operation): DiffItem {
    var before, after := Lookup(current, op.kind == OnIndex, op.target), Lookup(target, op.kind == OnIndex, op.target);
    DiffItem(op.kind, op.action, op.target, if after == NoDefinition then NameOf(before) else NameOf(after), before, after)
  }

  function Diff(current: Collection, target: Collection, ops: seq<Operation>): (diff: seq<DiffItem>)
    ensures |diff| == |ops|
  {
    seq(|ops|, i requires 0 <= i < |ops| => ItemOf(current, target, ops[i]))
  }

  method BuildDiff(current: Collection, target: Collection, ops: seq<Operation>) returns (diff: seq<DiffItem>)
    ensures diff == Diff(current, target, ops)
  {
    diff := [];
    for i := 0 to |ops|
      invariant diff == Diff(current, target, ops)[..i]
    {
      var op := ops[i];
      var item := DiffItem(op.kind, op.action, op.target, "", NoDefinition, NoDefinition);
      if op.kind == OnIndex {
        var before, after := IndexById(current.indexes, op.target), IndexById(target.indexes, op.target);
        if before.Some? { item := item.(name := before.value.name, before := IndexDefinition(before.value)); }
        if after.Some? { item := item.(name := after.value.name, after := IndexDefinition(after.value)); }
      } else {
        var before, after := FieldById(current.fields, op.target), FieldById(target.fields, op.target);
        if before.Some? { item := item.(name := before.value.name, before := FieldDefinition(before.value)); }
        if after.Some? { item := item.(name := after.value.name, after := FieldDefinition(after.value)); }
      }
      diff := diff + [item];
    }
  }

  // Reading a diff as a patch of one ID.
  function Patch(diff: seq<DiffItem>, onIndex: bool, id: string, value: Definition): Definition {
    if diff == [] then value
    else Patch(diff[1..], onIndex, id, if (diff[0].kind == OnIndex) == onIndex && diff[0].target == id then diff[0].after else value)
  }

  lemma {:induction false} PatchReachesTarget(current: Collection, target: Collection, ops: seq<Operation>, onIndex: bool, id: string,
                                              value: Definition)
    requires (forall op | op in ops :: !Touches(op, onIndex, id)) ==> value == Lookup(target, onIndex, id)
    ensures Patch(Diff(current, target, ops), onIndex, id, value) == Lookup(target, onIndex, id)
    decreases |ops|
  {
    hide Lookup;
    if ops != [] {
      assert Diff(current, target, ops)[1..] == Diff(current, target, ops[1..]);
      PatchReachesTarget(current, target, ops[1..], onIndex, id, if Touches(ops[0], onIndex, id) then Lookup(target, onIndex, id) else value);
    }
  }

  // The diff of a replay, as a patch, takes every ID of the current model to the target, and names every ID that changed.
  lemma DiffIsAPatch(codec: Codec, current: Collection, ops: seq<Operation>, onIndex: bool, id: string)
    requires ValidModel(codec, current) && OperationsOk(codec, ops) && Replay(codec, current, ops).Ok?
    ensures var target := Replay(codec, current, ops).value;
            && Patch(Diff(current, target, ops), onIndex, id, Lookup(current, onIndex, id)) == Lookup(target, onIndex, id)
            && (Lookup(current, onIndex, id) != Lookup(target, onIndex, id) ==>
                  exists item :: item in Diff(current, target, ops) && item.target == id && (item.kind == OnIndex) == onIndex
                                 && item.before == Lookup(current, onIndex, id) && item.after == Lookup(target, onIndex, id))
  {
    hide ValidModel, OperationOk, Lookup;
    ValidModelHasDistinctIds(codec, current);
    UntouchedStays(codec, current, ops, onIndex, id);
    var target := Replay(codec, current, ops).value;
    PatchReachesTarget(current, target, ops, onIndex, id, Lookup(current, onIndex, id));
    if Lookup(current, onIndex, id) != Lookup(target, onIndex, id) {
      var op :| op in ops && Touches(op, onIndex, id);
      var i :| 0 <= i < |ops| && ops[i] == op;
      assert Diff(current, target, ops)[i] == ItemOf(current, target, op);
    }
  }

  /* ----- what no operation can change ----- */

  function SystemFieldsOf(fields: seq<Field>): seq<Field> {
    if fields == [] then [] else (if fields[0].system then [fields[0]] else []) + SystemFieldsOf(fields[1..])
  }

  lemma {:induction false} DropKeepsSystem(fields: seq<Field>, id: string)
    requires Find(fields, FieldKey, id).Some? && !Find(fields, FieldKey, id).value.system
    ensures SystemFieldsOf(Drop(fields, FieldKey, id)) == SystemFieldsOf(fields)
  {
    if fields[0].id != id {
      DropKeepsSystem(fields[1..], id);
      var dropped := Drop(fields[1..], FieldKey, id);
      assert ([fields[0]] + dropped)[0] == fields[0] && ([fields[0]] + dropped)[1..] == dropped;
    }
  }

  lemma {:induction false} PutKeepsSystem(fields: seq<Field>, id: string, f: Field)
    requires Find(fields, FieldKey, id).Some? && !Find(fields, FieldKey, id).value.system && !f.system
    ensures SystemFieldsOf(Put(fields, FieldKey, id, f)) == SystemFieldsOf(fields)
  {
    if fields[0].id != id {
      PutKeepsSystem(fields[1..], id, f);
      var put := Put(fields[1..], FieldKey, id, f);
      assert ([fields[0]] + put)[0] == fields[0] && ([fields[0]] + put)[1..] == put;
    } else {
      assert ([f] + fields[1..])[0] == f && ([f] + fields[1..])[1..] == fields[1..];
    }
  }

  lemma {:induction false} AppendKeepsSystem(fields: seq<Field>, f: Field)
    requires !f.system
    ensures SystemFieldsOf(fields + [f]) == SystemFieldsOf(fields)
  {
    if fields == [] {
      assert [] + [f] == [f];
    } else {
      AppendKeepsSystem(fields[1..], f);
      assert (fields + [f])[0] == fields[0] && (fields + [f])[1..] == fields[1..] + [f];
    }
  }

  // The field that is the email of an Auth collection.
  predicate EmailAt(c: Collection, id: string) {
    var found := FieldById(c.fields, id);
    found.Some? && IsEmail(found.value)
  }

  lemma ApplyOneKeepsLocked(codec: Codec, c: Collection, op: Operation, email: string)
    requires DistinctIds(c) && OperationOk(codec, op) && ApplyOne(c, op).Ok?
    ensures SystemFieldsOf(ApplyOne(c, op).value.fields) == SystemFieldsOf(c.fields)
    ensures c.kind == Auth && EmailAt(c, email) ==> EmailAt(ApplyOne(c, op).value, email)
  {
    hide ValidId, IndexOk, DefaultOk, FileRulesOk, Reserved, ValidName;
    ApplyOneLooksUp(codec, c, op, false, email);
    if op.kind != OnIndex {
      match op.action
      case Remove => DropKeepsSystem(c.fields, op.target);
      case Add => AppendKeepsSystem(c.fields, op.definition.field);
      case Update => PutKeepsSystem(c.fields, op.target, op.definition.field);
    }
  }

  lemma {:induction false} ApplyAllKeepsLocked(codec: Codec, c: Collection, ops: seq<Operation>, email: string)
    requires DistinctIds(c) && OperationsOk(codec, ops) && ApplyAll(c, ops).Ok?
    ensures SystemFieldsOf(ApplyAll(c, ops).value.fields) == SystemFieldsOf(c.fields)
    ensures c.kind == Auth && EmailAt(c, email) ==> EmailAt(ApplyAll(c, ops).value, email)
    decreases |ops|
  {
    hide OperationOk, ApplyOne, EmailAt, SystemFieldsOf;
    if ops != [] {
      ApplyOneKeepsLocked(codec, c, ops[0], email);
      ApplyOneLooksUp(codec, c, ops[0], false, email);
      ApplyAllKeepsLocked(codec, ApplyOne(c, ops[0]).value, ops[1..], email);
    }
  }

  // In a valid Auth model the email field is the one at its ID.
  lemma EmailOfValidModel(codec: Codec, c: Collection)
    ensures ValidModel(codec, c) && c.kind == Auth ==>
              && HasEmail(c.fields) && FieldByName(c.fields, EMAIL).Some? && EmailAt(c, FieldByName(c.fields, EMAIL).value.id)
              && forall id | EmailAt(c, id) :: id == FieldByName(c.fields, EMAIL).value.id
  {
    hide FieldsOk, ValidId, IndexesOk, HasIdField;
    if ValidModel(codec, c) && c.kind == Auth {
      ValidModelHasDistinctIds(codec, c);
      var email := FieldByName(c.fields, EMAIL).value;
      FoundIsItem(c.fields, FieldKey, email);
      forall id | EmailAt(c, id)
        ensures id == email.id
      {
        SameNameSameField(codec, c.fields, FieldById(c.fields, id).value, email);
      }
    }
  }

  lemma SameNameSameField(codec: Codec, fields: seq<Field>, f: Field, g: Field)
    requires FieldsOk(codec, fields) && f in fields && g in fields && f.system == g.system && f.name == g.name
    ensures f == g
  {
    hide FieldOk, SystemFieldOk, ValidId, Lower;
    var i :| 0 <= i < |fields| && fields[i] == f;
    var j :| 0 <= j < |fields| && fields[j] == g;
  }

  // A replay keeps the system fields as they are, and the email field of an Auth collection: its ID, name, type,
  // and that it is required and unique.
  lemma ReplayKeepsLocked(codec: Codec, c: Collection, ops: seq<Operation>)
    requires ValidModel(codec, c) && OperationsOk(codec, ops) && Replay(codec, c, ops).Ok?
    ensures var d := Replay(codec, c, ops).value;
            && ValidModel(codec, d) && (d.id, d.name, d.kind, d.version) == (c.id, c.name, c.kind, c.version)
            && SystemFieldsOf(d.fields) == SystemFieldsOf(c.fields)
            && (c.kind == Auth ==> FieldByName(c.fields, EMAIL).Some? && FieldByName(d.fields, EMAIL).Some?
                                   && FieldByName(d.fields, EMAIL).value.id == FieldByName(c.fields, EMAIL).value.id
                                   && IsEmail(FieldByName(d.fields, EMAIL).value))
  {
    hide ValidModel, OperationOk, EmailAt, SystemFieldsOf;
    ValidModelHasDistinctIds(codec, c);
    UntouchedStays(codec, c, ops, false, "");
    if c.kind == Auth {
      EmailOfValidModel(codec, c);
      ApplyAllKeepsLocked(codec, c, ops, FieldByName(c.fields, EMAIL).value.id);
      EmailOfValidModel(codec, Replay(codec, c, ops).value);
    } else {
      ApplyAllKeepsLocked(codec, c, ops, "");
    }
  }
}
