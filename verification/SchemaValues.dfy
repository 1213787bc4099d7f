/**
 Evaluating a pending change against the stored records: which preconditions fail, and what an unblocked change guarantees.
 */
module SchemaValues {
  import opened Prelude
  import opened Keyed
  import opened SchemaModel
  import opened SchemaOperations
  import CronText

  // A column value as the database returns it.
  datatype Cell = Nothing | OfText(text: string) | OfInt(whole: int) | OfFloat(float: real)

  // A record's columns, by field ID.
  type Record = map<string, Cell>

  datatype Failure = InvalidModel | RelationTargetMissing(name: string) | RequiredFieldNeedsDefault(name: string)
                   | FieldValueIncompatible(name: string) | UniqueValuesConflict

  datatype Risk = Safe | Review | RiskBlocked

  datatype Preview = Preview(risk: Risk, diff: seq<DiffItem>, failures: seq<Failure>)

  function CellOf(record: Record, id: string): Cell {
    if id in record then record[id] else Nothing
  }

  /* ----- reading stored values ----- */

  function IntText(n: int): string {
    if n < 0 then "-" + CronText.Itoa(-n) else CronText.Itoa(n)
  }

  function DecodeText(codec: Codec, field: Field, text: string): Option<Value> {
    match field.kind
    case Text => Some(Str(text))
    case DateTime => Some(Str(text))
    case File => Some(Str(text))
    case Number => if codec.number(text).Some? then Some(Num(codec.number(text).value)) else None
    case Boolean => if text == "0" || text == "false" then Some(Bool(false)) else if text == "1" || text == "true" then Some(Bool(true)) else None
    case Json => codec.json(text)
    case Files => codec.json(text)
    case Relation => if codec.json(text).Some? then codec.json(text) else Some(Str(text))
    case _ => None
  }

  function Decode(codec: Codec, field: Field, cell: Cell): Option<Value> {
    match cell
    case Nothing => Some(Null)
    case OfText(text) => DecodeText(codec, field, text)
    case OfInt(n) =>
      if field.kind == Boolean then if n == 0 || n == 1 then Some(Bool(n == 1)) else None
      else if field.kind == Number then Some(Num(n as real))
      else DecodeText(codec, field, IntText(n))
    case OfFloat(x) => if field.kind == Number then Some(Num(x)) else DecodeText(codec, field, codec.float(x))
  }

  predicate Reads(codec: Codec, field: Field, cell: Cell) {
    var value := Decode(codec, field, cell);
    value.Some? && Accepts(codec, field, value.value, true)
  }

  // Every ordinary field of the model reads a proper value in the record.
  predicate Fits(codec: Codec, fields: seq<Field>, record: Record) {
    forall f | f in fields && !f.system :: Reads(codec, f, CellOf(record, f.id))
  }

  /* ----- preconditions ----- */

  predicate NoDefault(field: Field) {
    field.default == Absent || HasNullDefault(field)
  }

  function RelationFailures(collections: set<string>, field: Field): seq<Failure> {
    if field.kind == Relation && (field.relation.None? || field.relation.value.target !in collections)
    then [RelationTargetMissing(field.name)]
    else []
  }

  predicate AllRead(codec: Codec, field: Field, records: seq<Record>) {
    forall r | r in records :: Reads(codec, field, CellOf(r, field.id))
  }

  function ValueFailures(codec: Codec, current: Collection, field: Field, records: seq<Record>): seq<Failure> {
    match FieldById(current.fields, field.id)
    case None => if records != [] && field.required && NoDefault(field) then [RequiredFieldNeedsDefault(field.name)] else []
    case Some(previous) => if previous == field || AllRead(codec, field, records) then [] else [FieldValueIncompatible(field.name)]
  }

  function FieldFailures(codec: Codec, collections: set<string>, current: Collection, fields: seq<Field>, records: seq<Record>): seq<Failure> {
    if fields == [] then []
    else
      (if fields[0].system then [] else RelationFailures(collections, fields[0]) + ValueFailures(codec, current, fields[0], records))
      + FieldFailures(codec, collections, current, fields[1..], records)
  }

  // What a unique constraint compares of one field: the stored value, or for a new field the default. Null never conflicts.
  function KeyPart(current: Collection, target: Collection, record: Record, id: string): Option<Value> {
    if FieldById(current.fields, id).Some? then
      match CellOf(record, id)
      case Nothing => None
      case OfText(text) => Some(Str(text))
      case OfInt(n) => Some(Num(n as real))
      case OfFloat(x) => Some(Num(x))
    else
      match FieldById(target.fields, id)
      case Some(f) => if f.default.Given? && f.default.value != Null then Some(f.default.value) else None
      case None => None
  }

  predicate SameKey(current: Collection, target: Collection, ids: seq<string>, r: Record, s: Record) {
    forall id | id in ids :: KeyPart(current, target, r, id).Some? && KeyPart(current, target, r, id) == KeyPart(current, target, s, id)
  }

  predicate Repeats(current: Collection, target: Collection, ids: seq<string>, records: seq<Record>) {
    exists i, j | 0 <= i < j < |records| :: SameKey(current, target, ids, records[i], records[j])
  }

  predicate HasConflict(current: Collection, target: Collection, records: seq<Record>) {
    || (exists f | f in target.fields :: !f.system && f.unique && Repeats(current, target, [f.id], records))
    || (exists x | x in target.indexes :: x.unique && Repeats(current, target, x.fields, records))
  }

  function Failures(codec: Codec, collections: set<string>, current: Collection, target: Collection, records: seq<Record>): seq<Failure> {
    FieldFailures(codec, collections, current, target.fields, records)
    + if HasConflict(current, target, records) then [UniqueValuesConflict] else []
  }

  // A removed field, or a change to what a field means, needs a review; new fields and indexes do not.
  predicate NeedsReview(current: Collection, target: Collection, item: DiffItem) {
    && item.kind != OnIndex
    && var before, after := FieldById(current.fields, item.target), FieldById(target.fields, item.target);
       && before.Some?
       && (after.None? || (before.value.kind, before.value.name, before.value.required, before.value.unique, before.value.validation,
                           before.value.relation)
                          != (after.value.kind, after.value.name, after.value.required, after.value.unique, after.value.validation,
                              after.value.relation))
  }

  function Evaluate(codec: Codec, collections: set<string>, current: Collection, ops: seq<Operation>, records: seq<Record>): Preview {
    match Replay(codec, current, ops)
    case Err(_) => Preview(RiskBlocked, [], [InvalidModel])
    case Ok(target) =>
      var diff := Diff(current, target, ops);
      var failures := Failures(codec, collections, current, target, records);
      Preview(if failures != [] then RiskBlocked else if exists item | item in diff :: NeedsReview(current, target, item) then Review else Safe,
              diff, failures)
  }

  // The index loop's error branch is dead: in a valid model every indexed field is found, and is an ordinary one.
  lemma IndexedFieldsAreFound(codec: Codec, target: Collection, x: Index, id: string)
    requires ValidModel(codec, target) && x in target.indexes && id in x.fields
    ensures FieldById(target.fields, id).Some? && !FieldById(target.fields, id).value.system
  {
    hide FieldsOk, IndexOk, ValidId, HasEmail;
    ValidModelHasDistinctIds(codec, target);
    var f :| f in target.fields && !f.system && f.id == id;
    FoundIsItem(target.fields, FieldKey, f);
  }

  // What an addition names is not in the model it is applied to, nor in any model before it when all are additions.
  lemma {:induction false} AddedIsNew(codec: Codec, c: Collection, ops: seq<Operation>, op: Operation)
    requires DistinctIds(c) && OperationsOk(codec, ops) && ApplyAll(c, ops).Ok? && op in ops && op.kind != OnIndex
    requires forall x | x in ops :: x.kind == OnIndex || x.action == Add
    ensures FieldById(c.fields, op.target).None?
    decreases |ops|
  {
    hide OperationOk;
    if op != ops[0] {
      ApplyOneLooksUp(codec, c, ops[0], false, op.target);
      hide ApplyOne;
      AddedIsNew(codec, ApplyOne(c, ops[0]).value, ops[1..], op);
    }
  }

  // A change that only adds fields, or only concerns indexes, never needs a review; neither does one without operations.
  lemma AdditionsNeedNoReview(codec: Codec, collections: set<string>, current: Collection, ops: seq<Operation>, records: seq<Record>)
    requires ValidModel(codec, current) && OperationsOk(codec, ops)
    requires forall op | op in ops :: op.kind == OnIndex || op.action == Add
    ensures Evaluate(codec, collections, current, ops, records).risk != Review
  {
    hide ValidModel, OperationsOk, ApplyAll, Failures;
    if Replay(codec, current, ops).Ok? {
      ValidModelHasDistinctIds(codec, current);
      var target := Replay(codec, current, ops).value;
      forall item | item in Diff(current, target, ops)
        ensures !NeedsReview(current, target, item)
      {
        var i :| 0 <= i < |ops| && item == Diff(current, target, ops)[i];
        if ops[i].kind != OnIndex { AddedIsNew(codec, current, ops, ops[i]); }
      }
    }
  }

  /* ----- the checks as loops ----- */

  method CheckExistingValues(codec: Codec, field: Field, records: seq<Record>) returns (ok: bool)
    ensures ok == AllRead(codec, field, records)
  {
    for i := 0 to |records|
      invariant forall j | 0 <= j < i :: Reads(codec, field, CellOf(records[j], field.id))
    {
      var value := Decode(codec, field, CellOf(records[i], field.id));
      var accepted := false;
      if value.Some? {
        accepted := ValidateFieldValue(codec, field, value.value, true);
      }
      if !accepted {
        assert records[i] in records && !Reads(codec, field, CellOf(records[i], field.id));
        return false;
      }
    }
    ok := true;
  }

  // One field of the target against the records.
  method CheckField(codec: Codec, collections: set<string>, current: Collection, field: Field, records: seq<Record>)
    returns (failures: seq<Failure>)
    ensures failures == RelationFailures(collections, field) + ValueFailures(codec, current, field, records)
  {
    failures := [];
    if field.kind == Relation && (field.relation.None? || field.relation.value.target !in collections) {
      failures := failures + [RelationTargetMissing(field.name)];
    }
    var previous := FieldById(current.fields, field.id);
    if previous.None? {
      if records != [] && field.required && NoDefault(field) {
        failures := failures + [RequiredFieldNeedsDefault(field.name)];
      }
    } else if previous.value != field {
      var ok := CheckExistingValues(codec, field, records);
      if !ok {
        failures := failures + [FieldValueIncompatible(field.name)];
      }
    }
  }

  method CheckTargetPreconditions(codec: Codec, collections: set<string>, current: Collection, target: Collection, records: seq<Record>)
    returns (failures: seq<Failure>)
    ensures failures == Failures(codec, collections, current, target, records)
  {
    hide HasConflict, RelationFailures, ValueFailures;
    failures := [];
    assert target.fields[0..] == target.fields;
    for i := 0 to |target.fields|
      invariant failures + FieldFailures(codec, collections, current, target.fields[i..], records)
                == FieldFailures(codec, collections, current, target.fields, records)
    {
      var field := target.fields[i];
      assert target.fields[i..][0] == field && target.fields[i..][1..] == target.fields[i + 1..];
      ghost var rest := FieldFailures(codec, collections, current, target.fields[i + 1..], records);
      if !field.system {
        var found := CheckField(codec, collections, current, field, records);
        assert failures + (found + rest) == (failures + found) + rest;
        failures := failures + found;
      } else {
        assert [] + rest == rest;
      }
    }
    if HasConflict(current, target, records) {
      failures := failures + [UniqueValuesConflict];
    }
  }

  /* ----- what an unblocked change guarantees ----- */

  // What a record gives for a target field: its stored value read anew, or the default of a new field, or null.
  function ReadAfter(codec: Codec, current: Collection, field: Field, record: Record): Option<Value> {
    if FieldById(current.fields, field.id).Some? then Decode(codec, field, CellOf(record, field.id))
    else if field.default.Given? then Some(field.default.value)
    else Some(Null)
  }

  lemma {:induction false} NoFailureOfField(codec: Codec, collections: set<string>, current: Collection, fields: seq<Field>,
                                            records: seq<Record>, f: Field)
    requires FieldFailures(codec, collections, current, fields, records) == [] && f in fields && !f.system
    ensures RelationFailures(collections, f) == [] && ValueFailures(codec, current, f, records) == []
  {
    hide RelationFailures, ValueFailures;
    if f != fields[0] {
      NoFailureOfField(codec, collections, current, fields[1..], records, f);
    }
  }

  // If a change is not blocked and every record fitted the current model, then every record gives every ordinary field of
  // the target a value that satisfies its rules, required included; relations point to existing collections,
  // and no two records agree on the non-null values of a unique field or index.
  lemma UnblockedChangeFits(codec: Codec, collections: set<string>, current: Collection, ops: seq<Operation>, records: seq<Record>)
    ensures Evaluate(codec, collections, current, ops, records).risk != RiskBlocked ==> Replay(codec, current, ops).Ok?
    ensures Evaluate(codec, collections, current, ops, records).risk != RiskBlocked && (forall r | r in records :: Fits(codec, current.fields, r)) ==>
            var target := Replay(codec, current, ops).value;
            && (forall f, r | f in target.fields && !f.system && r in records ::
                  var value := ReadAfter(codec, current, f, r); value.Some? && Accepts(codec, f, value.value, true))
            && (forall f | f in target.fields && !f.system && f.kind == Relation :: f.relation.Some? && f.relation.value.target in collections)
            && (forall f | f in target.fields && !f.system && f.unique :: !Repeats(current, target, [f.id], records))
            && (forall x | x in target.indexes && x.unique :: !Repeats(current, target, x.fields, records))
  {
    hide Repeats, Reads, Decode, Accepts, Fits;
    if Evaluate(codec, collections, current, ops, records).risk != RiskBlocked && (forall r | r in records :: Fits(codec, current.fields, r)) {
      var target := Replay(codec, current, ops).value;
      forall f | f in target.fields && !f.system
        ensures f.kind == Relation ==> f.relation.Some? && f.relation.value.target in collections
        ensures forall r | r in records :: var value := ReadAfter(codec, current, f, r); value.Some? && Accepts(codec, f, value.value, true)
      {
        NoFailureOfField(codec, collections, current, target.fields, records, f);
        UnblockedFieldFits(codec, current, target, records, f);
      }
    }
  }

  lemma UnblockedFieldFits(codec: Codec, current: Collection, target: Collection, records: seq<Record>, f: Field)
    requires ValidModel(codec, target) && f in target.fields && !f.system && ValueFailures(codec, current, f, records) == []
    requires forall r | r in records :: Fits(codec, current.fields, r)
    ensures forall r | r in records :: var value := ReadAfter(codec, current, f, r); value.Some? && Accepts(codec, f, value.value, true)
  {
    hide Decode, TextOk, NumberOk, FileRulesOk, ValidId, Reserved, ValidName;
    assert FieldOk(codec, f);
    forall r | r in records
      ensures var value := ReadAfter(codec, current, f, r); value.Some? && Accepts(codec, f, value.value, true)
    {
      match FieldById(current.fields, f.id)
      case None =>
      case Some(previous) => assert Reads(codec, f, CellOf(r, f.id)) by { assert Fits(codec, current.fields, r); }
    }
  }

  /* ----- defaults as they are stored ----- */

  // What the projection writes for a default; the driver refuses a list of files.
  function StoreDefault(codec: Codec, field: Field, value: Value): Option<Cell> {
    if value == Null then Some(Nothing)
    else
      match field.kind
      case Json => Some(OfText(codec.encode(value)))
      case Relation =>
        if field.relation.Some? && IsMany(field.relation.value.cardinality) then Some(OfText(codec.encode(value))) else StorePlain(value)
      case _ => StorePlain(value)
  }

  function StorePlain(value: Value): Option<Cell> {
    match value
    case Str(text) => Some(OfText(text))
    case Num(number) => Some(OfFloat(number))
    case Bool(flag) => Some(OfInt(if flag then 1 else 0))
    case Null => Some(Nothing)
    case _ => None
  }

  // The default of a valid field, if its JSON reads back, reads back from the column as itself exactly unless the field
  // holds a list of files, which cannot be written at all, or is a single relation whose record ID is also the JSON text
  // of something else.
  lemma DefaultReadsBack(codec: Codec, field: Field)
    requires FieldOk(codec, field) && field.default.Given?
    requires codec.json(codec.encode(field.default.value)) == Some(field.default.value)
    ensures var value := field.default.value;
            var cell := StoreDefault(codec, field, value);
            (cell.Some? && Decode(codec, field, cell.value) == Some(value)) <==>
              value == Null
              || (field.kind != Files
                  && (field.kind == Relation && !IsMany(field.relation.value.cardinality) ==>
                        codec.json(value.text) == None || codec.json(value.text) == Some(value)))
  {
    hide ValidId, Reserved, ValidName, FileRulesOk, TextOk, NumberOk;
    if field.default.value.List? && field.kind == Files { assert StorePlain(field.default.value) == None; }
  }

  // A valid name that is not reserved.
  const SAMPLE_NAME := "f"

  lemma SampleNameOk()
    ensures ValidName(SAMPLE_NAME) && !Reserved(SAMPLE_NAME)
  {
    assert |Lower(SAMPLE_NAME)| == 1;
    forall s | s in SYSTEM_FIELDS
      ensures |Lower(s.name)| != 1
    {
    }
  }

  const FILES_DEFAULT := Given(List([Str("a.png")]), "[\"a.png\"]")

  // A field of files may have a list as its default, but that default cannot be written.
  lemma FilesDefaultIsRefused(codec: Codec)
    ensures var field := Field("", SAMPLE_NAME, Files, false, false, "", Absent, FILES_DEFAULT, None, false);
            FieldOk(codec, field) && StoreDefault(codec, field, field.default.value) == None
  {
    SampleNameOk();
    hide Reserved, ValidName;
    assert forall x | x in [Str("a.png")] :: x == Str("a.png");
  }

  // JSON that reads 12 as a number and "12" in quotes as a text.
  const DIGITS_CODEC := Codec(_ => false, _ => None,
                              t => if t == "12" then Some(Num(12.0)) else if t == "\"12\"" then Some(Str("12")) else None,
                              _ => false, _ => "", v => if v == Str("12") then "\"12\"" else "12")

  // A single relation may default to the text 12, which is written as it is and read back as the number.
  lemma RelationDefaultIsMisread(target: string)
    requires ValidId(target, "col_")
    ensures var field := Field("", SAMPLE_NAME, Relation, false, false, "", Absent, Given(Str("12"), "\"12\""), Some(Link(target, "one-to-one")), false);
            && FieldOk(DIGITS_CODEC, field)
            && DIGITS_CODEC.json(DIGITS_CODEC.encode(field.default.value)) == Some(field.default.value)
            && StoreDefault(DIGITS_CODEC, field, field.default.value) == Some(OfText("12"))
            && Decode(DIGITS_CODEC, field, OfText("12")) == Some(Num(12.0))
  {
    SampleNameOk();
    hide Reserved, ValidName, ValidId;
  }
}
