/**
 The schema of a collection: its fields and indexes, the rules a field puts on values, and what makes a model valid.
 The text parsers and printers of other libraries enter as a codec: whatever they accept, the results hold.
 */
module SchemaModel {
  import opened Prelude
  import opened Keyed

  datatype FieldType = Text | Number | Boolean | DateTime | Json | Relation | File | Files | Untyped | Unsupported

  datatype Value = Null | Str(text: string) | Num(number: real) | Bool(flag: bool) | List(items: seq<Value>) | Object(members: map<string, Value>)

  // Raw JSON of a field: absent, not JSON, or a value with its text without white space, by which definitions are compared.
  datatype Raw = Absent | Malformed | Given(value: Value, text: string)

  datatype Link = Link(target: string, cardinality: string)

  datatype Field = Field(id: string, name: string, kind: FieldType, required: bool, unique: bool, description: string,
                         validation: Raw, default: Raw, relation: Option<Link>, system: bool)

  datatype Index = Index(id: string, name: string, fields: seq<string>, unique: bool)

  datatype CollectionType = Normal | Auth

  datatype Collection = Collection(id: string, name: string, kind: CollectionType, fields: seq<Field>, indexes: seq<Index>, version: nat)

  // What other libraries make of a text, and the texts they make of a float and of a JSON value.
  datatype Codec = Codec(instant: string -> bool, number: string -> Option<real>, json: string -> Option<Value>, mime: string -> bool,
                         float: real -> string, encode: Value -> string)

  const MAXIMUM_FILES := 32
  const MAXIMUM_FILE_BYTES := 128 * 0x10_0000
  const MAXIMUM_MIME_TYPES := 16
  const ID_NAME := "id"
  const EMAIL := "email"

  const FieldKey: Field -> string := (f: Field) => f.id
  const NameKey: Field -> string := (f: Field) => f.name
  const IndexKey: Index -> string := (i: Index) => i.id

  function FieldById(fields: seq<Field>, id: string): Option<Field> { Find(fields, FieldKey, id) }

  function FieldByName(fields: seq<Field>, name: string): Option<Field> { Find(fields, NameKey, name) }

  function IndexById(indexes: seq<Index>, id: string): Option<Index> { Find(indexes, IndexKey, id) }

  function SystemField(id: string, name: string, kind: FieldType): Field {
    Field(id, name, kind, true, false, "", Absent, Absent, None, true)
  }

  const SYSTEM_FIELDS: seq<Field> := [SystemField("fld_system_id", ID_NAME, Text), SystemField("fld_system_created_at", "createdAt", DateTime),
                                      SystemField("fld_system_updated_at", "updatedAt", DateTime)]

  /* ----- names and IDs ----- */

  // A prefix and 32 hexadecimal digits.
  predicate ValidId(value: string, prefix: string) {
    prefix <= value && |value| == |prefix| + 32 && forall i | |prefix| <= i < |value| :: IsHex(value[i])
  }

  predicate IsLetter(c: char) {
    'A' <= c <= 'Z' || 'a' <= c <= 'z'
  }

  predicate ValidName(name: string) {
    1 <= |name| <= 63 && IsLetter(name[0]) && forall i | 0 <= i < |name| :: IsLetter(name[i]) || '0' <= name[i] <= '9' || name[i] == '_'
  }

  function LowerChar(c: char): char {
    if 'A' <= c <= 'Z' then (c as int + 32) as char else c
  }

  function Lower(s: string): string {
    seq(|s|, i requires 0 <= i < |s| => LowerChar(s[i]))
  }

  /* ----- the rules a field puts on values ----- */

  function Rule(rules: map<string, Value>, name: string): Option<real> {
    if name in rules && rules[name].Num? then Some(rules[name].number) else None
  }

  predicate TextOk(validation: Raw, text: string) {
    match validation
    case Absent => true
    case Malformed => false
    case Given(Object(rules), _) =>
      && (Rule(rules, "minLength").Some? ==> Rule(rules, "minLength").value <= |text| as real)
      && (Rule(rules, "maxLength").Some? ==> |text| as real <= Rule(rules, "maxLength").value)
      && ("enum" in rules && rules["enum"].List? ==> Str(text) in rules["enum"].items)
    case Given(value, _) => value.Null?
  }

  predicate NumberOk(validation: Raw, number: real) {
    match validation
    case Absent => true
    case Malformed => false
    case Given(Object(rules), _) =>
      && (Rule(rules, "min").Some? ==> Rule(rules, "min").value <= number)
      && (Rule(rules, "max").Some? ==> number <= Rule(rules, "max").value)
    case Given(value, _) => value.Null?
  }

  // The rules of a text field, the list of allowed values searched in a loop.
  method ValidateText(validation: Raw, text: string) returns (ok: bool)
    ensures ok == TextOk(validation, text)
  {
    match validation {
      case Absent => return true;
      case Malformed => return false;
      case Given(value, _) =>
        if !value.Object? {
          return value.Null?;
        }
        var rules := value.members;
        var least, most := Rule(rules, "minLength"), Rule(rules, "maxLength");
        if least.Some? && |text| as real < least.value {
          return false;
        }
        if most.Some? && |text| as real > most.value {
          return false;
        }
        if "enum" in rules && rules["enum"].List? {
          var allowed := rules["enum"].items;
          for i := 0 to |allowed|
            invariant Str(text) !in allowed[..i]
          {
            if allowed[i] == Str(text) {
              return true;
            }
          }
          assert allowed[..|allowed|] == allowed;
          return false;
        }
        return true;
    }
  }

  // The rules say what they are named for.
  lemma RulesMean(least: real, most: real, texts: seq<string>, rules: string, text: string, number: real)
    ensures var allowed := seq(|texts|, i requires 0 <= i < |texts| => Str(texts[i]));
            TextOk(Given(Object(map["minLength" := Num(least), "maxLength" := Num(most), "enum" := List(allowed)]), rules), text)
            <==> least <= |text| as real <= most && text in texts
    ensures NumberOk(Given(Object(map["min" := Num(least), "max" := Num(most)]), rules), number) <==> least <= number <= most
  {
    var allowed := seq(|texts|, i requires 0 <= i < |texts| => Str(texts[i]));
    assert forall i | 0 <= i < |texts| :: allowed[i] == Str(texts[i]);
    if text in texts {
      var i :| 0 <= i < |texts| && texts[i] == text;
      assert allowed[i] == Str(text);
    }
  }

  predicate IsMany(cardinality: string) {
    cardinality == "one-to-many" || cardinality == "many-to-many"
  }

  predicate Accepts(codec: Codec, field: Field, value: Value, enforceRequired: bool) {
    if value == Null then !(enforceRequired && field.required)
    else
      match field.kind
      case Text => value.Str? && TextOk(field.validation, value.text)
      case DateTime => value.Str? && codec.instant(value.text)
      case File => value.Str?
      case Number => value.Num? && NumberOk(field.validation, value.number)
      case Boolean => value.Bool?
      case Json => true
      case Relation =>
        field.relation.Some?
        && if IsMany(field.relation.value.cardinality) then value.List? && forall x | x in value.items :: x.Str? else value.Str?
      case Files => value.List? && |value.items| <= MAXIMUM_FILES && forall x | x in value.items :: x.Str? && x.text != ""
      case _ => false
  }

  // A value under its field's rules, with the items of a list in turn.
  method ValidateFieldValue(codec: Codec, field: Field, value: Value, enforceRequired: bool) returns (ok: bool)
    ensures ok == Accepts(codec, field, value, enforceRequired)
  {
    if value == Null {
      return !(enforceRequired && field.required);
    }
    match field.kind {
      case Text =>
        if !value.Str? {
          return false;
        }
        ok := ValidateText(field.validation, value.text);
      case DateTime => ok := value.Str? && codec.instant(value.text);
      case File => ok := value.Str?;
      case Number => ok := value.Num? && NumberOk(field.validation, value.number);
      case Boolean => ok := value.Bool?;
      case Json => ok := true;
      case Relation =>
        if field.relation.None? {
          return false;
        }
        if !IsMany(field.relation.value.cardinality) {
          return value.Str?;
        }
        if !value.List? {
          return false;
        }
        for i := 0 to |value.items|
          invariant forall j | 0 <= j < i :: value.items[j].Str?
        {
          if !value.items[i].Str? {
            return false;
          }
        }
        ok := true;
      case Files =>
        if !value.List? || |value.items| > MAXIMUM_FILES {
          return false;
        }
        for i := 0 to |value.items|
          invariant forall j | 0 <= j < i :: value.items[j].Str? && value.items[j].text != ""
        {
          if !value.items[i].Str? || value.items[i].text == "" {
            return false;
          }
        }
        ok := true;
      case _ => ok := false;
    }
  }

  predicate InRange(value: Value, maximum: int) {
    value.Null? || (value.Num? && value.number == value.number.Floor as real && 1 <= value.number.Floor <= maximum)
  }

  // The constraints a file field may declare.
  predicate FileRulesOk(codec: Codec, field: Field) {
    && (field.kind == Files ==> !field.unique)
    && match field.validation
       case Absent => true
       case Given(Object(rules), _) =>
         && rules.Keys <= {"maxBytes", "allowedMimeTypes", "maxFiles"}
         && ("maxBytes" in rules ==> InRange(rules["maxBytes"], MAXIMUM_FILE_BYTES))
         && ("maxFiles" in rules ==> InRange(rules["maxFiles"], MAXIMUM_FILES) && field.kind != File)
         && ("allowedMimeTypes" in rules ==>
               && rules["allowedMimeTypes"].List? && 1 <= |rules["allowedMimeTypes"].items| <= MAXIMUM_MIME_TYPES
               && forall x | x in rules["allowedMimeTypes"].items :: x.Str? && codec.mime(x.text))
       case _ => false
  }

  predicate ValidCardinality(value: string) {
    value in {"one-to-one", "many-to-one", "one-to-many", "many-to-many"}
  }

  predicate Reserved(name: string) {
    Lower(name) == "password" || exists s | s in SYSTEM_FIELDS :: Lower(name) == Lower(s.name)
  }

  predicate HasNullDefault(field: Field) {
    field.default.Given? && field.default.value == Null
  }

  predicate DefaultOk(codec: Codec, field: Field) {
    match field.default
    case Absent => true
    case Malformed => false
    case Given(value, _) => Accepts(codec, field, value, false) && (field.required ==> value != Null)
  }

  predicate FieldOk(codec: Codec, field: Field) {
    && !Reserved(field.name) && ValidName(field.name) && field.kind != Untyped && field.kind != Unsupported && !field.system
    && (field.validation == Absent || (field.validation.Given? && field.validation.value.Object?))
    && (if field.kind == Relation then field.relation.Some? && ValidId(field.relation.value.target, "col_")
                                       && ValidCardinality(field.relation.value.cardinality)
        else field.relation.None?)
    && (field.kind == File || field.kind == Files ==> FileRulesOk(codec, field))
    && DefaultOk(codec, field)
  }

  /* ----- valid models ----- */

  predicate IndexOk(index: Index) {
    && ValidId(index.id, "idx_") && ValidName(index.name) && 1 <= |index.fields| <= 16
    && (forall f | f in index.fields :: ValidId(f, "fld_") && !("fld_system_" <= f))
    && (forall i, j | 0 <= i < j < |index.fields| :: index.fields[i] != index.fields[j])
  }

  predicate SystemFieldOk(field: Field) {
    && field.system && FieldByName(SYSTEM_FIELDS, field.name).Some?
    && var canonical := FieldByName(SYSTEM_FIELDS, field.name).value;
       field.(description := "") == canonical
  }

  predicate IsEmail(field: Field) {
    !field.system && field.name == EMAIL && field.kind == Text && field.required && field.unique
  }

  // Fields in turn: system fields are canonical and not repeated, the others valid, with new IDs and new names
  // whatever the case.
  predicate FieldsOk(codec: Codec, fields: seq<Field>) {
    && (forall f | f in fields :: if f.system then SystemFieldOk(f) else ValidId(f.id, "fld_") && FieldOk(codec, f))
    && (forall i, j | 0 <= i < j < |fields| && fields[i].system == fields[j].system ::
          fields[i].id != fields[j].id && Lower(fields[i].name) != Lower(fields[j].name))
  }

  predicate IndexesOk(fields: seq<Field>, indexes: seq<Index>) {
    && (forall x | x in indexes :: IndexOk(x) && forall f | f in x.fields :: exists g | g in fields :: !g.system && g.id == f)
    && (forall i, j | 0 <= i < j < |indexes| :: indexes[i].id != indexes[j].id && Lower(indexes[i].name) != Lower(indexes[j].name))
  }

  predicate HasIdField(fields: seq<Field>) {
    exists f | f in fields :: f.system && f.name == ID_NAME
  }

  predicate HasEmail(fields: seq<Field>) {
    FieldByName(fields, EMAIL).Some? && IsEmail(FieldByName(fields, EMAIL).value)
  }

  predicate ValidModel(codec: Codec, c: Collection) {
    && ValidId(c.id, "col_")
    && FieldsOk(codec, c.fields) && HasIdField(c.fields)
    && (c.kind == Auth ==> HasEmail(c.fields))
    && IndexesOk(c.fields, c.indexes)
  }

  /* ----- the validator ----- */

  lemma FieldsOkExtends(codec: Codec, fields: seq<Field>, i: nat)
    requires i < |fields| && FieldsOk(codec, fields[..i])
    ensures FieldsOk(codec, fields[..i + 1]) <==>
            && (if fields[i].system then SystemFieldOk(fields[i]) else ValidId(fields[i].id, "fld_") && FieldOk(codec, fields[i]))
            && forall j | 0 <= j < i && fields[j].system == fields[i].system ::
                 fields[j].id != fields[i].id && Lower(fields[j].name) != Lower(fields[i].name)
  {
    hide SystemFieldOk, FieldOk, ValidId, Lower;
    var next := fields[..i + 1];
    assert next[i] == fields[i] && forall j | 0 <= j < i :: next[j] == fields[..i][j];
    assert next == fields[..i] + [fields[i]];
  }

  // A rejected prefix rejects the list.
  lemma FieldsOkPrefix(codec: Codec, fields: seq<Field>, i: nat)
    requires i <= |fields| && FieldsOk(codec, fields)
    ensures FieldsOk(codec, fields[..i])
  {
    hide SystemFieldOk, FieldOk, ValidId, Lower;
    assert forall j | 0 <= j < i :: fields[..i][j] == fields[j];
  }

  // Canonical system fields are told apart by their exact names.
  lemma SystemNamesAreDistinct(a: Field, b: Field)
    requires SystemFieldOk(a) && SystemFieldOk(b)
    ensures a.name != b.name ==> a.id != b.id && Lower(a.name) != Lower(b.name)
  {
    var id, created, updated := SYSTEM_FIELDS[0], SYSTEM_FIELDS[1], SYSTEM_FIELDS[2];
    assert Find(SYSTEM_FIELDS, NameKey, a.name).value in SYSTEM_FIELDS && Find(SYSTEM_FIELDS, NameKey, b.name).value in SYSTEM_FIELDS;
    assert |Lower(a.name)| == |a.name| && |Lower(b.name)| == |b.name|;
    assert |id.name| == 2 && |created.name| == 9 && |updated.name| == 9;
    assert Lower(created.name)[0] == 'c' && Lower(updated.name)[0] == 'u';
  }

  function OrdinaryIds(fields: seq<Field>): set<string> {
    set f | f in fields && !f.system :: f.id
  }

  function OrdinaryNames(fields: seq<Field>): set<string> {
    set f | f in fields && !f.system :: Lower(f.name)
  }

  function SystemNames(fields: seq<Field>): set<string> {
    set f | f in fields && f.system :: f.name
  }

  lemma SeenExtends(fields: seq<Field>, i: nat)
    requires i < |fields|
    ensures var before, after, f := fields[..i], fields[..i + 1], fields[i];
            && OrdinaryIds(after) == OrdinaryIds(before) + (if f.system then {} else {f.id})
            && OrdinaryNames(after) == OrdinaryNames(before) + (if f.system then {} else {Lower(f.name)})
            && SystemNames(after) == SystemNames(before) + (if f.system then {f.name} else {})
  {
    hide Lower;
    assert fields[..i + 1] == fields[..i] + [fields[i]];
  }

  predicate FieldAllowed(codec: Codec, field: Field) {
    if field.system then SystemFieldOk(field) else ValidId(field.id, "fld_") && FieldOk(codec, field)
  }

  predicate FieldSeen(field: Field, fieldIDs: set<string>, fieldNames: set<string>, systems: set<string>) {
    if field.system then field.name in systems else field.id in fieldIDs || Lower(field.name) in fieldNames
  }

  // One more field is acceptable exactly when it is allowed and neither its ID nor its name was seen.
  lemma NextField(codec: Codec, fields: seq<Field>, i: nat)
    requires i < |fields| && FieldsOk(codec, fields[..i])
    ensures FieldsOk(codec, fields[..i + 1]) <==>
            && FieldAllowed(codec, fields[i])
            && !FieldSeen(fields[i], OrdinaryIds(fields[..i]), OrdinaryNames(fields[..i]), SystemNames(fields[..i]))
    ensures FieldsOk(codec, fields) ==> FieldsOk(codec, fields[..i + 1])
  {
    hide FieldOk, SystemFieldOk, ValidId, Lower, FieldsOk;
    FieldsOkExtends(codec, fields, i);
    SeenFields(codec, fields, i);
    if FieldsOk(codec, fields) { FieldsOkPrefix(codec, fields, i + 1); }
  }

  // The fields, one by one, against the IDs and names already seen.
  method ValidateFields(codec: Codec, fields: seq<Field>) returns (ok: bool, fieldIDs: set<string>)
    ensures ok <==> FieldsOk(codec, fields)
    ensures ok ==> fieldIDs == OrdinaryIds(fields)
  {
    hide FieldOk, SystemFieldOk, ValidId, Lower, FieldsOk, OrdinaryIds, OrdinaryNames, SystemNames;
    fieldIDs := {};
    var fieldNames, systems: set<string> := {}, {};
    NothingSeen(codec);
    for i := 0 to |fields|
      invariant FieldsOk(codec, fields[..i])
      invariant fieldIDs == OrdinaryIds(fields[..i]) && fieldNames == OrdinaryNames(fields[..i]) && systems == SystemNames(fields[..i])
    {
      var field := fields[i];
      NextField(codec, fields, i);
      SeenExtends(fields, i);
      if field.system {
        if !SystemFieldOk(field) || field.name in systems {
          return false, {};
        }
        systems := systems + {field.name};
      } else {
        if !ValidId(field.id, "fld_") || field.id in fieldIDs || !FieldOk(codec, field) || Lower(field.name) in fieldNames {
          return false, {};
        }
        fieldIDs, fieldNames := fieldIDs + {field.id}, fieldNames + {Lower(field.name)};
      }
    }
    assert fields[..|fields|] == fields;
    ok := true;
  }

  lemma NothingSeen(codec: Codec)
    ensures FieldsOk(codec, []) && OrdinaryIds([]) == {} && OrdinaryNames([]) == {} && SystemNames([]) == {}
  {
  }

  // The seen sets decide whether the next field repeats an ID or a name.
  lemma SeenFields(codec: Codec, fields: seq<Field>, i: nat)
    requires i < |fields| && FieldsOk(codec, fields[..i])
    ensures !fields[i].system ==>
              ((forall j | 0 <= j < i && !fields[j].system :: fields[j].id != fields[i].id && Lower(fields[j].name) != Lower(fields[i].name))
               <==> fields[i].id !in OrdinaryIds(fields[..i]) && Lower(fields[i].name) !in OrdinaryNames(fields[..i]))
    ensures fields[i].system && SystemFieldOk(fields[i]) ==>
              ((forall j | 0 <= j < i && fields[j].system :: fields[j].id != fields[i].id && Lower(fields[j].name) != Lower(fields[i].name))
               <==> fields[i].name !in SystemNames(fields[..i]))
  {
    hide FieldOk, ValidId, Lower, SystemFieldOk;
    assert forall j | 0 <= j < i :: fields[..i][j] == fields[j] && fields[j] in fields[..i];
    if fields[i].system && SystemFieldOk(fields[i]) {
      forall j | 0 <= j < i && fields[j].system
        ensures fields[j].name != fields[i].name ==> fields[j].id != fields[i].id && Lower(fields[j].name) != Lower(fields[i].name)
      {
        SystemNamesAreDistinct(fields[j], fields[i]);
      }
    }
  }

  /* ----- indexes ----- */

  function IndexIds(indexes: seq<Index>): set<string> {
    set x | x in indexes :: x.id
  }

  function IndexNames(indexes: seq<Index>): set<string> {
    set x | x in indexes :: Lower(x.name)
  }

  predicate Refers(fieldIDs: set<string>, index: Index) {
    forall f | f in index.fields :: f in fieldIDs
  }

  lemma NextIndex(fields: seq<Field>, indexes: seq<Index>, i: nat)
    requires i < |indexes| && IndexesOk(fields, indexes[..i])
    ensures IndexesOk(fields, indexes[..i + 1]) <==>
            && IndexOk(indexes[i]) && Refers(OrdinaryIds(fields), indexes[i])
            && indexes[i].id !in IndexIds(indexes[..i]) && Lower(indexes[i].name) !in IndexNames(indexes[..i])
    ensures IndexesOk(fields, indexes) ==> IndexesOk(fields, indexes[..i + 1])
  {
    hide IndexOk, Lower;
    var before, after := indexes[..i], indexes[..i + 1];
    assert after == before + [indexes[i]];
    assert forall j | 0 <= j < i :: before[j] == indexes[j] == after[j] && indexes[j] in before;
    if IndexesOk(fields, indexes) { IndexesOkPrefix(fields, indexes, i + 1); }
  }

  lemma IndexesOkPrefix(fields: seq<Field>, indexes: seq<Index>, i: nat)
    requires i <= |indexes| && IndexesOk(fields, indexes)
    ensures IndexesOk(fields, indexes[..i])
  {
    hide IndexOk, Lower;
    assert forall x | x in indexes[..i] :: x in indexes;
  }

  lemma SeenIndexes(indexes: seq<Index>, i: nat)
    requires i < |indexes|
    ensures IndexIds(indexes[..i + 1]) == IndexIds(indexes[..i]) + {indexes[i].id}
    ensures IndexNames(indexes[..i + 1]) == IndexNames(indexes[..i]) + {Lower(indexes[i].name)}
  {
    hide Lower;
    assert indexes[..i + 1] == indexes[..i] + [indexes[i]];
  }

  method ValidateIndexes(fields: seq<Field>, indexes: seq<Index>, fieldIDs: set<string>) returns (ok: bool)
    requires fieldIDs == OrdinaryIds(fields)
    ensures ok <==> IndexesOk(fields, indexes)
  {
    hide IndexOk, Lower, IndexesOk, OrdinaryIds, IndexIds, IndexNames;
    NoIndexes(fields);
    var indexIDs, indexNames: set<string> := {}, {};
    assert indexes[..0] == [];
    for i := 0 to |indexes|
      invariant IndexesOk(fields, indexes[..i])
      invariant indexIDs == IndexIds(indexes[..i]) && indexNames == IndexNames(indexes[..i])
    {
      var index := indexes[i];
      NextIndex(fields, indexes, i);
      SeenIndexes(indexes, i);
      if !IndexOk(index) || index.id in indexIDs || Lower(index.name) in indexNames {
        return false;
      }
      indexIDs, indexNames := indexIDs + {index.id}, indexNames + {Lower(index.name)};
      if exists f | f in index.fields :: f !in fieldIDs {
        return false;
      }
    }
    assert indexes[..|indexes|] == indexes;
    ok := true;
  }

  lemma NoIndexes(fields: seq<Field>)
    ensures IndexesOk(fields, []) && IndexIds([]) == {} && IndexNames([]) == {}
  {
  }

  method ValidateModel(codec: Codec, c: Collection) returns (ok: bool)
    ensures ok <==> ValidModel(codec, c)
  {
    hide FieldsOk, IndexesOk;
    if !ValidId(c.id, "col_") {
      return false;
    }
    var fieldIDs;
    ok, fieldIDs := ValidateFields(codec, c.fields);
    if !ok || !(exists f | f in c.fields :: f.system && f.name == ID_NAME) {
      return false;
    }
    if c.kind == Auth {
      var email := FieldByName(c.fields, EMAIL);
      if email.None? || email.value.system || email.value.kind != Text || !email.value.required || !email.value.unique {
        return false;
      }
    }
    ok := ValidateIndexes(c.fields, c.indexes, fieldIDs);
  }
}
