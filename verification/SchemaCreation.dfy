/**
 Creating a collection: exactly which inputs are accepted, and what the model then holds.
 */
module SchemaCreation {
  import opened Prelude
  import opened Keyed
  import opened SchemaModel
  import opened SchemaOperations
  import opened SchemaChanges

  // The given fields under their new IDs.
  function Assigned(given: seq<Field>, ids: seq<string>): seq<Field>
    requires |given| <= |ids|
  {
    seq(|given|, i requires 0 <= i < |given| => given[i].(id := ids[i]))
  }

  // Each given field is acceptable, and no two names are alike.
  predicate OneOk(codec: Codec, field: Field, id: string) {
    field.id == "" && !field.system && FieldOk(codec, field.(id := id))
  }

  predicate GivenOk(codec: Codec, given: seq<Field>, ids: seq<string>)
    requires |given| <= |ids|
  {
    && (forall i | 0 <= i < |given| :: OneOk(codec, given[i], ids[i]))
    && (forall i, j | 0 <= i < j < |given| :: Lower(given[i].name) != Lower(given[j].name))
  }

  predicate NamesUnseen(given: seq<Field>, seen: set<string>) {
    forall i | 0 <= i < |given| :: Lower(given[i].name) !in seen
  }

  lemma AssignedRest(given: seq<Field>, ids: seq<string>)
    requires 0 < |given| <= |ids|
    ensures Assigned(given, ids) == [given[0].(id := ids[0])] + Assigned(given[1..], ids[1..])
  {
  }

  lemma GivenOkRest(codec: Codec, given: seq<Field>, ids: seq<string>, seen: set<string>)
    requires 0 < |given| <= |ids|
    ensures GivenOk(codec, given, ids) && NamesUnseen(given, seen) <==>
            && OneOk(codec, given[0], ids[0]) && Lower(given[0].name) !in seen
            && GivenOk(codec, given[1..], ids[1..]) && NamesUnseen(given[1..], seen + {Lower(given[0].name)})
  {
    hide OneOk, Lower;
    var rest, restIds := given[1..], ids[1..];
    assert forall i | 0 <= i < |rest| :: rest[i] == given[i + 1] && restIds[i] == ids[i + 1];
    if OneOk(codec, given[0], ids[0]) && Lower(given[0].name) !in seen
       && GivenOk(codec, rest, restIds) && NamesUnseen(rest, seen + {Lower(given[0].name)}) {
      assert forall i | 0 < i < |given| :: given[i] == rest[i - 1] && ids[i] == restIds[i - 1];
    }
  }

  lemma {:induction false} AddFieldsIsExact(codec: Codec, fields: seq<Field>, seen: set<string>, given: seq<Field>, ids: seq<string>)
    requires |given| <= |ids|
    ensures AddFields(codec, fields, seen, given, ids).Ok? <==> GivenOk(codec, given, ids) && NamesUnseen(given, seen)
    ensures AddFields(codec, fields, seen, given, ids).Ok? ==> AddFields(codec, fields, seen, given, ids).value == fields + Assigned(given, ids)
    decreases |given|
  {
    hide FieldOk, Lower;
    if given != [] {
      hide GivenOk, NamesUnseen;
      GivenOkRest(codec, given, ids, seen);
      AssignedRest(given, ids);
      var field := given[0].(id := ids[0]);
      AddFieldsIsExact(codec, fields + [field], seen + {Lower(field.name)}, given[1..], ids[1..]);
      assert fields + [field] + Assigned(given[1..], ids[1..]) == fields + ([field] + Assigned(given[1..], ids[1..]));
    }
  }

  /* ----- the parts of a model ----- */

  lemma SystemNamesFold()
    ensures Lower(SYSTEM_FIELDS[0].name) == "id" && Lower(SYSTEM_FIELDS[1].name) == "createdat" && Lower(SYSTEM_FIELDS[2].name) == "updatedat"
  {
    assert Lower("id") == "id";
    assert Lower("createdAt") == "createdat";
    assert Lower("updatedAt") == "updatedat";
  }

  // A field that may be given is not named like a system field.
  lemma OrdinaryNamesUnseen(codec: Codec, given: seq<Field>, ids: seq<string>)
    requires |given| <= |ids| && GivenOk(codec, given, ids)
    ensures NamesUnseen(given, SYSTEM_NAMES)
  {
    SystemNamesFold();
    forall i | 0 <= i < |given|
      ensures Lower(given[i].name) !in SYSTEM_NAMES
    {
      assert OneOk(codec, given[i], ids[i]);
      assert SYSTEM_FIELDS[0] in SYSTEM_FIELDS && SYSTEM_FIELDS[1] in SYSTEM_FIELDS && SYSTEM_FIELDS[2] in SYSTEM_FIELDS;
    }
  }

  lemma KeptOne(f: Field, rest: seq<Field>, omitted: seq<string>)
    ensures KeptSystemFields([f] + rest, omitted) == (if f.name in omitted then [] else [f]) + KeptSystemFields(rest, omitted)
  {
    assert ([f] + rest)[1..] == rest;
  }

  lemma NamedFirst(f: Field, rest: seq<Field>, name: string)
    ensures Find([f] + rest, NameKey, name) == if name == f.name then Some(f) else Find(rest, NameKey, name)
  {
    assert ([f] + rest)[1..] == rest;
  }

  // The kept system fields, in order.
  lemma KeptFields(omitted: seq<string>)
    ensures var a, b, c := SYSTEM_FIELDS[0], SYSTEM_FIELDS[1], SYSTEM_FIELDS[2];
            KeptSystemFields(SYSTEM_FIELDS, omitted) == (if a.name in omitted then [] else [a]) + (if b.name in omitted then [] else [b])
                                                        + (if c.name in omitted then [] else [c])
  {
    var a, b, c := SYSTEM_FIELDS[0], SYSTEM_FIELDS[1], SYSTEM_FIELDS[2];
    hide KeptSystemFields;
    KeptOne(a, [b] + ([c] + []), omitted);
    KeptOne(b, [c] + [], omitted);
    KeptOne(c, [], omitted);
    assert SYSTEM_FIELDS == [a] + ([b] + ([c] + []));
    NothingKept(omitted);
  }

  lemma NothingKept(omitted: seq<string>)
    ensures KeptSystemFields([], omitted) == []
  {
  }

  lemma SystemNamesDiffer()
    ensures SYSTEM_FIELDS[0].name != SYSTEM_FIELDS[1].name && SYSTEM_FIELDS[0].name != SYSTEM_FIELDS[2].name
    ensures SYSTEM_FIELDS[1].name != SYSTEM_FIELDS[2].name
    ensures forall f | f in SYSTEM_FIELDS :: f.name != EMAIL
  {
    var a, b, c := SYSTEM_FIELDS[0], SYSTEM_FIELDS[1], SYSTEM_FIELDS[2];
    assert |a.name| == 2 && |b.name| == 9 && |c.name| == 9 && b.name[0] == 'c' && c.name[0] == 'u' && |EMAIL| == 5;
  }

  // Each system field is found by its name, and is canonical.
  lemma SystemFieldIsFound(f: Field)
    requires f in SYSTEM_FIELDS
    ensures SystemFieldOk(f)
  {
    SystemNamesDiffer();
    var a, b, c := SYSTEM_FIELDS[0], SYSTEM_FIELDS[1], SYSTEM_FIELDS[2];
    hide Find;
    assert SYSTEM_FIELDS == [a] + ([b] + ([c] + []));
    NamedFirst(a, [b] + ([c] + []), f.name);
    NamedFirst(b, [c] + [], f.name);
    NamedFirst(c, [], f.name);
  }

  lemma SystemFieldsAreCanonical()
    ensures forall f | f in SYSTEM_FIELDS :: SystemFieldOk(f) && f.system && Lower(f.name) != EMAIL && f.name != EMAIL
    ensures forall f, g | f in SYSTEM_FIELDS && g in SYSTEM_FIELDS && f != g :: f.id != g.id && Lower(f.name) != Lower(g.name)
  {
    SystemNamesDiffer();
    assert forall f | f in SYSTEM_FIELDS :: |Lower(f.name)| == |f.name| != |EMAIL|;
    hide Lower, SystemFieldOk;
    forall f | f in SYSTEM_FIELDS ensures SystemFieldOk(f) { SystemFieldIsFound(f); }
    forall f, g | f in SYSTEM_FIELDS && g in SYSTEM_FIELDS && f != g
      ensures f.id != g.id && Lower(f.name) != Lower(g.name)
    {
      SystemNamesAreDistinct(f, g);
    }
  }

  // The kept system fields are canonical, and `id` is always among them.
  lemma KeptAreSystem(codec: Codec, omitted: seq<string>)
    requires ID_NAME !in omitted
    ensures var kept := KeptSystemFields(SYSTEM_FIELDS, omitted);
            && FieldsOk(codec, kept) && (forall f | f in kept :: f.system && Lower(f.name) != EMAIL && f.name != EMAIL) && HasIdField(kept)
  {
    KeptFields(omitted);
    SystemFieldsAreCanonical();
    hide KeptSystemFields, Lower, SystemFieldOk, FieldOk;
    var kept := KeptSystemFields(SYSTEM_FIELDS, omitted);
    assert SYSTEM_FIELDS[0] in kept && forall f | f in kept :: f in SYSTEM_FIELDS;
    assert forall i, j | 0 <= i < j < |kept| :: kept[i] != kept[j];
  }

  predicate OrdinaryOk(codec: Codec, fields: seq<Field>) {
    && (forall f | f in fields :: !f.system && ValidId(f.id, "fld_") && FieldOk(codec, f))
    && (forall i, j | 0 <= i < j < |fields| :: fields[i].id != fields[j].id && Lower(fields[i].name) != Lower(fields[j].name))
  }

  lemma SystemThenOrdinary(codec: Codec, kept: seq<Field>, fields: seq<Field>)
    requires FieldsOk(codec, kept) && (forall f | f in kept :: f.system) && OrdinaryOk(codec, fields)
    ensures FieldsOk(codec, kept + fields)
  {
    hide FieldOk, SystemFieldOk, ValidId, Lower;
    var all := kept + fields;
    assert forall i | 0 <= i < |kept| :: all[i] == kept[i] && all[i].system;
    assert forall i | |kept| <= i < |all| :: all[i] == fields[i - |kept|] && !all[i].system;
    forall i, j | 0 <= i < j < |all| && all[i].system == all[j].system
      ensures all[i].id != all[j].id && Lower(all[i].name) != Lower(all[j].name)
    {
      if j < |kept| { assert all[i] == kept[i]; }
    }
  }

  predicate DistinctTexts(ids: seq<string>) {
    forall i, j | 0 <= i < j < |ids| :: ids[i] != ids[j]
  }

  lemma AssignedAreOrdinary(codec: Codec, given: seq<Field>, ids: seq<string>)
    requires |given| <= |ids| && GivenOk(codec, given, ids) && DistinctTexts(ids) && forall i | 0 <= i < |ids| :: ValidId(ids[i], "fld_")
    ensures OrdinaryOk(codec, Assigned(given, ids))
  {
    hide FieldOk, ValidId, Lower;
    var fields := Assigned(given, ids);
    forall f | f in fields
      ensures !f.system && ValidId(f.id, "fld_") && FieldOk(codec, f)
    {
      var i :| 0 <= i < |fields| && fields[i] == f;
      assert OneOk(codec, given[i], ids[i]);
    }
    assert forall i | 0 <= i < |fields| :: fields[i].id == ids[i] && fields[i].name == given[i].name;
  }

  /* ----- the email of an Auth collection ----- */

  // An email among the given fields is called exactly that, is a text, and does not default to null.
  predicate EmailFits(fields: seq<Field>) {
    forall f | f in fields && Lower(f.name) == EMAIL :: f.name == EMAIL && f.kind == Text && !HasNullDefault(f)
  }

  lemma {:induction false} FirstFold(fields: seq<Field>)
    ensures match FoldsToEmail(fields)
            case None => forall f | f in fields :: Lower(f.name) != EMAIL
            case Some(i) => i < |fields| && Lower(fields[i].name) == EMAIL && forall j | 0 <= j < i :: Lower(fields[j].name) != EMAIL
  {
    hide Lower;
    if fields != [] && Lower(fields[0].name) != EMAIL {
      FirstFold(fields[1..]);
    }
  }

  lemma EmailFoldsToItself()
    ensures Lower(EMAIL) == EMAIL
  {
  }

  // The new email field is an acceptable one.
  lemma NewEmailOk(codec: Codec, id: string)
    ensures FieldOk(codec, Field(id, EMAIL, Text, true, true, "", Absent, Absent, None, false))
  {
    EmailFoldsToItself();
    SystemNamesFold();
    assert |Lower(EMAIL)| == 5 && |"password"| == 8;
    assert forall s | s in SYSTEM_FIELDS :: s == SYSTEM_FIELDS[0] || s == SYSTEM_FIELDS[1] || s == SYSTEM_FIELDS[2];
    assert |"id"| == 2 && |"createdat"| == 9 && |"updatedat"| == 9;
    hide Lower;
    assert ValidName(EMAIL);
  }

  // Making a text field required and unique keeps it acceptable exactly when it does not default to null.
  lemma RequiredUniqueOk(codec: Codec, f: Field)
    requires FieldOk(codec, f) && f.kind == Text
    ensures FieldOk(codec, f.(required := true, unique := true)) <==> !HasNullDefault(f)
  {
    hide ValidId, Reserved, ValidName, TextOk;
  }

  lemma OneEmail(fields: seq<Field>, codec: Codec, i: nat)
    requires OrdinaryOk(codec, fields) && i < |fields| && Lower(fields[i].name) == EMAIL
    ensures EmailFits(fields) <==> fields[i].name == EMAIL && fields[i].kind == Text && !HasNullDefault(fields[i])
    ensures forall j | 0 <= j < |fields| && j != i :: fields[j].name != EMAIL
  {
    hide FieldOk, ValidId;
    EmailFoldsToItself();
    hide Lower;
    forall f | f in fields && Lower(f.name) == EMAIL
      ensures f == fields[i]
    {
      var j :| 0 <= j < |fields| && fields[j] == f;
    }
    assert fields[i] in fields;
  }

  /* ----- the whole model ----- */

  // The fields of the new model: for an Auth collection the email is made required and unique, or added.
  function InitialFields(input: NewCollection, ids: seq<string>, emailId: string): seq<Field>
    requires |input.fields| <= |ids|
  {
    var kept, given := KeptSystemFields(SYSTEM_FIELDS, input.omitted), Assigned(input.fields, ids);
    kept + if input.kind == Auth then WithEmail(given, emailId) else given
  }

  lemma {:induction false} FoldsPastSystem(kept: seq<Field>, fields: seq<Field>)
    requires forall f | f in kept :: Lower(f.name) != EMAIL
    ensures FoldsToEmail(kept + fields) == match FoldsToEmail(fields) case None => None case Some(i) => Some(|kept| + i)
  {
    hide Lower;
    if kept == [] {
      assert kept + fields == fields;
    } else {
      assert (kept + fields)[0] == kept[0] && (kept + fields)[1..] == kept[1..] + fields;
      FoldsPastSystem(kept[1..], fields);
    }
  }

  lemma {:induction false} NameInFirst(a: seq<Field>, b: seq<Field>, name: string)
    requires forall f | f in a :: f.name != name
    ensures FieldByName(a + b, name) == FieldByName(b, name)
  {
    if a == [] {
      assert a + b == b;
    } else {
      assert (a + b)[0] == a[0] && (a + b)[1..] == a[1..] + b;
      NameInFirst(a[1..], b, name);
    }
  }

  // What is at stake for validity: the ordinary fields, and for an Auth collection its email.
  lemma ModelIsItsFields(codec: Codec, id: string, name: string, kind: CollectionType, kept: seq<Field>, fields: seq<Field>)
    requires ValidId(id, "col_") && FieldsOk(codec, kept) && (forall f | f in kept :: f.system && f.name != EMAIL) && HasIdField(kept)
    requires OrdinaryOk(codec, fields)
    ensures ValidModel(codec, Collection(id, name, kind, kept + fields, [], 1)) <==> (kind == Auth ==> HasEmail(fields))
  {
    hide FieldsOk, ValidId, OrdinaryOk, Find, IsEmail;
    SystemThenOrdinary(codec, kept, fields);
    NameInFirst(kept, fields, EMAIL);
    IdFieldStays(kept, fields);
    NoIndexes(kept + fields);
  }

  lemma IdFieldStays(kept: seq<Field>, fields: seq<Field>)
    requires HasIdField(kept)
    ensures HasIdField(kept + fields)
  {
    var f :| f in kept && f.system && f.name == ID_NAME;
    assert f in kept + fields;
  }

  // A field that is not acceptable spoils the model.
  lemma BadFieldSpoils(codec: Codec, c: Collection, f: Field)
    requires f in c.fields && !f.system && !FieldOk(codec, f)
    ensures !ValidModel(codec, c)
  {
  }

  lemma AppendOrdinary(codec: Codec, fields: seq<Field>, f: Field)
    requires OrdinaryOk(codec, fields) && !f.system && ValidId(f.id, "fld_") && FieldOk(codec, f)
    requires forall g | g in fields :: g.id != f.id && Lower(g.name) != Lower(f.name)
    ensures OrdinaryOk(codec, fields + [f])
  {
    hide FieldOk, ValidId, Lower;
  }

  lemma UpdateOrdinary(codec: Codec, fields: seq<Field>, i: nat, f: Field)
    requires OrdinaryOk(codec, fields) && i < |fields| && FieldOk(codec, f)
    requires (f.id, f.name, f.system) == (fields[i].id, fields[i].name, fields[i].system)
    ensures OrdinaryOk(codec, fields[i := f])
  {
    hide FieldOk, ValidId, Lower;
    assert fields[i] in fields;
    forall g | g in fields[i := f]
      ensures !g.system && ValidId(g.id, "fld_") && FieldOk(codec, g)
    {
      var j :| 0 <= j < |fields| && fields[i := f][j] == g;
      assert fields[j] in fields;
    }
  }

  // With an email added, the model is valid.
  lemma AddedEmailIsValid(codec: Codec, id: string, name: string, kept: seq<Field>, given: seq<Field>, emailId: string)
    requires ValidId(id, "col_") && FieldsOk(codec, kept) && (forall f | f in kept :: f.system && f.name != EMAIL) && HasIdField(kept)
    requires OrdinaryOk(codec, given) && FoldsToEmail(given).None? && ValidId(emailId, "fld_") && forall f | f in given :: f.id != emailId
    ensures var email := Field(emailId, EMAIL, Text, true, true, "", Absent, Absent, None, false);
            ValidModel(codec, Collection(id, name, Auth, kept + given + [email], [], 1)) && EmailFits(given)
  {
    var email := Field(emailId, EMAIL, Text, true, true, "", Absent, Absent, None, false);
    NewEmailOk(codec, emailId);
    EmailFoldsToItself();
    FirstFold(given);
    hide FieldsOk, FieldOk, ValidId, OrdinaryOk, HasIdField, Lower, ValidModel;
    AppendOrdinary(codec, given, email);
    assert forall f | f in given :: f.name != EMAIL;
    NameInFirst(given, [email], EMAIL);
    assert kept + given + [email] == kept + (given + [email]);
    ModelIsItsFields(codec, id, name, Auth, kept, given + [email]);
  }

  // With an email given, the model is valid exactly when that email fits.
  lemma GivenEmailIsValid(codec: Codec, id: string, name: string, kept: seq<Field>, given: seq<Field>, i: nat)
    requires ValidId(id, "col_") && FieldsOk(codec, kept) && (forall f | f in kept :: f.system && f.name != EMAIL) && HasIdField(kept)
    requires OrdinaryOk(codec, given) && i < |given| && Lower(given[i].name) == EMAIL && given[i].kind == Text
    ensures var fields := given[i := given[i].(required := true, unique := true)];
            ValidModel(codec, Collection(id, name, Auth, kept + fields, [], 1)) <==> EmailFits(given)
  {
    var f := given[i].(required := true, unique := true);
    var fields := given[i := f];
    OneEmail(given, codec, i);
    OrdinaryAt(codec, given, i);
    RequiredUniqueOk(codec, given[i]);
    hide FieldsOk, FieldOk, ValidId, OrdinaryOk, HasIdField, Lower, ValidModel, EmailFits;
    if FieldOk(codec, f) {
      UpdateOrdinary(codec, given, i, f);
      ModelIsItsFields(codec, id, name, Auth, kept, fields);
      EmailIsAt(given, i, f);
    } else {
      assert fields[i] == f && f in kept + fields;
      BadFieldSpoils(codec, Collection(id, name, Auth, kept + fields, [], 1), f);
    }
  }

  lemma EmailIsAt(given: seq<Field>, i: nat, f: Field)
    requires i < |given| && f.name == given[i].name && !f.system && f.kind == Text && f.required && f.unique
    requires forall j | 0 <= j < |given| && j != i :: given[j].name != EMAIL
    ensures HasEmail(given[i := f]) <==> f.name == EMAIL
  {
    var fields := given[i := f];
    assert fields == fields[..i] + ([f] + fields[i + 1..]);
    assert forall j | 0 <= j < i :: fields[..i][j] == given[j];
    NameInFirst(fields[..i], [f] + fields[i + 1..], EMAIL);
    assert ([f] + fields[i + 1..])[0] == f;
    if f.name != EMAIL { NameNowhere(fields, EMAIL); }
  }

  lemma OrdinaryAt(codec: Codec, fields: seq<Field>, i: nat)
    requires OrdinaryOk(codec, fields) && i < |fields|
    ensures FieldOk(codec, fields[i]) && !fields[i].system
  {
    assert fields[i] in fields;
  }

  lemma NameNowhere(fields: seq<Field>, name: string)
    requires forall f | f in fields :: f.name != name
    ensures FieldByName(fields, name) == None
  {
  }

  // Which collections can be created: the input is valid, each given field is acceptable, no two names are alike, and the email of an
  // Auth collection, if given, is called exactly that, is a text, and does not default to null. The model then holds the kept
  // system fields and the given fields in order, with the email required and unique.
  lemma CreationIsExact(codec: Codec, input: NewCollection, id: string, ids: seq<string>, emailId: string)
    requires ValidId(id, "col_") && |input.fields| <= |ids| && DistinctTexts(ids) && (forall i | 0 <= i < |ids| :: ValidId(ids[i], "fld_"))
    requires ValidId(emailId, "fld_") && emailId !in ids
    ensures var r := Build(codec, input, id, ids, emailId);
            && (r.Ok? <==> ValidInput(input) && GivenOk(codec, input.fields, ids)
                           && (input.kind == Auth ==> EmailFits(Assigned(input.fields, ids))))
            && (r.Ok? ==> r.value == Collection(id, input.name, input.kind, InitialFields(input, ids, emailId), [], 1))
  {
    hide ValidModel, ValidInput, FieldsOk, HasIdField, OrdinaryOk, Lower, ValidId, GivenOk, NamesUnseen, EmailFits, FoldsToEmail;
    var kept := KeptSystemFields(SYSTEM_FIELDS, input.omitted);
    AddFieldsIsExact(codec, kept, SYSTEM_NAMES, input.fields, ids);
    if ValidInput(input) && GivenOk(codec, input.fields, ids) {
      KeepsIdField(input);
      KeptAreSystem(codec, input.omitted);
      OrdinaryNamesUnseen(codec, input.fields, ids);
      AssignedAreOrdinary(codec, input.fields, ids);
      AcceptedBuild(codec, input, id, ids, emailId, kept, Assigned(input.fields, ids));
    }
  }

  lemma KeepsIdField(input: NewCollection)
    requires ValidInput(input)
    ensures ID_NAME !in input.omitted
  {
  }

  // The parts of a model, found acceptable.
  ghost predicate PartsOk(codec: Codec, kept: seq<Field>, given: seq<Field>) {
    && FieldsOk(codec, kept) && HasIdField(kept)
    && (forall f | f in kept :: f.system && Lower(f.name) != EMAIL && f.name != EMAIL)
    && OrdinaryOk(codec, given)
  }

  lemma AcceptedBuild(codec: Codec, input: NewCollection, id: string, ids: seq<string>, emailId: string, kept: seq<Field>, given: seq<Field>)
    requires ValidInput(input) && |input.fields| <= |ids| && given == Assigned(input.fields, ids)
    requires kept == KeptSystemFields(SYSTEM_FIELDS, input.omitted)
    requires ValidId(id, "col_") && ValidId(emailId, "fld_") && emailId !in ids
    ensures var r := Build(codec, input, id, ids, emailId);
            AddFields(codec, kept, SYSTEM_NAMES, input.fields, ids) == Result.Ok(kept + given) && PartsOk(codec, kept, given) ==>
              && (r.Ok? <==> (input.kind == Auth ==> EmailFits(given)))
              && (r.Ok? ==> r.value == Collection(id, input.name, input.kind, InitialFields(input, ids, emailId), [], 1))
  {
    hide ValidModel, ValidInput, FieldsOk, HasIdField, OrdinaryOk, Lower, ValidId, EmailFits, AddFields, FoldsToEmail;
    if AddFields(codec, kept, SYSTEM_NAMES, input.fields, ids) == Result.Ok(kept + given) && PartsOk(codec, kept, given) {
      if input.kind == Normal {
        ModelIsItsFields(codec, id, input.name, Normal, kept, given);
      } else {
        assert forall f | f in given :: f.id != emailId by { GivenIds(given, input.fields, ids); }
        hide AddAuthIdentifier, Assigned;
        AuthBuild(codec, id, input.name, kept, given, emailId);
      }
    }
  }

  // The fields of an Auth collection after the email has been seen to.
  function WithEmail(given: seq<Field>, emailId: string): seq<Field> {
    match FoldsToEmail(given)
    case None => given + [Field(emailId, EMAIL, Text, true, true, "", Absent, Absent, None, false)]
    case Some(i) => if i < |given| then given[i := given[i].(required := true, unique := true)] else given
  }

  lemma AuthBuild(codec: Codec, id: string, name: string, kept: seq<Field>, given: seq<Field>, emailId: string)
    requires ValidId(id, "col_") && FieldsOk(codec, kept) && HasIdField(kept)
    requires forall f | f in kept :: f.system && Lower(f.name) != EMAIL && f.name != EMAIL
    requires OrdinaryOk(codec, given) && ValidId(emailId, "fld_") && forall f | f in given :: f.id != emailId
    ensures var all := AddAuthIdentifier(kept + given, emailId);
            && (EmailFits(given) <==> all.Ok? && ValidModel(codec, Collection(id, name, Auth, all.value, [], 1)))
            && (all.Ok? ==> all.value == kept + WithEmail(given, emailId))
  {
    hide ValidModel, FieldsOk, HasIdField, OrdinaryOk, Lower, ValidId, EmailFits, FoldsToEmail;
    FoldsPastSystem(kept, given);
    FirstFold(given);
    match FoldsToEmail(given)
    case None =>
      AddedEmailIsValid(codec, id, name, kept, given, emailId);
      assert kept + given + WithEmail(given, emailId)[|given|..] == kept + WithEmail(given, emailId);
    case Some(i) =>
      var f := given[i].(required := true, unique := true);
      assert (kept + given)[|kept| + i] == given[i] && (kept + given)[|kept| + i := f] == kept + given[i := f];
      if given[i].kind == Text {
        GivenEmailIsValid(codec, id, name, kept, given, i);
      } else {
        OneEmail(given, codec, i);
      }
  }

  lemma GivenIds(given: seq<Field>, fields: seq<Field>, ids: seq<string>)
    requires |fields| <= |ids| && given == Assigned(fields, ids)
    ensures forall f | f in given :: f.id in ids
  {
    forall f | f in given
      ensures f.id in ids
    {
      var i :| 0 <= i < |given| && given[i] == f;
    }
  }

  /* ----- fields that are acceptable alone, but not as the email of an Auth collection ----- */

  const ZEROS := "00000000000000000000000000000000"
  const ONES := "11111111111111111111111111111111"

  function AuthWith(field: Field): NewCollection {
    NewCollection("Members", Auth, "", [field], [])
  }

  lemma AuthWithIsInput(field: Field)
    ensures ValidInput(AuthWith(field))
  {
    var name := "Members";
    assert |name| == 7 && forall i | 0 <= i < 7 :: 'M' <= name[i] <= 's';
  }

  lemma SampleIds()
    ensures ValidId("col_" + ZEROS, "col_") && ValidId("fld_" + ZEROS, "fld_") && ValidId("fld_" + ONES, "fld_")
    ensures "fld_" + ZEROS != "fld_" + ONES
  {
    assert |ZEROS| == 32 && |ONES| == 32;
    assert ("fld_" + ZEROS)[4] == '0' && ("fld_" + ONES)[4] == '1';
  }

  // A required text field "Email" is acceptable, and no name repeats it, but the collection is rejected.
  lemma CapitalEmailIsRejected(codec: Codec)
    ensures var field := Field("", "Email", Text, true, false, "", Absent, Absent, None, false);
            && ValidInput(AuthWith(field)) && GivenOk(codec, [field], ["fld_" + ZEROS])
            && Build(codec, AuthWith(field), "col_" + ZEROS, ["fld_" + ZEROS], "fld_" + ONES).Err?
  {
    var field := Field("", "Email", Text, true, false, "", Absent, Absent, None, false);
    hide ValidInput, GivenOk, Build;
    assert Lower("Email") == EMAIL && field.name[0] == 'E' && ValidName("Email");
    UnfitEmailIsRejected(codec, field);
  }

  // So is a text field "email" with the default null, which an optional field may have.
  lemma NullEmailIsRejected(codec: Codec)
    ensures var field := Field("", EMAIL, Text, false, false, "", Absent, Given(Null, "null"), None, false);
            && ValidInput(AuthWith(field)) && GivenOk(codec, [field], ["fld_" + ZEROS])
            && Build(codec, AuthWith(field), "col_" + ZEROS, ["fld_" + ZEROS], "fld_" + ONES).Err?
  {
    var field := Field("", EMAIL, Text, false, false, "", Absent, Given(Null, "null"), None, false);
    hide ValidInput, GivenOk, Build;
    EmailFoldsToItself();
    assert ValidName(EMAIL);
    UnfitEmailIsRejected(codec, field);
  }

  // A field that folds to the email but is not called so, or defaults to null, is acceptable, and no Auth collection takes it.
  lemma UnfitEmailIsRejected(codec: Codec, field: Field)
    requires ValidName(field.name) && Lower(field.name) == EMAIL && (field.name != EMAIL || HasNullDefault(field))
    requires (field.id, field.kind, field.validation, field.relation, field.system) == ("", Text, Absent, None, false)
    requires field.default == Absent || (HasNullDefault(field) && !field.required)
    ensures ValidInput(AuthWith(field)) && GivenOk(codec, [field], ["fld_" + ZEROS])
    ensures Build(codec, AuthWith(field), "col_" + ZEROS, ["fld_" + ZEROS], "fld_" + ONES).Err?
  {
    hide Lower, ValidName, ValidInput, ValidId, Build, FieldOk;
    AuthWithIsInput(field);
    EmailFoldsToItself();
    NewEmailOk(codec, "fld_" + ZEROS);
    EmailIsNotReserved(codec);
    SampleIds();
    OneOkAlone(codec, field);
    CreationIsExact(codec, AuthWith(field), "col_" + ZEROS, ["fld_" + ZEROS], "fld_" + ONES);
    assert Assigned([field], ["fld_" + ZEROS])[0] in Assigned([field], ["fld_" + ZEROS]);
  }

  lemma EmailIsNotReserved(codec: Codec)
    ensures !Reserved(EMAIL)
  {
    NewEmailOk(codec, "");
  }

  // As acceptable as the email that is added where none is given.
  lemma OneOkAlone(codec: Codec, field: Field)
    requires !Reserved(EMAIL) && ValidName(field.name) && Lower(field.name) == Lower(EMAIL)
    requires (field.id, field.kind, field.validation, field.relation, field.system) == ("", Text, Absent, None, false)
    requires field.default == Absent || (HasNullDefault(field) && !field.required)
    ensures OneOk(codec, field, "fld_" + ZEROS)
  {
    hide ValidName, Lower;
  }
}
