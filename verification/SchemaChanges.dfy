/**
 The life of a schema change as a state machine: pending operations are edited, evaluated and applied in two transactions,
 with durable attempts, an immutable history, and recovery after the process dies between the two.
 */
module SchemaChanges {
  import opened Prelude
  import opened SchemaModel
  import opened SchemaOperations
  import opened SchemaValues

  datatype ChangeStatus = Ready | Failed | Applied | Discarded

  datatype AttemptStatus = InProgress | Succeeded | AttemptFailed | Interrupted

  datatype Change = Change(collection: string, version: nat, status: ChangeStatus, ops: seq<Operation>)

  datatype Attempt = Attempt(change: string, status: AttemptStatus)

  datatype Migration = Migration(change: string, collection: string, attempt: string, version: nat, diff: seq<DiffItem>, model: Collection)

  // An Apply between its two transactions: what the first one read and found.
  datatype Live = Live(collection: string, change: string, expected: nat, confirmed: bool, model: Collection, ops: seq<Operation>, failing: bool)

  // The tables, the models each collection began with, and the applies of the running process.
  datatype Schema = Schema(collections: map<string, Collection>, initial: map<string, Collection>, changes: map<string, Change>,
                           attempts: map<string, Attempt>, migrations: seq<Migration>, live: map<string, Live>)

  const EMPTY := Schema(map[], map[], map[], map[], [], map[])

  /* ----- reading ----- */

  predicate IsActive(c: Change) {
    c.status == Ready || c.status == Failed
  }

  predicate IsPending(s: Schema, collection: string, id: string) {
    id in s.changes && s.changes[id].collection == collection && IsActive(s.changes[id])
  }

  // The active change of a collection; the unique index allows only one.
  ghost function PendingOf(s: Schema, collection: string): (r: Option<string>)
    ensures r.Some? ==> IsPending(s, collection, r.value)
    ensures r.None? ==> forall id :: !IsPending(s, collection, id)
  {
    if id :| IsPending(s, collection, id) then Some(id) else None
  }

  predicate IsApplying(s: Schema, change: string) {
    exists a | a in s.attempts :: s.attempts[a] == Attempt(change, InProgress)
  }

  function FirstOperation(ops: seq<Operation>, id: string): (r: Option<nat>)
    ensures r.Some? ==> r.value < |ops| && ops[r.value].id == id
    ensures r.None? ==> forall i | 0 <= i < |ops| :: ops[i].id != id
  {
    if ops == [] then None else if ops[0].id == id then Some(0)
    else
      match FirstOperation(ops[1..], id)
      case None => None
      case Some(i) => Some(i + 1)
  }

  /* ----- editing ----- */

  // The operations are kept only if they still replay on the applied model.
  function StoreOperations(codec: Codec, s: Schema, id: string, change: Change, ops: seq<Operation>, status: ChangeStatus)
    : (Schema, Result<Change, Error>)
  {
    if change.collection !in s.collections then (s, Err(NotFound))
    else
      match Replay(codec, s.collections[change.collection], ops)
      case Err(e) => (s, Err(e))
      case Ok(_) =>
        var stored := change.(ops := ops, version := change.version + 1, status := status);
        (s.(changes := s.changes[id := stored]), Result.Ok(stored))
  }

  // The new IDs are taken to be well formed, and the change's to be unused.
  ghost function Save(codec: Codec, s: Schema, collection: string, input: OperationInput, changeId: string, opId: string, newId: string)
    : (Schema, Result<Change, Error>)
  {
    if collection !in s.collections then (s, Err(NotFound))
    else
      var pending := PendingOf(s, collection);
      var id := pending.GetOr(changeId);
      if (pending.None? && changeId in s.changes) || !ValidId(newId, TargetPrefix(input.kind)) then (s, Err(InvalidArgument))
      else
        var change := if pending.Some? then s.changes[id] else Change(collection, 0, Ready, []);
        if IsApplying(s, id) then (s, Err(Conflict))
        else
          match Normalize(codec, s.collections.Keys, input, opId, None, newId)
          case Err(e) => (s, Err(e))
          case Ok(op) => StoreOperations(codec, s, id, change, change.ops + [op], Ready)
  }

  ghost function UpdateOperation(codec: Codec, s: Schema, collection: string, opId: string, input: OperationInput): (Schema, Result<Change, Error>) {
    if collection !in s.collections || PendingOf(s, collection).None? then (s, Err(NotFound))
    else
      var id := PendingOf(s, collection).value;
      var change := s.changes[id];
      if IsApplying(s, id) then (s, Err(Conflict))
      else
        match FirstOperation(change.ops, opId)
        case None => (s, Err(NotFound))
        case Some(i) =>
          match Normalize(codec, s.collections.Keys, input, opId, Some(change.ops[i]), "")
          case Err(e) => (s, Err(e))
          case Ok(op) => StoreOperations(codec, s, id, change, change.ops[i := op], Ready)
  }

  // Removing the last operation discards the change.
  ghost function RemoveOperation(codec: Codec, s: Schema, collection: string, opId: string): (Schema, Result<Change, Error>) {
    if PendingOf(s, collection).None? then (s, Err(NotFound))
    else
      var id := PendingOf(s, collection).value;
      var change := s.changes[id];
      if IsApplying(s, id) then (s, Err(Conflict))
      else
        match FirstOperation(change.ops, opId)
        case None => (s, Err(NotFound))
        case Some(i) =>
          var ops := change.ops[..i] + change.ops[i + 1..];
          StoreOperations(codec, s, id, change, ops, if ops == [] then Discarded else Ready)
  }

  ghost function Discard(s: Schema, collection: string, expected: nat): (Schema, Result<Change, Error>) {
    if PendingOf(s, collection).None? then (s, Err(NotFound))
    else
      var id := PendingOf(s, collection).value;
      var change := s.changes[id];
      if change.version != expected then (s, Err(Conflict))
      else if IsApplying(s, id) then (s, Err(Conflict))
      else
        var stored := change.(status := Discarded, version := change.version + 1);
        (s.(changes := s.changes[id := stored]), Result.Ok(stored))
  }

  /* ----- applying ----- */

  // The first transaction: evaluate, and durably start an attempt.
  ghost function Begin(codec: Codec, s: Schema, collection: string, expected: nat, confirmed: bool, attempt: string, records: seq<Record>)
    : (Schema, Result<string, Error>)
  {
    if collection !in s.collections || PendingOf(s, collection).None? then (s, Err(NotFound))
    else
      var id := PendingOf(s, collection).value;
      var change := s.changes[id];
      if change.version != expected || attempt in s.attempts then (s, Err(Conflict))
      else if IsApplying(s, id) then (s, Err(Conflict))
      else
        var model := s.collections[collection];
        var preview := Evaluate(codec, s.collections.Keys, model, change.ops, records);
        var failing := preview.risk == RiskBlocked && UniqueValuesConflict in preview.failures;
        if preview.risk == RiskBlocked && !failing then (s, Err(Blocked))
        else if preview.risk == Review && !confirmed then (s, Err(ConfirmationRequired))
        else
          (s.(attempts := s.attempts[attempt := Attempt(id, InProgress)],
              live := s.live[attempt := Live(collection, id, expected, confirmed, model, change.ops, failing)]), Result.Ok(id))
  }

  // What the second transaction finds wrong, in order. `stored` says whether rebuilding the records and writing succeed.
  ghost function CommitProblem(codec: Codec, s: Schema, l: Live, records: seq<Record>, stored: bool): Option<Error> {
    if l.collection !in s.collections then Some(NotFound)
    else if PendingOf(s, l.collection).None? then Some(Conflict)
    else
      var id := PendingOf(s, l.collection).value;
      var change := s.changes[id];
      if id != l.change || change.version != l.expected then Some(Conflict)
      else
        var preview := Evaluate(codec, s.collections.Keys, s.collections[l.collection], change.ops, records);
        if preview.risk == RiskBlocked then Some(Blocked)
        else if preview.risk == Review && !l.confirmed then Some(ConfirmationRequired)
        else if Replay(codec, s.collections[l.collection], change.ops).Err? || !stored then Some(InvalidArgument)
        else None
  }

  // The second transaction: the new model, its place in the history, and the end of attempt and change, or nothing at all.
  ghost function Commit(codec: Codec, s: Schema, attempt: string, records: seq<Record>, stored: bool): Schema {
    if attempt !in s.live || s.live[attempt].failing then s
    else
      var l := s.live[attempt];
      if CommitProblem(codec, s, l, records, stored).Some? then s.(live := s.live[attempt := l.(failing := true)])
      else
        var id := PendingOf(s, l.collection).value;
        var change := s.changes[id];
        var current := s.collections[l.collection];
        var target := Replay(codec, current, change.ops).value.(version := current.version + 1);
        var migration := Migration(id, l.collection, attempt, target.version, Diff(current, target, change.ops), target);
        s.(collections := s.collections[l.collection := target], migrations := s.migrations + [migration],
           attempts := if attempt in s.attempts && s.attempts[attempt].status == InProgress
             then s.attempts[attempt := s.attempts[attempt].(status := Succeeded)] else s.attempts,
           changes := s.changes[id := change.(status := Applied, version := change.version + 1)],
           live := s.live - {attempt})
  }

  function FailChange(changes: map<string, Change>, id: string): map<string, Change> {
    if id in changes && IsActive(changes[id]) then changes[id := changes[id].(status := Failed)] else changes
  }

  // After a failure the attempt and its change are marked; when even that fails, they are left as they are.
  function RecordFailure(s: Schema, attempt: string, recorded: bool): Schema {
    if attempt !in s.live || !s.live[attempt].failing then s
    else
      var ended := s.(live := s.live - {attempt});
      if recorded && attempt in s.attempts && s.attempts[attempt].status == InProgress then
        ended.(attempts := s.attempts[attempt := s.attempts[attempt].(status := AttemptFailed)],
               changes := FailChange(s.changes, s.live[attempt].change))
      else ended
  }

  function Crash(s: Schema): Schema { s.(live := map[]) }

  // Startup marks every attempt left in progress, and keeps its change.
  function Recover(s: Schema): Schema {
    if s.live != map[] then s
    else
      s.(attempts := map a | a in s.attempts ::
           if s.attempts[a].status == InProgress then s.attempts[a].(status := Interrupted) else s.attempts[a],
         changes := map id | id in s.changes ::
           if IsApplying(s, id) && IsActive(s.changes[id]) then s.changes[id].(status := Failed) else s.changes[id])
  }

  /* ----- creating a collection ----- */

  datatype NewCollection = NewCollection(name: string, kind: CollectionType, description: string, fields: seq<Field>, omitted: seq<string>)

  predicate ValidInput(input: NewCollection) {
    && (forall i | 0 <= i < |input.omitted| :: input.omitted[i] == "createdAt" || input.omitted[i] == "updatedAt")
    && (forall i, j | 0 <= i < j < |input.omitted| :: input.omitted[i] != input.omitted[j])
    && 1 <= |input.name| <= 80 && !IsSpace(input.name[0]) && !IsSpace(input.name[|input.name| - 1])
    && (forall i | 0 <= i < |input.name| :: input.name[i] >= ' ' && input.name[i] != 0x7f as char)
    && Utf8Length(input.description) <= 4000
  }

  function KeptSystemFields(fields: seq<Field>, omitted: seq<string>): seq<Field> {
    if fields == [] then []
    else (if fields[0].name in omitted then [] else [fields[0]]) + KeptSystemFields(fields[1..], omitted)
  }

  // The initial fields in turn, each under its new ID, with names not yet seen.
  function AddFields(codec: Codec, fields: seq<Field>, seen: set<string>, given: seq<Field>, ids: seq<string>): Result<seq<Field>, Error>
    decreases |given|
  {
    if given == [] then Result.Ok(fields)
    else if ids == [] || given[0].id != "" || given[0].system then Err(InvalidArgument)
    else
      var field := given[0].(id := ids[0]);
      if !FieldOk(codec, field) || Lower(field.name) in seen then Err(InvalidArgument)
      else AddFields(codec, fields + [field], seen + {Lower(field.name)}, given[1..], ids[1..])
  }

  function FoldsToEmail(fields: seq<Field>): Option<nat> {
    if fields == [] then None
    else if Lower(fields[0].name) == EMAIL then Some(0)
    else match FoldsToEmail(fields[1..]) case None => None case Some(i) => Some(i + 1)
  }

  function AddAuthIdentifier(fields: seq<Field>, id: string): Result<seq<Field>, Error> {
    match FoldsToEmail(fields)
    case None => Result.Ok(fields + [Field(id, EMAIL, Text, true, true, "", Absent, Absent, None, false)])
    case Some(i) =>
      if i >= |fields| || fields[i].kind != Text then Err(InvalidArgument)
      else Result.Ok(fields[i := fields[i].(required := true, unique := true)])
  }

  const SYSTEM_NAMES: set<string> := {"id", "createdat", "updatedat"}

  function Build(codec: Codec, input: NewCollection, id: string, ids: seq<string>, emailId: string): Result<Collection, Error> {
    if !ValidInput(input) then Err(InvalidArgument)
    else
      match AddFields(codec, KeptSystemFields(SYSTEM_FIELDS, input.omitted), SYSTEM_NAMES, input.fields, ids)
      case Err(e) => Err(e)
      case Ok(fields) =>
        match if input.kind == Auth then AddAuthIdentifier(fields, emailId) else Result.Ok(fields)
        case Err(e) => Err(e)
        case Ok(all) =>
          var c := Collection(id, input.name, input.kind, all, [], 1);
          if ValidModel(codec, c) then Result.Ok(c) else Err(InvalidArgument)
  }

  // Names are unique whatever the case, and initial relations point to existing collections.
  function CreateCollection(codec: Codec, s: Schema, input: NewCollection, id: string, ids: seq<string>, emailId: string)
    : (Schema, Result<Collection, Error>)
  {
    match Build(codec, input, id, ids, emailId)
    case Err(e) => (s, Err(e))
    case Ok(c) =>
      if id in s.collections || exists k | k in s.collections :: Lower(s.collections[k].name) == Lower(c.name) then (s, Err(Conflict))
      else if exists f | f in c.fields :: f.kind == Relation && (f.relation.None? || f.relation.value.target !in s.collections) then
        (s, Err(InvalidArgument))
      else (s.(collections := s.collections[id := c], initial := s.initial[id := c]), Result.Ok(c))
  }

  /* ----- steps and runs ----- */

  datatype Event =
    | CreateEvent(input: NewCollection, id: string, ids: seq<string>, emailId: string)
    | SaveEvent(collection: string, operation: OperationInput, changeId: string, opId: string, newId: string)
    | UpdateEvent(collection: string, opId: string, operation: OperationInput)
    | RemoveEvent(collection: string, opId: string)
    | DiscardEvent(collection: string, expected: nat)
    | BeginEvent(collection: string, expected: nat, confirmed: bool, attempt: string, records: seq<Record>)
    | CommitEvent(attempt: string, records: seq<Record>, stored: bool)
    | FailureEvent(attempt: string, recorded: bool)
    | CrashEvent
    | RecoverEvent

  ghost function Step(codec: Codec, s: Schema, e: Event): Schema {
    match e
    case CreateEvent(input, id, ids, emailId) => CreateCollection(codec, s, input, id, ids, emailId).0
    case SaveEvent(collection, input, changeId, opId, newId) => Save(codec, s, collection, input, changeId, opId, newId).0
    case UpdateEvent(collection, opId, input) => UpdateOperation(codec, s, collection, opId, input).0
    case RemoveEvent(collection, opId) => RemoveOperation(codec, s, collection, opId).0
    case DiscardEvent(collection, expected) => Discard(s, collection, expected).0
    case BeginEvent(collection, expected, confirmed, attempt, records) =>
      Begin(codec, s, collection, expected, confirmed, attempt, records).0
    case CommitEvent(attempt, records, stored) => Commit(codec, s, attempt, records, stored)
    case FailureEvent(attempt, recorded) => RecordFailure(s, attempt, recorded)
    case CrashEvent => Crash(s)
    case RecoverEvent => Recover(s)
  }

  ghost function Run(codec: Codec, s: Schema, events: seq<Event>): Schema
    decreases |events|
  {
    if events == [] then s else Run(codec, Step(codec, s, events[0]), events[1..])
  }
}
