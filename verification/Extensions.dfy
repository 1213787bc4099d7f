/**
 Extensions, their configuration, and the intents that pin it. A committed record change leaves an intent pinned to the
 revision, binding, secrets and grants of that moment; changing the configuration cancels exactly the intents it invalidates.
 */
module Extensions {
  import opened Prelude

  const MAX_BINDINGS := 18
  const MAX_ORIGINS := 32
  const MAX_ID_LENGTH := 128

  datatype RecordOperation = OnCreate | OnUpdate | OnDelete

  datatype Phase = Before | AfterCommit

  // Where an extension may hook in; no two enabled extensions share one.
  datatype Slot = Slot(collection: string, operation: RecordOperation, phase: Phase)

  datatype Status = Pending | Running | Succeeded | Rejected | Failed | Interrupted | Cancelled

  // Binding IDs by slot, pinned secret IDs by alias, and grant IDs by origin: the keys the tables keep unique.
  datatype Extension = Extension(enabled: bool, revision: nat, source: string, revisions: map<nat, string>, bindings: map<Slot, string>,
                                 secrets: map<string, string>, grants: map<string, string>)

  datatype Intent = Intent(extension: string, revision: nat, binding: string, slot: Slot, event: string, secrets: map<string, string>,
                           grants: set<string>, status: Status)

  // The run of an intent is kept under the intent's ID; runs of Before hooks have no intent. Collections are known by whether
  // they are Auth collections, secrets by their version. IDs are never drawn twice. The service is open once it has started.
  datatype Project = Project(extensions: map<string, Extension>, intents: map<string, Intent>, runs: map<string, Status>,
                             before: map<string, Status>, secrets: map<string, nat>, collections: map<string, bool>, ids: set<string>,
                             open: bool)

  const EMPTY := Project(map[], map[], map[], map[], map[], map[], {}, false)

  // The source stands for the language and the text together.
  datatype Config = Config(source: string, bindings: seq<Slot>, secrets: seq<(string, string)>, origins: seq<string>)

  datatype Problem = NotFound | Invalid | SlotTaken | Conflict | SecretNotAvailable

  /* ----- validating a configuration ----- */

  predicate ValidConfig(c: Config) {
    && !IsBlank(c.source) && |c.bindings| <= MAX_BINDINGS && |c.origins| <= MAX_ORIGINS
    && (forall i | 0 <= i < |c.bindings| :: 1 <= Utf8Length(c.bindings[i].collection) <= MAX_ID_LENGTH)
    && (forall i | 0 <= i < |c.secrets| :: 1 <= Utf8Length(c.secrets[i].1) <= MAX_ID_LENGTH)
    && (forall i, j | 0 <= i < j < |c.bindings| :: c.bindings[i] != c.bindings[j])
    && (forall i, j | 0 <= i < j < |c.secrets| :: c.secrets[i].0 != c.secrets[j].0)
    && (forall i, j | 0 <= i < j < |c.origins| :: c.origins[i] != c.origins[j])
  }

  // Bindings name existing collections, and an Auth collection only for creations.
  predicate BindingsFit(s: Project, bindings: set<Slot>) {
    forall b | b in bindings :: b.collection in s.collections && (s.collections[b.collection] ==> b.operation == OnCreate)
  }

  predicate SecretsExist(s: Project, secrets: seq<(string, string)>) {
    forall x | x in secrets :: x.1 in s.secrets
  }

  predicate Holds(s: Project, id: string, slot: Slot) {
    id in s.extensions && s.extensions[id].enabled && slot in s.extensions[id].bindings
  }

  predicate SlotsFree(s: Project, extension: string, bindings: set<Slot>) {
    forall other, b | other in s.extensions && b in bindings && other != extension :: !Holds(s, other, b)
  }

  function SlotsOf(bindings: seq<Slot>): set<Slot> { set b | b in bindings }

  function OriginsOf(origins: seq<string>): set<string> { set o | o in origins }

  /* ----- replacing a configuration ----- */

  // A slot or an origin that stays keeps its ID; new ones take a new ID.
  function Renamed<K(==)>(had: map<K, string>, wanted: set<K>, newIds: map<K, string>): (m: map<K, string>)
    ensures m.Keys == set k | k in wanted && (k in had || k in newIds)
    ensures forall k | k in m :: m[k] == if k in had then had[k] else newIds[k]
  {
    map k | k in wanted && (k in had || k in newIds) :: if k in had then had[k] else newIds[k]
  }

  function SecretMap(secrets: seq<(string, string)>): map<string, string> {
    if secrets == [] then map[] else SecretMap(secrets[..|secrets| - 1])[secrets[|secrets| - 1].0 := secrets[|secrets| - 1].1]
  }

  // The IDs for what is new: one for each new key, all different, and none ever drawn before.
  ghost predicate FreshIds<K(!new)>(had: map<K, string>, wanted: set<K>, newIds: map<K, string>, ids: set<string>) {
    && (forall k | k in wanted && k !in had :: k in newIds)
    && (forall k | k in newIds :: newIds[k] !in ids)
    && (forall j, k | j in newIds && k in newIds && j != k :: newIds[j] != newIds[k])
  }

  ghost predicate FreshConfig(s: Project, extension: string, c: Config, newBindings: map<Slot, string>, newGrants: map<string, string>)
    requires extension in s.extensions
  {
    && FreshIds(s.extensions[extension].bindings, SlotsOf(c.bindings), newBindings, s.ids)
    && FreshIds(s.extensions[extension].grants, OriginsOf(c.origins), newGrants, s.ids)
    && newBindings.Values !! newGrants.Values
  }

  // What a pending intent pins is no longer configured.
  predicate Invalidated(e: Extension, i: Intent) {
    || (i.binding !in e.bindings.Values)
    || (exists alias | alias in i.secrets :: alias !in e.secrets || e.secrets[alias] != i.secrets[alias])
    || (exists g | g in i.grants :: g !in e.grants.Values)
  }

  function SetStatus(intents: map<string, Intent>, chosen: set<string>, status: Status): (r: map<string, Intent>)
    ensures r.Keys == intents.Keys
    ensures forall i | i in intents :: r[i] == if i in chosen then intents[i].(status := status) else intents[i]
  {
    map i | i in intents :: if i in chosen then intents[i].(status := status) else intents[i]
  }

  // The run of an intent follows it, while it is kept.
  function SetRuns(runs: map<string, Status>, chosen: set<string>, status: Status): (r: map<string, Status>)
    ensures r.Keys == runs.Keys
    ensures forall i | i in runs :: r[i] == if i in chosen then status else runs[i]
  {
    map i | i in runs :: if i in chosen then status else runs[i]
  }

  function Move(s: Project, chosen: set<string>, status: Status): Project {
    s.(intents := SetStatus(s.intents, chosen, status), runs := SetRuns(s.runs, chosen, status))
  }

  function PendingOf(s: Project, extension: string): set<string> {
    set i | i in s.intents && s.intents[i].extension == extension && s.intents[i].status == Pending
  }

  // The pending intents of the extension that its rows do not cover.
  function Uncovered(s: Project, extension: string): (r: set<string>)
    requires extension in s.extensions
    ensures forall i :: i in r <==> i in PendingOf(s, extension) && Invalidated(s.extensions[extension], s.intents[i])
  {
    set i | i in PendingOf(s, extension) && Invalidated(s.extensions[extension], s.intents[i])
  }

  function Reconfigured(e: Extension, c: Config, newBindings: map<Slot, string>, newGrants: map<string, string>): Extension {
    e.(bindings := Renamed(e.bindings, SlotsOf(c.bindings), newBindings), secrets := SecretMap(c.secrets),
       grants := Renamed(e.grants, OriginsOf(c.origins), newGrants),
       revision := if c.source == e.source then e.revision else e.revision + 1, source := c.source,
       revisions := if c.source == e.source then e.revisions else e.revisions[e.revision + 1 := c.source])
  }

  function ReplaceProblem(s: Project, extension: string, c: Config): Option<Problem> {
    if !ValidConfig(c) then Some(Invalid)
    else if extension !in s.extensions then Some(NotFound)
    else if !BindingsFit(s, SlotsOf(c.bindings)) || (s.extensions[extension].enabled && !SecretsExist(s, c.secrets)) then Some(Invalid)
    else if s.extensions[extension].enabled && !SlotsFree(s, extension, SlotsOf(c.bindings)) then Some(SlotTaken)
    else if !SecretsExist(s, c.secrets) then Some(Conflict)
    else None
  }

  // The new rows, and the end of the pending intents they invalidate.
  ghost function Replace(s: Project, extension: string, c: Config, newBindings: map<Slot, string>, newGrants: map<string, string>): Project {
    if ReplaceProblem(s, extension, c).Some? || !FreshConfig(s, extension, c, newBindings, newGrants) then s
    else
      var e := Reconfigured(s.extensions[extension], c, newBindings, newGrants);
      var t := s.(extensions := s.extensions[extension := e], ids := s.ids + newBindings.Values + newGrants.Values);
      Move(t, Uncovered(t, extension), Cancelled)
  }

  /* ----- the other changes ----- */

  // A new extension is disabled and bound to nothing.
  function CreateExtension(s: Project, id: string, source: string): Project {
    if id in s.extensions || IsBlank(source) then s
    else s.(extensions := s.extensions[id := Extension(false, 1, source, map[1 := source], map[], map[], map[])])
  }

  function EnableProblem(s: Project, id: string): Option<Problem> {
    if id !in s.extensions then Some(NotFound)
    else if !BindingsFit(s, s.extensions[id].bindings.Keys) then Some(Invalid)
    else if !SlotsFree(s, id, s.extensions[id].bindings.Keys) then Some(SlotTaken)
    else None
  }

  function Enable(s: Project, id: string): Project {
    if EnableProblem(s, id).Some? then s else s.(extensions := s.extensions[id := s.extensions[id].(enabled := true)])
  }

  function Disable(s: Project, id: string): Project {
    if id !in s.extensions then s
    else Move(s.(extensions := s.extensions[id := s.extensions[id].(enabled := false)]), PendingOf(s, id), Cancelled)
  }

  function PinnedTo(s: Project, secret: string): set<string> {
    set i | i in s.intents && s.intents[i].status == Pending && secret in s.intents[i].secrets.Values
  }

  function ReplaceSecret(s: Project, secret: string): Project {
    if secret !in s.secrets then s else Move(s.(secrets := s.secrets[secret := s.secrets[secret] + 1]), PinnedTo(s, secret), Cancelled)
  }

  function WithoutSecret(e: Extension, secret: string): Extension {
    e.(secrets := map alias | alias in e.secrets && e.secrets[alias] != secret :: e.secrets[alias])
  }

  // Deleting a secret takes its bindings with it.
  function DeleteSecret(s: Project, secret: string): Project {
    if secret !in s.secrets then s
    else
      Move(s.(secrets := s.secrets - {secret}, extensions := map id | id in s.extensions :: WithoutSecret(s.extensions[id], secret)),
           PinnedTo(s, secret), Cancelled)
  }

  /* ----- intents ----- */

  // The intent pins what the extension has now.
  function NewIntent(extension: string, e: Extension, slot: Slot, event: string): Intent
    requires slot in e.bindings
  {
    Intent(extension, e.revision, e.bindings[slot], slot, event, e.secrets, e.grants.Values, Pending)
  }

  // A committed change leaves an intent for the extension that holds its slot.
  ghost function Append(s: Project, id: string, collection: string, operation: RecordOperation, event: string): Project {
    var slot := Slot(collection, operation, AfterCommit);
    if id in s.intents || (exists i :: i in s.intents && s.intents[i].event == event) then s
    else if x :| x in s.extensions && Holds(s, x, slot) then
      s.(intents := s.intents[id := NewIntent(x, s.extensions[x], slot, event)], runs := s.runs[id := Pending])
    else s
  }

  // What starting a pending intent may find wrong, in order.
  function StartProblem(s: Project, id: string): Option<Problem> {
    if id !in s.intents || s.intents[id].extension !in s.extensions
       || s.intents[id].revision !in s.extensions[s.intents[id].extension].revisions then Some(NotFound)
    else
      var i := s.intents[id];
      var e := s.extensions[i.extension];
      if i.status != Pending || !e.enabled || i.binding !in e.bindings.Values then Some(Conflict)
      else if exists alias | alias in i.secrets :: i.secrets[alias] !in s.secrets then Some(SecretNotAvailable)
      else if exists g | g in i.grants :: g !in e.grants.Values then Some(Conflict)
      else None
  }

  function Start(s: Project, id: string): Project {
    if StartProblem(s, id).Some? then s else Move(s, {id}, Running)
  }

  function Finish(s: Project, id: string, status: Status): Project {
    if id !in s.intents || s.intents[id].status != Running || status == Pending || status == Running then s else Move(s, {id}, status)
  }

  function FailPending(s: Project, id: string): Project {
    if id !in s.intents || s.intents[id].status != Pending then s else Move(s, {id}, Failed)
  }

  // A Before hook runs at once, and has no intent.
  function StartBefore(s: Project, run: string): Project {
    if run in s.before then s else s.(before := s.before[run := Running])
  }

  function FinishBefore(s: Project, run: string, status: Status): Project {
    if run !in s.before || s.before[run] != Running || IsOpen(status) then s else s.(before := s.before[run := status])
  }

  predicate IsOpen(status: Status) {
    status == Pending || status == Running
  }

  function Interruption(status: Status): Status {
    if IsOpen(status) then Interrupted else status
  }

  function InterruptAll(runs: map<string, Status>): map<string, Status> {
    map i | i in runs :: Interruption(runs[i])
  }

  function OpenIntents(s: Project): set<string> {
    set i | i in s.intents && IsOpen(s.intents[i].status)
  }

  // What startup is for: whatever was pending or running is interrupted.
  function Closed(s: Project): Project {
    Move(s.(before := InterruptAll(s.before)), OpenIntents(s), Interrupted)
  }

  predicate HookWasCut(s: Project) {
    exists run | run in s.before :: IsOpen(s.before[run])
  }

  // What startup does, in one transaction. It reads the open runs with their intents first, and that fails at a run without
  // one: the column is null, and is read as a text. Otherwise the runs read, and the open intents, are interrupted.
  function Startup(s: Project): Option<Project> {
    if HookWasCut(s) then None else Some(Move(s, OpenIntents(s), Interrupted).(open := true))
  }

  // A service whose startup fails is not open.
  function Restart(s: Project): Project {
    if s.open then s else Startup(s).GetOr(s)
  }

  /* ----- steps and runs ----- */

  datatype Event =
    | CreateEvent(extension: string, source: string)
    | ReplaceEvent(extension: string, config: Config, newBindings: map<Slot, string>, newGrants: map<string, string>)
    | EnableEvent(extension: string)
    | DisableEvent(extension: string)
    | CreateSecretEvent(secret: string)
    | ReplaceSecretEvent(secret: string)
    | DeleteSecretEvent(secret: string)
    | CreateCollectionEvent(collection: string, auth: bool)
    | AppendEvent(intent: string, collection: string, operation: RecordOperation, event: string)
    | StartEvent(intent: string)
    | FinishEvent(intent: string, status: Status)
    | FailPendingEvent(intent: string)
    | StartBeforeEvent(run: string)
    | FinishBeforeEvent(run: string, status: Status)
    | PruneRunsEvent(kept: set<string>)
    | CrashEvent
    | RestartEvent

  // What an open service does.
  ghost function Act(s: Project, e: Event): Project {
    match e
    case CreateEvent(extension, source) => CreateExtension(s, extension, source)
    case ReplaceEvent(extension, config, newBindings, newGrants) => Replace(s, extension, config, newBindings, newGrants)
    case EnableEvent(extension) => Enable(s, extension)
    case DisableEvent(extension) => Disable(s, extension)
    case CreateSecretEvent(secret) => if secret in s.secrets then s else s.(secrets := s.secrets[secret := 1])
    case ReplaceSecretEvent(secret) => ReplaceSecret(s, secret)
    case DeleteSecretEvent(secret) => DeleteSecret(s, secret)
    case CreateCollectionEvent(collection, auth) => if collection in s.collections then s else s.(collections := s.collections[collection := auth])
    case AppendEvent(intent, collection, operation, event) => Append(s, intent, collection, operation, event)
    case StartEvent(intent) => Start(s, intent)
    case FinishEvent(intent, status) => Finish(s, intent, status)
    case FailPendingEvent(intent) => FailPending(s, intent)
    case StartBeforeEvent(run) => StartBefore(s, run)
    case FinishBeforeEvent(run, status) => FinishBefore(s, run, status)
    case PruneRunsEvent(kept) =>
      s.(runs := map i | i in s.runs && i in kept :: s.runs[i], before := map i | i in s.before && i in kept :: s.before[i])
    case _ => s
  }

  ghost function Step(s: Project, e: Event): Project {
    match e
    case CrashEvent => s.(open := false)
    case RestartEvent => Restart(s)
    case _ => if s.open then Act(s, e) else s
  }

  ghost function Run(s: Project, events: seq<Event>): Project
    decreases |events|
  {
    if events == [] then s else Run(Step(s, events[0]), events[1..])
  }

  /* ----- the invariant ----- */

  // No two enabled extensions hold one slot.
  ghost predicate SlotsDisjoint(s: Project) {
    forall x, y, slot | Holds(s, x, slot) && Holds(s, y, slot) :: x == y
  }

  ghost predicate Injective<K(!new)>(m: map<K, string>) {
    forall j, k | j in m && k in m && m[j] == m[k] :: j == k
  }

  // IDs were drawn and name one row each; bound secrets exist; the active revision is stored.
  ghost predicate ExtensionOk(e: Extension, ids: set<string>, secrets: map<string, nat>) {
    && e.bindings.Values <= ids && e.grants.Values <= ids && Injective(e.bindings) && Injective(e.grants)
    && e.secrets.Values <= secrets.Keys
    && e.revision in e.revisions
  }

  // The intent's extension is enabled, holds its binding under the same ID, maps each pinned alias to the same existing secret,
  // grants each pinned grant, and stores its revision.
  ghost predicate Authorised(s: Project, i: Intent) {
    && i.extension in s.extensions
    && var e := s.extensions[i.extension];
       && e.enabled && i.slot in e.bindings && e.bindings[i.slot] == i.binding
       && (forall alias | alias in i.secrets :: alias in e.secrets && e.secrets[alias] == i.secrets[alias] && i.secrets[alias] in s.secrets)
       && i.grants <= e.grants.Values
       && i.revision in e.revisions
  }

  ghost predicate ProjectInv(s: Project) {
    var sound :=
      && SlotsDisjoint(s)
      && (forall x | x in s.extensions :: ExtensionOk(s.extensions[x], s.ids, s.secrets))
      && (forall i {:trigger Authorised(s, s.intents[i])} | i in s.intents && s.intents[i].status == Pending :: Authorised(s, s.intents[i]))
      && (forall i | i in s.runs :: i in s.intents && s.runs[i] == s.intents[i].status);
    sound
  }

  /* ----- moving intents ----- */

  ghost predicate RunsOk(intents: map<string, Intent>, runs: map<string, Status>) {
    forall i | i in runs :: i in intents && runs[i] == intents[i].status
  }

  lemma MoveKeepsRuns(s: Project, chosen: set<string>, status: Status)
    requires RunsOk(s.intents, s.runs)
    ensures RunsOk(Move(s, chosen, status).intents, Move(s, chosen, status).runs)
  {
  }

  // Moving intents away from pending keeps the invariant, if those left pending are authorised.
  lemma MoveKeeps(s: Project, chosen: set<string>, status: Status)
    requires status != Pending && SlotsDisjoint(s) && RunsOk(s.intents, s.runs)
    requires forall x | x in s.extensions :: ExtensionOk(s.extensions[x], s.ids, s.secrets)
    requires forall i | i in s.intents && i !in chosen && s.intents[i].status == Pending :: Authorised(s, s.intents[i])
    ensures ProjectInv(Move(s, chosen, status))
  {
    hide ExtensionOk, Injective;
    var t := Move(s, chosen, status);
    assert forall x, slot :: Holds(t, x, slot) <==> Holds(s, x, slot);
    MoveKeepsRuns(s, chosen, status);
    forall i | i in t.intents && t.intents[i].status == Pending
      ensures Authorised(t, t.intents[i])
    {
      assert Authorised(s, s.intents[i]);
    }
  }

  /* ----- replacing ----- */

  lemma ValueOf<K>(m: map<K, string>, k: K)
    requires k in m
    ensures m[k] in m.Values
  {
  }

  lemma RenamedIds<K(!new)>(had: map<K, string>, wanted: set<K>, newIds: map<K, string>, ids: set<string>)
    requires had.Values <= ids && Injective(had) && FreshIds(had, wanted, newIds, ids)
    ensures var m := Renamed(had, wanted, newIds);
            && m.Keys == wanted && m.Values <= ids + newIds.Values && Injective(m)
            && (forall k | k in had && k in wanted :: m[k] == had[k])
            && (forall k | k in had :: had[k] in m.Values <==> k in wanted)
  {
    var m := Renamed(had, wanted, newIds);
    forall k | k in m
      ensures m[k] in ids + newIds.Values
    {
      if k in had { ValueOf(had, k); } else { ValueOf(newIds, k); }
    }
    forall k | k in had && had[k] in m.Values
      ensures k in wanted
    {
      ValueOf(had, k);
      var j :| j in m && m[j] == had[k];
    }
    forall k | k in had ensures had[k] in ids { ValueOf(had, k); }
  }

  lemma {:induction false} SecretMapIs(secrets: seq<(string, string)>)
    requires forall i, j | 0 <= i < j < |secrets| :: secrets[i].0 != secrets[j].0
    ensures forall alias, id :: (alias, id) in secrets <==> alias in SecretMap(secrets) && SecretMap(secrets)[alias] == id
    decreases |secrets|
  {
    if secrets != [] {
      var n := |secrets| - 1;
      SecretMapIs(secrets[..n]);
      assert secrets == secrets[..n] + [secrets[n]];
      assert forall i | 0 <= i < n :: secrets[..n][i] == secrets[i];
    }
  }

  // What survives a replacement: the slot is still bound, each pin still configured alike, each granted origin still allowed.
  predicate StillConfigured(e: Extension, c: Config, i: Intent) {
    && i.slot in c.bindings
    && (forall alias | alias in i.secrets :: (alias, i.secrets[alias]) in c.secrets)
    && (forall origin | origin in e.grants && e.grants[origin] in i.grants :: origin in c.origins)
  }

  // The cancelling query is exact: it finds an authorised intent invalid exactly when its slot, a pin or a grant is gone.
  lemma InvalidatedIsExact(s: Project, extension: string, c: Config, newBindings: map<Slot, string>, newGrants: map<string, string>, i: Intent)
    requires ProjectInv(s) && extension in s.extensions && ValidConfig(c) && FreshConfig(s, extension, c, newBindings, newGrants)
    requires Authorised(s, i) && i.extension == extension
    ensures Invalidated(Reconfigured(s.extensions[extension], c, newBindings, newGrants), i) <==> !StillConfigured(s.extensions[extension], c, i)
  {
    hide ProjectInv;
    OwnIds(s, extension);
    var had := s.extensions[extension];
    var e := Reconfigured(had, c, newBindings, newGrants);
    RenamedIds(had.bindings, SlotsOf(c.bindings), newBindings, s.ids);
    RenamedIds(had.grants, OriginsOf(c.origins), newGrants, s.ids);
    SecretMapIs(c.secrets);
    assert i.binding in e.bindings.Values <==> i.slot in c.bindings;
    PinsAreExact(c, i, e);
    GrantsAreExact(had, e, c, i);
  }

  lemma OwnIds(s: Project, extension: string)
    requires ProjectInv(s) && extension in s.extensions
    ensures ExtensionOk(s.extensions[extension], s.ids, s.secrets)
  {
  }

  lemma PinsAreExact(c: Config, i: Intent, e: Extension)
    requires e.secrets == SecretMap(c.secrets)
    requires forall alias, id :: (alias, id) in c.secrets <==> alias in SecretMap(c.secrets) && SecretMap(c.secrets)[alias] == id
    ensures (exists alias | alias in i.secrets :: alias !in e.secrets || e.secrets[alias] != i.secrets[alias]) <==>
            !(forall alias | alias in i.secrets :: (alias, i.secrets[alias]) in c.secrets)
  {
    hide SecretMap;
  }

  lemma GrantsAreExact(had: Extension, e: Extension, c: Config, i: Intent)
    requires i.grants <= had.grants.Values
    requires forall origin | origin in had.grants :: had.grants[origin] in e.grants.Values <==> origin in OriginsOf(c.origins)
    ensures (exists g | g in i.grants :: g !in e.grants.Values) <==>
            !(forall origin | origin in had.grants && had.grants[origin] in i.grants :: origin in c.origins)
  {
    if g :| g in i.grants && g !in e.grants.Values {
      var origin :| origin in had.grants && had.grants[origin] == g;
    }
  }

  lemma ReconfiguredOk(s: Project, extension: string, c: Config, newBindings: map<Slot, string>, newGrants: map<string, string>)
    requires ProjectInv(s) && extension in s.extensions && ValidConfig(c) && FreshConfig(s, extension, c, newBindings, newGrants)
    requires SecretsExist(s, c.secrets)
    ensures var e := Reconfigured(s.extensions[extension], c, newBindings, newGrants);
            && ExtensionOk(e, s.ids + newBindings.Values + newGrants.Values, s.secrets)
            && e.bindings.Keys == SlotsOf(c.bindings) && e.enabled == s.extensions[extension].enabled
            && (forall slot | slot in e.bindings && slot in s.extensions[extension].bindings ::
                  e.bindings[slot] == s.extensions[extension].bindings[slot])
  {
    hide ProjectInv;
    OwnIds(s, extension);
    var had := s.extensions[extension];
    RenamedIds(had.bindings, SlotsOf(c.bindings), newBindings, s.ids);
    RenamedIds(had.grants, OriginsOf(c.origins), newGrants, s.ids);
    SecretMapIs(c.secrets);
    forall id | id in SecretMap(c.secrets).Values
      ensures id in s.secrets
    {
      var alias :| alias in SecretMap(c.secrets) && SecretMap(c.secrets)[alias] == id;
      assert (alias, id) in c.secrets;
    }
  }

  // What an intent that stays configured pins is still there after the replacement.
  lemma StillAuthorised(s: Project, t: Project, extension: string, c: Config, newBindings: map<Slot, string>,
                        newGrants: map<string, string>, i: Intent)
    requires ProjectInv(s) && extension in s.extensions && ValidConfig(c) && FreshConfig(s, extension, c, newBindings, newGrants)
    requires Authorised(s, i) && i.extension == extension && !Invalidated(Reconfigured(s.extensions[extension], c, newBindings, newGrants), i)
    requires t.extensions == s.extensions[extension := Reconfigured(s.extensions[extension], c, newBindings, newGrants)] && t.secrets == s.secrets
    ensures Authorised(t, i)
  {
    InvalidatedIsExact(s, extension, c, newBindings, newGrants, i);
    OwnIds(s, extension);
    hide ProjectInv;
    var had := s.extensions[extension];
    RenamedIds(had.bindings, SlotsOf(c.bindings), newBindings, s.ids);
    hide Injective, FreshIds, ExtensionOk;
  }

  lemma ReplaceKeeps(s: Project, extension: string, c: Config, newBindings: map<Slot, string>, newGrants: map<string, string>)
    requires ProjectInv(s)
    ensures ProjectInv(Replace(s, extension, c, newBindings, newGrants))
  {
    hide Reconfigured, Invalidated, ExtensionOk, Authorised, FreshConfig, ValidConfig, BindingsFit;
    if ReplaceProblem(s, extension, c).None? && FreshConfig(s, extension, c, newBindings, newGrants) {
      var e := Reconfigured(s.extensions[extension], c, newBindings, newGrants);
      var t := s.(extensions := s.extensions[extension := e], ids := s.ids + newBindings.Values + newGrants.Values);
      var gone := Uncovered(t, extension);
      ReconfiguredOk(s, extension, c, newBindings, newGrants);
      ReplacedSlots(s, t, extension, c);
      ReplacedExtensions(s, t, extension);
      forall i | i in t.intents && i !in gone && t.intents[i].status == Pending
        ensures Authorised(t, t.intents[i])
      {
        assert Authorised(s, s.intents[i]);
        if s.intents[i].extension == extension {
          StillAuthorised(s, t, extension, c, newBindings, newGrants, s.intents[i]);
        } else {
          OthersStayAuthorised(s, t, extension, s.intents[i]);
        }
      }
      MoveKeeps(t, gone, Cancelled);
    }
  }

  lemma OthersStayAuthorised(s: Project, t: Project, extension: string, i: Intent)
    requires Authorised(s, i) && i.extension != extension && extension in t.extensions
    requires t.extensions == s.extensions[extension := t.extensions[extension]] && t.secrets == s.secrets
    ensures Authorised(t, i)
  {
  }

  lemma ReplacedSlots(s: Project, t: Project, extension: string, c: Config)
    requires SlotsDisjoint(s) && extension in s.extensions && extension in t.extensions
    requires t.extensions == s.extensions[extension := t.extensions[extension]]
    requires t.extensions[extension].enabled == s.extensions[extension].enabled && t.extensions[extension].bindings.Keys == SlotsOf(c.bindings)
    requires s.extensions[extension].enabled ==> SlotsFree(s, extension, SlotsOf(c.bindings))
    ensures SlotsDisjoint(t)
  {
    forall x, y, slot | Holds(t, x, slot) && Holds(t, y, slot)
      ensures x == y
    {
      if x != extension { assert Holds(s, x, slot); }
      if y != extension { assert Holds(s, y, slot); }
    }
  }

  lemma ReplacedExtensions(s: Project, t: Project, extension: string)
    requires ProjectInv(s) && extension in t.extensions && t.extensions == s.extensions[extension := t.extensions[extension]]
    requires s.ids <= t.ids && t.secrets == s.secrets && ExtensionOk(t.extensions[extension], t.ids, t.secrets)
    ensures forall x | x in t.extensions :: ExtensionOk(t.extensions[x], t.ids, t.secrets)
  {
    hide Injective;
    forall x | x in t.extensions && x != extension ensures ExtensionOk(t.extensions[x], t.ids, t.secrets) { OwnIds(s, x); }
  }

  // After a replacement a pending intent of the extension is pending still exactly when what it pins is configured still;
  // every other intent, and every slot and origin that stays, is as before.
  lemma ReplaceCancelsExactly(s: Project, extension: string, c: Config, newBindings: map<Slot, string>, newGrants: map<string, string>, id: string)
    requires ProjectInv(s) && ReplaceProblem(s, extension, c).None? && FreshConfig(s, extension, c, newBindings, newGrants) && id in s.intents
    ensures var t := Replace(s, extension, c, newBindings, newGrants);
            && id in t.intents && extension in s.extensions
            && (if s.intents[id].extension == extension && s.intents[id].status == Pending then
                  t.intents[id].status == (if StillConfigured(s.extensions[extension], c, s.intents[id]) then Pending else Cancelled)
                else t.intents[id] == s.intents[id])
            && extension in t.extensions && t.extensions[extension].bindings.Keys == SlotsOf(c.bindings)
            && forall slot | slot in t.extensions[extension].bindings && slot in s.extensions[extension].bindings ::
                 t.extensions[extension].bindings[slot] == s.extensions[extension].bindings[slot]
  {
    hide Reconfigured, Invalidated, Authorised, FreshConfig, ProjectInv, StillConfigured, ValidConfig, ReplaceProblem, Replace, SecretsExist,
      ExtensionOk;
    ReplaceableConfig(s, extension, c);
    ReconfiguredOk(s, extension, c, newBindings, newGrants);
    ReplacedIntent(s, extension, c, newBindings, newGrants, id);
    if s.intents[id].extension == extension && s.intents[id].status == Pending {
      PendingIsAuthorised(s, id);
      InvalidatedIsExact(s, extension, c, newBindings, newGrants, s.intents[id]);
    }
  }

  // What replacing does, in terms of the new rows.
  lemma ReplacedIntent(s: Project, extension: string, c: Config, newBindings: map<Slot, string>, newGrants: map<string, string>, id: string)
    requires ReplaceProblem(s, extension, c).None? && extension in s.extensions && id in s.intents
    requires FreshConfig(s, extension, c, newBindings, newGrants)
    ensures var t := Replace(s, extension, c, newBindings, newGrants);
            var e := Reconfigured(s.extensions[extension], c, newBindings, newGrants);
            var i := s.intents[id];
            && id in t.intents && extension in t.extensions && t.extensions[extension] == e
            && t.intents[id] == if i.extension == extension && i.status == Pending && Invalidated(e, i) then i.(status := Cancelled) else i
  {
    hide Reconfigured, Invalidated, FreshConfig, ReplaceProblem;
  }

  lemma ReplaceableConfig(s: Project, extension: string, c: Config)
    requires ReplaceProblem(s, extension, c).None?
    ensures extension in s.extensions && ValidConfig(c) && SecretsExist(s, c.secrets)
  {
  }

  lemma PendingIsAuthorised(s: Project, id: string)
    requires ProjectInv(s) && id in s.intents && s.intents[id].status == Pending
    ensures Authorised(s, s.intents[id])
  {
  }

  /* ----- the other steps ----- */

  // Extensions, secrets and IDs only gain: what was authorised stays so.
  lemma SameAuthority(s: Project, t: Project)
    requires ProjectInv(s) && t.intents == s.intents && t.runs == s.runs && s.ids <= t.ids && s.secrets.Keys <= t.secrets.Keys
    requires s.extensions.Keys <= t.extensions.Keys
    requires forall x | x in t.extensions :: ExtensionOk(t.extensions[x], t.ids, t.secrets)
    requires forall x | x in s.extensions :: t.extensions[x] == s.extensions[x] || t.extensions[x] == s.extensions[x].(enabled := true)
    requires SlotsDisjoint(t)
    ensures ProjectInv(t)
  {
    hide ExtensionOk, SlotsDisjoint;
    forall i | i in t.intents && t.intents[i].status == Pending
      ensures Authorised(t, t.intents[i])
    {
      assert Authorised(s, s.intents[i]);
    }
  }

  lemma CreateKeeps(s: Project, id: string, source: string)
    requires ProjectInv(s)
    ensures ProjectInv(CreateExtension(s, id, source))
  {
    hide Authorised, IsBlank;
    var t := CreateExtension(s, id, source);
    if t != s {
      assert ExtensionOk(t.extensions[id], t.ids, t.secrets);
      hide ExtensionOk;
      forall x | x in s.extensions ensures ExtensionOk(s.extensions[x], s.ids, s.secrets) {}
      assert forall x, slot :: Holds(t, x, slot) <==> Holds(s, x, slot);
      SameAuthority(s, t);
    }
  }

  lemma EnableKeeps(s: Project, id: string)
    requires ProjectInv(s)
    ensures ProjectInv(Enable(s, id))
  {
    hide Authorised, BindingsFit, Injective;
    var t := Enable(s, id);
    if t != s {
      EnabledSlots(s, id);
      SameAuthority(s, t);
    }
  }

  lemma EnabledSlots(s: Project, id: string)
    requires SlotsDisjoint(s) && EnableProblem(s, id).None?
    ensures SlotsDisjoint(Enable(s, id))
  {
    var t := Enable(s, id);
    assert forall slot | Holds(t, id, slot) :: slot in s.extensions[id].bindings.Keys;
    assert forall x, slot | x != id :: Holds(t, x, slot) <==> Holds(s, x, slot);
    hide BindingsFit, Enable, Holds;
  }

  lemma DisableKeeps(s: Project, id: string)
    requires ProjectInv(s)
    ensures ProjectInv(Disable(s, id))
  {
    hide Injective;
    if id in s.extensions {
      var t := s.(extensions := s.extensions[id := s.extensions[id].(enabled := false)]);
      forall x, slot | Holds(t, x, slot) ensures Holds(s, x, slot) {}
      OwnIds(s, id);
      ReplacedExtensions(s, t, id);
      forall i | i in t.intents && i !in PendingOf(s, id) && t.intents[i].status == Pending
        ensures Authorised(t, t.intents[i])
      {
        assert Authorised(s, s.intents[i]);
        OthersStayAuthorised(s, t, id, s.intents[i]);
      }
      MoveKeeps(t, PendingOf(s, id), Cancelled);
    }
  }

  lemma ReplaceSecretKeeps(s: Project, secret: string)
    requires ProjectInv(s)
    ensures ProjectInv(ReplaceSecret(s, secret))
  {
    hide ExtensionOk, Authorised;
    if secret in s.secrets {
      SecretWritten(s, secret, s.secrets[secret] + 1);
      MoveKeeps(s.(secrets := s.secrets[secret := s.secrets[secret] + 1]), PinnedTo(s, secret), Cancelled);
    }
  }

  // A secret gets a version: nothing that was authorised loses it.
  lemma SecretWritten(s: Project, secret: string, version: nat)
    requires ProjectInv(s)
    ensures ProjectInv(s.(secrets := s.secrets[secret := version]))
  {
    hide Injective, Authorised;
    var t := s.(secrets := s.secrets[secret := version]);
    forall x | x in t.extensions ensures ExtensionOk(t.extensions[x], t.ids, t.secrets) { OwnIds(s, x); }
    assert forall x, slot :: Holds(t, x, slot) <==> Holds(s, x, slot);
    SameAuthority(s, t);
  }

  lemma WithoutSecretOk(e: Extension, ids: set<string>, secrets: map<string, nat>, secret: string)
    requires ExtensionOk(e, ids, secrets)
    ensures ExtensionOk(WithoutSecret(e, secret), ids, secrets - {secret})
  {
    hide Injective;
    var f := WithoutSecret(e, secret);
    forall id | id in f.secrets.Values
      ensures id in secrets && id != secret
    {
      var alias :| alias in f.secrets && f.secrets[alias] == id;
      ValueOf(e.secrets, alias);
    }
  }

  lemma DeleteSecretKeeps(s: Project, secret: string)
    requires ProjectInv(s)
    ensures ProjectInv(DeleteSecret(s, secret))
  {
    hide ExtensionOk, Authorised, SlotsDisjoint, WithoutSecret, Move;
    if secret in s.secrets {
      var t := s.(secrets := s.secrets - {secret}, extensions := map id | id in s.extensions :: WithoutSecret(s.extensions[id], secret));
      UnboundOk(s, t, secret);
      forall i | i in t.intents && i !in PinnedTo(s, secret) && t.intents[i].status == Pending
        ensures Authorised(t, t.intents[i])
      {
        PendingIsAuthorised(s, i);
        UnpinnedStays(s, t, secret, s.intents[i]);
      }
      MoveKeeps(t, PinnedTo(s, secret), Cancelled);
    }
  }

  lemma UnboundOk(s: Project, t: Project, secret: string)
    requires ProjectInv(s) && t.ids == s.ids && t.secrets == s.secrets - {secret}
    requires t.extensions == map id | id in s.extensions :: WithoutSecret(s.extensions[id], secret)
    ensures SlotsDisjoint(t) && forall x | x in t.extensions :: ExtensionOk(t.extensions[x], t.ids, t.secrets)
  {
    hide ExtensionOk, Authorised;
    forall x | x in t.extensions
      ensures ExtensionOk(t.extensions[x], t.ids, t.secrets)
    {
      WithoutSecretOk(s.extensions[x], s.ids, s.secrets, secret);
    }
    assert forall x, slot :: Holds(t, x, slot) <==> Holds(s, x, slot);
  }

  lemma UnpinnedStays(s: Project, t: Project, secret: string, i: Intent)
    requires Authorised(s, i) && secret !in i.secrets.Values
    requires t.secrets == s.secrets - {secret} && t.extensions == map id | id in s.extensions :: WithoutSecret(s.extensions[id], secret)
    ensures Authorised(t, i)
  {
    forall alias | alias in i.secrets
      ensures i.secrets[alias] != secret
    {
      ValueOf(i.secrets, alias);
    }
  }

  lemma AppendKeeps(s: Project, id: string, collection: string, operation: RecordOperation, event: string)
    requires ProjectInv(s)
    ensures ProjectInv(Append(s, id, collection, operation, event))
  {
    hide Injective;
    var t := Append(s, id, collection, operation, event);
    if t != s {
      assert forall x, slot :: Holds(t, x, slot) <==> Holds(s, x, slot);
      OwnIds(s, t.intents[id].extension);
      AppendedIsAuthorised(s, t, id);
      forall i | i in t.intents && t.intents[i].status == Pending && i != id
        ensures Authorised(t, t.intents[i])
      {
        assert Authorised(s, s.intents[i]);
      }
    }
  }

  lemma AppendedIsAuthorised(s: Project, t: Project, id: string)
    requires id in t.intents && t.extensions == s.extensions && t.secrets == s.secrets && t.intents[id].extension in s.extensions
    requires var i := t.intents[id]; var e := s.extensions[i.extension];
             && e.enabled && i.slot in e.bindings && i.binding == e.bindings[i.slot] && i.secrets == e.secrets && i.grants == e.grants.Values
             && i.revision == e.revision && ExtensionOk(e, s.ids, s.secrets)
    ensures Authorised(t, t.intents[id])
  {
    var i := t.intents[id];
    forall alias | alias in i.secrets ensures i.secrets[alias] in s.secrets { ValueOf(i.secrets, alias); }
  }

  // Starting an authorised intent never finds anything wrong; so its conflict branches are for intents no longer pending.
  lemma AuthorisedStarts(s: Project, id: string)
    requires ProjectInv(s) && id in s.intents && s.intents[id].status == Pending
    ensures StartProblem(s, id) == None
  {
    assert Authorised(s, s.intents[id]);
    var i := s.intents[id];
    ValueOf(s.extensions[i.extension].bindings, i.slot);
  }

  lemma MovesKeep(s: Project, e: Event)
    requires ProjectInv(s) && (e.StartEvent? || e.FinishEvent? || e.FailPendingEvent?)
    ensures ProjectInv(Act(s, e))
  {
    hide ExtensionOk, StartProblem, SlotsDisjoint, Authorised;
    match e
    case StartEvent(intent) => MoveKeeps(s, {intent}, Running);
    case FinishEvent(intent, status) => if status != Pending { MoveKeeps(s, {intent}, status); }
    case FailPendingEvent(intent) => MoveKeeps(s, {intent}, Failed);
  }

  /* ----- startup ----- */

  ghost predicate NothingOpen(s: Project) {
    && (forall i | i in s.intents :: !IsOpen(s.intents[i].status))
    && (forall i | i in s.runs :: !IsOpen(s.runs[i]))
    && (forall i | i in s.before :: !IsOpen(s.before[i]))
  }

  lemma NothingMoves(s: Project, none: set<string>, status: Status)
    requires none == {}
    ensures Move(s, none, status) == s
  {
    assert SetStatus(s.intents, none, status) == s.intents && SetRuns(s.runs, none, status) == s.runs;
  }

  lemma OpenDoesNotMatter(s: Project, open: bool)
    requires ProjectInv(s)
    ensures ProjectInv(s.(open := open))
  {
    hide ExtensionOk, Injective;
    AuthorityUnmoved(s, s.(open := open));
  }

  lemma RestartKeeps(s: Project)
    requires ProjectInv(s)
    ensures ProjectInv(Restart(s))
  {
    hide ExtensionOk, StartProblem, SlotsDisjoint, Authorised, HookWasCut, Move;
    if !s.open && !HookWasCut(s) {
      MoveKeeps(s, OpenIntents(s), Interrupted);
      OpenDoesNotMatter(Move(s, OpenIntents(s), Interrupted), true);
    }
  }

  // The interruption itself leaves nothing open, and what had ended as it was.
  lemma InterruptionCloses(s: Project)
    requires RunsOk(s.intents, s.runs)
    ensures var t := Closed(s);
            && NothingOpen(t)
            && (forall i | i in s.intents && !IsOpen(s.intents[i].status) :: i in t.intents && t.intents[i] == s.intents[i])
            && (forall i | i in s.before && !IsOpen(s.before[i]) :: i in t.before && t.before[i] == s.before[i])
  {
    hide SetStatus, SetRuns, InterruptAll, OpenIntents, RunsOk, IsOpen;
    BeforeCloses(s.before);
    IntentsClose(s);
  }

  lemma IntentsClose(s: Project)
    requires RunsOk(s.intents, s.runs)
    ensures forall i | i in s.intents ::
        var closed := SetStatus(s.intents, OpenIntents(s), Interrupted)[i];
        !IsOpen(closed.status) && (!IsOpen(s.intents[i].status) ==> closed == s.intents[i])
    ensures forall i | i in s.runs :: !IsOpen(SetRuns(s.runs, OpenIntents(s), Interrupted)[i])
  {
    hide SetStatus, SetRuns;
    assert forall i | i in s.intents :: i in OpenIntents(s) <==> IsOpen(s.intents[i].status);
    hide OpenIntents;
  }

  lemma BeforeCloses(runs: map<string, Status>)
    ensures var closed := InterruptAll(runs);
            closed.Keys == runs.Keys && forall i | i in runs :: !IsOpen(closed[i]) && (!IsOpen(runs[i]) ==> closed[i] == runs[i])
  {
  }

  // Startup does what it is for exactly if no run of a Before hook was cut off; otherwise it fails and changes nothing.
  lemma StartupIsExact(s: Project)
    requires ProjectInv(s)
    ensures Startup(s).Some? <==> forall run | run in s.before :: !IsOpen(s.before[run])
    ensures Startup(s) == Some(Closed(s).(open := true)) <==> forall run | run in s.before :: !IsOpen(s.before[run])
    ensures !s.open ==> Restart(s) == if HookWasCut(s) then s else Closed(s).(open := true)
  {
    hide ProjectInv, Move;
    if !HookWasCut(s) {
      assert InterruptAll(s.before) == s.before;
      assert s.(before := InterruptAll(s.before)) == s;
    }
  }

  // A service that starts has nothing pending or running, and what had ended is as it was; if it dies at once, the next start
  // changes nothing.
  lemma RestartClosesEverything(s: Project)
    requires ProjectInv(s) && !s.open
    ensures var t := Restart(s);
            && (t.open <==> forall run | run in s.before :: !IsOpen(s.before[run]))
            && (t.open ==>
                  && NothingOpen(t) && Restart(t.(open := false)) == t
                  && (forall i | i in s.intents && !IsOpen(s.intents[i].status) :: i in t.intents && t.intents[i] == s.intents[i])
                  && (forall i | i in s.before && !IsOpen(s.before[i]) :: i in t.before && t.before[i] == s.before[i]))
            && (!t.open ==> t == s)
  {
    assert RunsOk(s.intents, s.runs);
    StartupIsExact(s);
    InterruptionCloses(s);
    hide ProjectInv, RunsOk, Closed, Startup;
    if !HookWasCut(s) {
      var t := Closed(s).(open := true);
      assert NothingOpen(t) by { OpenDoesNotShow(Closed(s)); }
      StartsWithNothingOpen(t.(open := false));
      hide NothingOpen;
    }
  }

  lemma OpenDoesNotShow(s: Project)
    requires NothingOpen(s)
    ensures NothingOpen(s.(open := true)) && NothingOpen(s.(open := false))
  {
  }

  lemma StartsWithNothingOpen(s: Project)
    requires NothingOpen(s) && !s.open
    ensures Restart(s) == s.(open := true)
  {
    hide Move;
    NothingMoves(s, OpenIntents(s), Interrupted);
  }

  // Neither collections, nor runs of Before hooks, nor the pruning of runs concern the authority of an intent.
  lemma AuthorityUnmoved(s: Project, t: Project)
    requires ProjectInv(s) && (t.extensions, t.intents, t.secrets, t.ids) == (s.extensions, s.intents, s.secrets, s.ids)
    requires RunsOk(t.intents, t.runs)
    ensures ProjectInv(t)
  {
    hide ExtensionOk;
    assert forall x, slot :: Holds(t, x, slot) <==> Holds(s, x, slot);
    forall i | i in t.intents && t.intents[i].status == Pending
      ensures Authorised(t, t.intents[i])
    {
      assert Authorised(s, s.intents[i]);
    }
  }

  lemma SmallStepsKeep(s: Project, e: Event)
    requires ProjectInv(s)
    requires e.CreateSecretEvent? || e.CreateCollectionEvent? || e.StartBeforeEvent? || e.FinishBeforeEvent? || e.PruneRunsEvent?
    ensures ProjectInv(Act(s, e))
  {
    hide ExtensionOk, Authorised, SlotsDisjoint;
    match e
    case CreateSecretEvent(secret) => if secret !in s.secrets { SecretWritten(s, secret, 1); }
    case _ => AuthorityUnmoved(s, Act(s, e));
  }

  lemma ActKeeps(s: Project, e: Event)
    requires ProjectInv(s)
    ensures ProjectInv(Act(s, e))
  {
    hide ProjectInv, Replace, Enable, Disable, ReplaceSecret, DeleteSecret, Append, Start, Finish, FailPending, CreateExtension;
    match e
    case CreateEvent(extension, source) => CreateKeeps(s, extension, source);
    case ReplaceEvent(extension, config, newBindings, newGrants) => ReplaceKeeps(s, extension, config, newBindings, newGrants);
    case EnableEvent(extension) => EnableKeeps(s, extension);
    case DisableEvent(extension) => DisableKeeps(s, extension);
    case ReplaceSecretEvent(secret) => ReplaceSecretKeeps(s, secret);
    case DeleteSecretEvent(secret) => DeleteSecretKeeps(s, secret);
    case AppendEvent(intent, collection, operation, event) => AppendKeeps(s, intent, collection, operation, event);
    case StartEvent(_) => MovesKeep(s, e);
    case FinishEvent(_, _) => MovesKeep(s, e);
    case FailPendingEvent(_) => MovesKeep(s, e);
    case CrashEvent =>
    case RestartEvent =>
    case _ => SmallStepsKeep(s, e);
  }

  lemma StepKeeps(s: Project, e: Event)
    requires ProjectInv(s)
    ensures ProjectInv(Step(s, e))
  {
    hide ProjectInv, Act, Restart;
    match e
    case CrashEvent => OpenDoesNotMatter(s, false);
    case RestartEvent => RestartKeeps(s);
    case _ => ActKeeps(s, e);
  }

  lemma {:induction false} RunKeeps(s: Project, events: seq<Event>)
    requires ProjectInv(s)
    ensures ProjectInv(Run(s, events))
    decreases |events|
  {
    hide ProjectInv, Step;
    if events != [] {
      StepKeeps(s, events[0]);
      RunKeeps(Step(s, events[0]), events[1..]);
    }
  }

  /* ----- what holds over every run ----- */

  lemma EmptyIsSound()
    ensures ProjectInv(EMPTY)
  {
  }

  // In every reachable state each pending intent is authorised by the present configuration, and starting it never conflicts.
  lemma PendingIntentsAreAuthorised(events: seq<Event>, id: string)
    ensures var s := Run(EMPTY, events);
            id in s.intents && s.intents[id].status == Pending ==> Authorised(s, s.intents[id]) && StartProblem(s, id) == None
  {
    hide Step, Authorised, StartProblem, SlotsDisjoint, ExtensionOk;
    EmptyIsSound();
    RunKeeps(EMPTY, events);
    var s := Run(EMPTY, events);
    if id in s.intents && s.intents[id].status == Pending { AuthorisedStarts(s, id); }
  }

  // In every reachable state at most one enabled extension holds a slot, so looking it up has one answer.
  lemma SlotsNeverShared(events: seq<Event>, slot: Slot, x: string, y: string)
    ensures var s := Run(EMPTY, events); Holds(s, x, slot) && Holds(s, y, slot) ==> x == y
  {
    hide Step, Authorised, ExtensionOk;
    EmptyIsSound();
    RunKeeps(EMPTY, events);
  }

  // While its run is kept, an intent and its run have one status.
  lemma RunsFollowTheirIntents(events: seq<Event>, id: string)
    ensures var s := Run(EMPTY, events); id in s.runs ==> id in s.intents && s.runs[id] == s.intents[id].status
  {
    hide Step, Authorised, ExtensionOk;
    EmptyIsSound();
    RunKeeps(EMPTY, events);
  }

  function Stage(status: Status): nat {
    match status
    case Pending => 0
    case Running => 1
    case _ => 2
  }

  // The intent keeps what it pinned, and its status only advances; a final one stays.
  ghost predicate Advances(i: Intent, j: Intent) {
    && j == i.(status := j.status)
    && (j.status == i.status || Stage(i.status) < Stage(j.status))
  }

  // The intent is still there, and has at most moved on.
  ghost predicate Proceeds(s: Project, t: Project, id: string) {
    id in s.intents ==> id in t.intents && Advances(s.intents[id], t.intents[id])
  }

  lemma StepProceeds(s: Project, e: Event, id: string)
    ensures Proceeds(s, Step(s, e), id)
  {
    hide Proceeds, Restart, CreateExtension, Replace, Enable, Disable, ReplaceSecret, DeleteSecret, Append, Start, Finish, FailPending;
    SameIntents(s, Step(s, e), id);
    match e
    case RestartEvent => RestartProceeds(s, id);
    case ReplaceEvent(extension, config, newBindings, newGrants) => ReplaceProceeds(s, extension, config, newBindings, newGrants, id);
    case DisableEvent(extension) => RevokingProceeds(s, extension, "", id);
    case ReplaceSecretEvent(secret) => RevokingProceeds(s, "", secret, id);
    case DeleteSecretEvent(secret) => RevokingProceeds(s, "", secret, id);
    case StartEvent(intent) => StartProceeds(s, intent, id);
    case FinishEvent(intent, status) => FinishProceeds(s, intent, status, id);
    case FailPendingEvent(intent) => FinishProceeds(s, intent, Failed, id);
    case AppendEvent(intent, collection, operation, event) => AppendProceeds(s, intent, collection, operation, event, id);
    case CreateEvent(extension, source) => EditsProceed(s, extension, source, id);
    case EnableEvent(extension) => EditsProceed(s, extension, "", id);
    case _ =>
  }

  lemma SameIntents(s: Project, t: Project, id: string)
    ensures t.intents == s.intents ==> Proceeds(s, t, id)
  {
  }

  lemma EditsProceed(s: Project, extension: string, source: string, id: string)
    ensures Proceeds(s, CreateExtension(s, extension, source), id) && Proceeds(s, Enable(s, extension), id)
  {
    hide EnableProblem, IsBlank;
  }

  // Only pending intents are cancelled.
  lemma ReplaceProceeds(s: Project, extension: string, c: Config, newBindings: map<Slot, string>, newGrants: map<string, string>, id: string)
    ensures Proceeds(s, Replace(s, extension, c, newBindings, newGrants), id)
  {
    hide FreshConfig, ReplaceProblem, Reconfigured, Invalidated;
  }

  lemma RevokingProceeds(s: Project, extension: string, secret: string, id: string)
    ensures Proceeds(s, Disable(s, extension), id)
    ensures Proceeds(s, ReplaceSecret(s, secret), id) && Proceeds(s, DeleteSecret(s, secret), id)
  {
    hide Move, Proceeds, WithoutSecret;
    SameIntents(s, s, id);
    if extension in s.extensions {
      MoveProceeds(s, s.(extensions := s.extensions[extension := s.extensions[extension].(enabled := false)]), PendingOf(s, extension), Cancelled, id);
    }
    if secret in s.secrets {
      MoveProceeds(s, s.(secrets := s.secrets[secret := s.secrets[secret] + 1]), PinnedTo(s, secret), Cancelled, id);
      MoveProceeds(s, s.(secrets := s.secrets - {secret}, extensions := map x | x in s.extensions :: WithoutSecret(s.extensions[x], secret)),
                   PinnedTo(s, secret), Cancelled, id);
    }
  }

  lemma StartProceeds(s: Project, intent: string, id: string)
    ensures Proceeds(s, Start(s, intent), id)
  {
    hide StartProblem;
    StartsPending(s, intent);
  }

  lemma MoveProceeds(s: Project, t: Project, chosen: set<string>, status: Status, id: string)
    requires t.intents == s.intents && (id in s.intents && id in chosen ==> Stage(s.intents[id].status) < Stage(status))
    ensures Proceeds(s, Move(t, chosen, status), id)
  {
  }

  lemma FinishProceeds(s: Project, intent: string, status: Status, id: string)
    ensures Proceeds(s, Finish(s, intent, status), id) && Proceeds(s, FailPending(s, intent), id)
  {
    hide Move;
    if intent in s.intents {
      if s.intents[intent].status == Running && status != Pending && status != Running { MoveProceeds(s, s, {intent}, status, id); }
      if s.intents[intent].status == Pending { MoveProceeds(s, s, {intent}, Failed, id); }
    }
  }

  lemma RestartProceeds(s: Project, id: string)
    ensures Proceeds(s, Restart(s), id)
  {
  }

  lemma AppendProceeds(s: Project, intent: string, collection: string, operation: RecordOperation, event: string, id: string)
    ensures Proceeds(s, Append(s, intent, collection, operation, event), id)
  {
    hide Holds, NewIntent;
  }

  lemma StartsPending(s: Project, id: string)
    ensures StartProblem(s, id).None? ==> id in s.intents && s.intents[id].status == Pending
  {
  }

  // Over any run an intent is never forgotten, never repinned, and never runs twice.
  lemma {:induction false} IntentsOnlyAdvance(s: Project, events: seq<Event>, id: string)
    requires id in s.intents
    ensures id in Run(s, events).intents && Advances(s.intents[id], Run(s, events).intents[id])
    decreases |events|
  {
    hide Step;
    if events != [] {
      StepProceeds(s, events[0], id);
      IntentsOnlyAdvance(Step(s, events[0]), events[1..], id);
    }
  }

  /* ----- a Before hook cut off ----- */

  lemma {:induction false} NeverStarts(s: Project, events: seq<Event>)
    requires !s.open && HookWasCut(s)
    ensures Run(s, events) == s
    decreases |events|
  {
    hide HookWasCut, Act;
    if events != [] {
      assert Step(s, events[0]) == s;
      NeverStarts(s, events[1..]);
    }
  }

  ghost predicate IsUpAfter(s: Project, events: seq<Event>) {
    Run(s, events).open
  }

  // A service that is down can come up again exactly if no run of a Before hook was cut off when it died. If one was, nothing
  // will ever change again.
  lemma ComesUpAgain(s: Project)
    requires !s.open
    ensures (exists events :: IsUpAfter(s, events)) <==> forall run | run in s.before :: !IsOpen(s.before[run])
    ensures HookWasCut(s) ==> forall events :: Run(s, events) == s
  {
    hide Act, Move;
    if HookWasCut(s) {
      forall events ensures Run(s, events) == s && !IsUpAfter(s, events) { NeverStarts(s, events); }
    } else {
      assert [RestartEvent][1..] == [] && Run(s, [RestartEvent]) == Step(s, RestartEvent);
      assert IsUpAfter(s, [RestartEvent]);
    }
  }

  // The service starts, a Before hook runs, and the process dies.
  const CUT_OFF: seq<Event> := [RestartEvent, StartBeforeEvent("run"), CrashEvent]

  lemma CutOffRun()
    ensures Run(EMPTY, CUT_OFF) == EMPTY.(before := map["run" := Running])
  {
    hide Replace, Append;
    var up := EMPTY.(open := true);
    NothingMoves(EMPTY, OpenIntents(EMPTY), Interrupted);
    assert Step(EMPTY, CUT_OFF[0]) == up;
    assert Step(up, CUT_OFF[1]) == up.(before := map["run" := Running]);
    assert CUT_OFF[1..][1..][1..] == [];
  }

  // It never starts again.
  lemma ACutHookStopsTheService(events: seq<Event>)
    ensures var s := Run(EMPTY, CUT_OFF);
            && "run" in s.before && IsOpen(s.before["run"]) && Startup(s) == None
            && !s.open && Run(s, events) == s
  {
    CutOffRun();
    var s := EMPTY.(before := map["run" := Running]);
    assert "run" in s.before && HookWasCut(s);
    NeverStarts(s, events);
  }
}
