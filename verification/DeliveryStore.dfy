/**
 The delivery protocol as a state machine. A state holds the tables, and what each live worker has claimed;
 every transaction, and the death and restart of the process, is one step.
 */
module DeliveryStore {
  import opened Prelude
  import opened Deliveries

  const MAX_ACTIVE := 1000
  const MAX_RETAINED := 5000
  const MAX_RETAINED_BYTES := 0x400_0000
  const MAX_WEBHOOKS := 32
  const WORKERS := 4

  datatype Webhook = Webhook(target: string, secret: string, enabled: bool, revision: nat)

  // Deliveries are keyed by their ordinal, which is never reused. Secrets are the configured ones.
  datatype State = State(deliveries: map<nat, Delivery>, nextOrdinal: nat, webhooks: map<string, Webhook>, secrets: set<string>,
                         claims: map<nat, Claim>, open: bool)

  const EMPTY := State(map[], 1, map[], {}, map[], false)

  datatype Intent = Intent(source: Source, sourceId: string, webhook: string, slot: Option<int>, payload: string, allowOff: bool)

  datatype Problem = NotFound | InvalidField | NotRetryable | NoCapacity

  /* ----- aggregates ----- */

  // The sum of a weight over the rows with ordinals below upTo.
  function Total(m: map<nat, Delivery>, upTo: nat, weight: Delivery -> nat): nat {
    if upTo == 0 then 0 else Total(m, upTo - 1, weight) + (if upTo - 1 in m then weight(m[upTo - 1]) else 0)
  }

  function RowWeight(d: Delivery): nat { 1 }

  function ActiveWeight(d: Delivery): nat { if IsActive(d) then 1 else 0 }

  function PayloadWeight(d: Delivery): nat { |d.payload| }

  function ActiveCount(s: State): nat { Total(s.deliveries, s.nextOrdinal, ActiveWeight) }

  function RetainedBytes(s: State): nat { Total(s.deliveries, s.nextOrdinal, PayloadWeight) }

  /* ----- creating ----- */

  predicate IsOldestTerminal(m: map<nat, Delivery>, o: nat) {
    o in m && !IsActive(m[o]) && forall p | p in m && !IsActive(m[p]) :: o <= p
  }

  // Terminal rows leave, oldest first, until there is room for one more row or none is terminal.
  ghost function Pruned(m: map<nat, Delivery>): map<nat, Delivery>
    decreases |m|
  {
    if |m| >= MAX_RETAINED && exists o :: IsOldestTerminal(m, o) then
      var o :| IsOldestTerminal(m, o);
      assert (m - {o}).Keys == m.Keys - {o};
      Pruned(m - {o})
    else m
  }

  predicate Fits(s: State, payload: string) {
    ActiveCount(s) < MAX_ACTIVE && ValidPayload(payload) && RetainedBytes(s) + |payload| <= MAX_RETAINED_BYTES
  }

  function FirstRound(w: Webhook): Round {
    Round(w.revision, w.target, w.secret, 0)
  }

  ghost function Create(s: State, intent: Intent, now: int): (State, Result<nat, Problem>) {
    if intent.webhook !in s.webhooks then (s, Err(NotFound))
    else if !s.webhooks[intent.webhook].enabled && !intent.allowOff then (s, Err(InvalidField))
    else
      var kept := Pruned(s.deliveries);
      var accepted := Fits(s, intent.payload) && |kept| < MAX_RETAINED;
      var d := NewDelivery(intent.source, intent.sourceId, intent.webhook, intent.slot, intent.payload, accepted,
                           FirstRound(s.webhooks[intent.webhook]), now);
      (s.(deliveries := kept[s.nextOrdinal := d], nextOrdinal := s.nextOrdinal + 1), Ok(s.nextOrdinal))
  }

  /* ----- claiming and finishing ----- */

  predicate IsDue(s: State, now: int, o: nat) {
    && o in s.deliveries
    && var d := s.deliveries[o];
       d.status == Pending && d.nextAttemptAt.Some? && d.nextAttemptAt.value <= now && Latest(d.rounds) in d.rounds && d.webhook in s.webhooks
  }

  predicate IsFirstDue(s: State, now: int, o: nat) {
    && IsDue(s, now, o)
    && forall p | p in s.deliveries && IsDue(s, now, p) ::
         s.deliveries[o].createdAt < s.deliveries[p].createdAt || (s.deliveries[o].createdAt == s.deliveries[p].createdAt && o <= p)
  }

  // What the claiming transaction finds wrong with a due delivery, in the order it looks.
  function ClaimObstacle(s: State, d: Delivery): Option<(Status, ErrorCode)>
    requires Latest(d.rounds) in d.rounds && d.webhook in s.webhooks
  {
    if d.rounds[Latest(d.rounds)].secret !in s.secrets then Some((Cancelled, SecretRevoked))
    else if d.source != Test && !s.webhooks[d.webhook].enabled then Some((Cancelled, WebhookDisabled))
    else if d.attemptCount >= MAX_ATTEMPTS || RoundAttempts(d) >= MAX_ROUND_ATTEMPTS then Some((Failed, AttemptInterrupted))
    else if !ValidPayload(d.payload) then Some((Failed, CapacityExceeded))
    else None
  }

  function ClaimRow(s: State, worker: nat, o: nat, now: int): State
    requires IsDue(s, now, o)
  {
    var d := s.deliveries[o];
    match ClaimObstacle(s, d)
    case Some((status, error)) => s.(deliveries := s.deliveries[o := End(d, status, error, now)])
    case None => s.(deliveries := s.deliveries[o := StartAttempt(d)], claims := s.claims[worker := ClaimOf(o, d)])
  }

  // An idle worker of the running service takes the oldest due delivery.
  ghost function ClaimNext(s: State, worker: nat, now: int): State {
    if s.open && worker < WORKERS && worker !in s.claims && exists o :: IsFirstDue(s, now, o) then
      var o :| IsFirstDue(s, now, o);
      ClaimRow(s, worker, o, now)
    else s
  }

  function Finish(s: State, worker: nat, outcome: Outcome, now: int): State {
    if worker !in s.claims then s
    else
      var c := s.claims[worker];
      s.(claims := s.claims - {worker},
         deliveries := if c.ordinal in s.deliveries
           then s.deliveries[c.ordinal := FinishAttempt(s.deliveries[c.ordinal], c, outcome, now)]
           else s.deliveries)
  }

  /* ----- redriving ----- */

  function RetryProblem(s: State, o: nat): Option<Problem> {
    if o !in s.deliveries then Some(NotFound)
    else
      var d := s.deliveries[o];
      if d.status != Failed || d.payload == "" || d.attemptCount >= MAX_ATTEMPTS || d.redrives >= MAX_REDRIVES then Some(NotRetryable)
      else if d.webhook !in s.webhooks || s.webhooks[d.webhook].secret !in s.secrets || !s.webhooks[d.webhook].enabled then Some(NotRetryable)
      else if ActiveCount(s) >= MAX_ACTIVE then Some(NoCapacity)
      else if Latest(d.rounds) + 1 > MAX_ROUNDS then Some(NotRetryable)
      else None
  }

  function Retry(s: State, o: nat, now: int): State {
    if RetryProblem(s, o).Some? then s
    else
      var d := s.deliveries[o];
      s.(deliveries := s.deliveries[o := Redrive(d, FirstRound(s.webhooks[d.webhook]), now)])
  }

  /* ----- webhooks and secrets ----- */

  function CreateWebhook(s: State, id: string, target: string, secret: string): State {
    if |s.webhooks| >= MAX_WEBHOOKS || secret !in s.secrets || id in s.webhooks then s
    else s.(webhooks := s.webhooks[id := Webhook(target, secret, false, 1)])
  }

  function ReplaceWebhook(s: State, id: string, target: string, secret: string): State {
    if id !in s.webhooks || secret !in s.secrets then s
    else
      var w := s.webhooks[id];
      s.(webhooks := s.webhooks[id := w.(target := target, secret := secret, revision := w.revision + 1)])
  }

  function EnableWebhook(s: State, id: string): State {
    if id !in s.webhooks || s.webhooks[id].secret !in s.secrets then s
    else s.(webhooks := s.webhooks[id := s.webhooks[id].(enabled := true)])
  }

  function CancelIf(d: Delivery, selected: bool, error: ErrorCode, now: int): Delivery {
    if selected && d.status == Pending then End(d, Cancelled, error, now) else d
  }

  function CancelPending(m: map<nat, Delivery>, selected: set<nat>, error: ErrorCode, now: int): (n: map<nat, Delivery>)
    ensures n.Keys == m.Keys && forall o | o in m :: n[o] == CancelIf(m[o], o in selected, error, now)
  {
    map o | o in m :: CancelIf(m[o], o in selected, error, now)
  }

  function UntestedOf(s: State, id: string): set<nat> {
    set o | o in s.deliveries && s.deliveries[o].webhook == id && s.deliveries[o].source != Test
  }

  function DisableWebhook(s: State, id: string, now: int): State {
    if id !in s.webhooks then s
    else
      s.(webhooks := s.webhooks[id := s.webhooks[id].(enabled := false)],
         deliveries := CancelPending(s.deliveries, UntestedOf(s, id), WebhookDisabled, now))
  }

  // The webhooks that sign with the secret now.
  function SignedWith(s: State, secret: string): set<string> {
    set id | id in s.webhooks && s.webhooks[id].secret == secret
  }

  function OfWebhooks(s: State, ids: set<string>): set<nat> {
    set o | o in s.deliveries && s.deliveries[o].webhook in ids
  }

  // Deleting a secret disables the webhooks that sign with it and cancels what waits for those webhooks.
  function DeleteSecret(s: State, secret: string, now: int): State {
    if secret !in s.secrets then s
    else
      var revoked := SignedWith(s, secret);
      s.(webhooks := map id | id in s.webhooks :: if id in revoked then s.webhooks[id].(enabled := false) else s.webhooks[id],
         deliveries := CancelPending(s.deliveries, OfWebhooks(s, revoked), SecretRevoked, now),
         secrets := s.secrets - {secret})
  }

  /* ----- stopping, dying and starting ----- */

  function Stop(s: State): State { s.(open := false) }

  // After the service has been told to stop, a worker may drop its claim without recording an outcome.
  function Abandon(s: State, worker: nat): State {
    if s.open then s else s.(claims := s.claims - {worker})
  }

  function Crash(s: State): State { s.(open := false, claims := map[]) }

  predicate HasSecret(secrets: set<string>, d: Delivery) {
    Latest(d.rounds) in d.rounds && d.rounds[Latest(d.rounds)].secret in secrets
  }

  // A test delivery needs no enabled webhook.
  predicate HasWebhook(webhooks: map<string, Webhook>, d: Delivery) {
    d.source == Test || (d.webhook in webhooks && webhooks[d.webhook].enabled)
  }

  predicate IsInterrupted(webhooks: map<string, Webhook>, d: Delivery) {
    d.status == Running && Latest(d.rounds) in d.rounds && d.webhook in webhooks
  }

  function WithoutSecret(secrets: set<string>, m: map<nat, Delivery>): set<nat> {
    set o | o in m && !HasSecret(secrets, m[o])
  }

  function WithoutWebhook(webhooks: map<string, Webhook>, m: map<nat, Delivery>): set<nat> {
    set o | o in m && !HasWebhook(webhooks, m[o])
  }

  function Reopened(s: State, now: int): map<nat, Delivery> {
    map o | o in s.deliveries ::
      var d := s.deliveries[o];
      if IsInterrupted(s.webhooks, d) then Interrupt(d, HasSecret(s.secrets, d), HasWebhook(s.webhooks, d), now) else d
  }

  // The three updates of startup recovery, in order.
  function Recovered(s: State, now: int): map<nat, Delivery> {
    var reopened := Reopened(s, now);
    var kept := CancelPending(reopened, WithoutSecret(s.secrets, reopened), SecretRevoked, now);
    CancelPending(kept, WithoutWebhook(s.webhooks, kept), WebhookDisabled, now)
  }

  function Recover(s: State, now: int): State {
    if s.open || s.claims != map[] then s else s.(deliveries := Recovered(s, now), open := true)
  }

  /* ----- steps and runs ----- */

  datatype Event =
    | CreateEvent(intent: Intent, now: int)
    | ClaimEvent(worker: nat, now: int)
    | FinishEvent(worker: nat, outcome: Outcome, now: int)
    | RetryEvent(ordinal: nat, now: int)
    | CreateWebhookEvent(id: string, target: string, secret: string)
    | ReplaceWebhookEvent(id: string, target: string, secret: string)
    | EnableWebhookEvent(id: string)
    | DisableWebhookEvent(id: string, now: int)
    | CreateSecretEvent(secret: string)
    | DeleteSecretEvent(secret: string, now: int)
    | StopEvent
    | AbandonEvent(worker: nat)
    | CrashEvent
    | RecoverEvent(now: int)

  ghost function Step(s: State, e: Event): State {
    match e
    case CreateEvent(intent, now) => Create(s, intent, now).0
    case ClaimEvent(worker, now) => ClaimNext(s, worker, now)
    case FinishEvent(worker, outcome, now) => Finish(s, worker, outcome, now)
    case RetryEvent(ordinal, now) => Retry(s, ordinal, now)
    case CreateWebhookEvent(id, target, secret) => CreateWebhook(s, id, target, secret)
    case ReplaceWebhookEvent(id, target, secret) => ReplaceWebhook(s, id, target, secret)
    case EnableWebhookEvent(id) => EnableWebhook(s, id)
    case DisableWebhookEvent(id, now) => DisableWebhook(s, id, now)
    case CreateSecretEvent(secret) => s.(secrets := s.secrets + {secret})
    case DeleteSecretEvent(secret, now) => DeleteSecret(s, secret, now)
    case StopEvent => Stop(s)
    case AbandonEvent(worker) => Abandon(s, worker)
    case CrashEvent => Crash(s)
    case RecoverEvent(now) => Recover(s, now)
  }

  ghost function Run(s: State, events: seq<Event>): State
    decreases |events|
  {
    if events == [] then s else Run(Step(s, events[0]), events[1..])
  }
}
