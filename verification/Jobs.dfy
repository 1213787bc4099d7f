/**
 Scheduled jobs over the delivery protocol: each tick consumes the due slot of every due job, creates at most
 one delivery for it, and moves the job to its least run after the tick.
 */
module Jobs {
  import opened Prelude
  import opened Calendar
  import opened Cron
  import CronText
  import D = Deliveries
  import opened DeliveryStore
  import opened DeliveryProofs
  import DeliverySafety

  const MAX_JOBS := 32

  datatype JobRow = JobRow(webhook: string, schedule: Schedule, enabled: bool, nextRunAt: int, lastRunAt: Option<int>)

  // The clock is the latest instant any transaction has read.
  datatype Scheduler = Scheduler(store: State, jobs: map<string, JobRow>, clock: int)

  // What the tick reads of a due job before it changes anything.
  datatype DueJob = DueJob(id: string, webhook: string, schedule: Schedule, scheduled: int)

  datatype Failure = Unreachable | NoWebhook | SlotTaken

  datatype Action =
    | Tick(due: seq<DueJob>)
    | CreateJob(id: string, webhook: string, schedule: Schedule)
    | ReplaceJob(id: string, webhook: string, schedule: Schedule)
    | SetEnabled(id: string, enabled: bool)
    | RunOnce(id: string)
    | Deliver(event: Event)

  datatype Timed = Timed(at: int, action: Action)

  /* ----- the least next run ----- */

  // A ghost reading of Next: the two agree, because the least match is unique.
  ghost function NextRun(schedule: Schedule, after: int): (r: Option<int>)
    ensures IsNext(schedule, after, r)
  {
    if t :| IsNext(schedule, after, Some(t)) then Some(t)
    else
      NeverFires(schedule, after);
      None
  }

  lemma {:induction false} LeastFiring(schedule: Schedule, after: int, u: int)
    requires after < u && Fires(schedule, u)
    ensures exists t :: IsNext(schedule, after, Some(t))
    decreases u - after
  {
    if v :| after < v < u && Fires(schedule, v) {
      LeastFiring(schedule, after, v);
    } else {
      assert IsNext(schedule, after, Some(u));
    }
  }

  lemma NeverFires(schedule: Schedule, after: int)
    requires forall t :: !IsNext(schedule, after, Some(t))
    ensures IsNext(schedule, after, None)
  {
    if u :| after < u && Fires(schedule, u) {
      LeastFiring(schedule, after, u);
    }
  }

  // A schedule that fires once has a next run after every instant.
  lemma NextRunExists(schedule: Schedule, instant: int, after: int)
    requires Fires(schedule, instant)
    ensures NextRun(schedule, after).Some?
  {
    FiresAgain(schedule, instant, after);
  }

  /* ----- the tick ----- */

  predicate IsDueNow(jobs: map<string, JobRow>, id: string, at: int) {
    id in jobs && jobs[id].enabled && jobs[id].nextRunAt <= at
  }

  function DueOf(jobs: map<string, JobRow>, id: string): DueJob
    requires id in jobs
  {
    DueJob(id, jobs[id].webhook, jobs[id].schedule, jobs[id].nextRunAt)
  }

  predicate ComesBefore(a: DueJob, b: DueJob) {
    a.scheduled < b.scheduled || (a.scheduled == b.scheduled && TextBefore(a.id, b.id))
  }

  // The answer of the query: exactly the enabled jobs whose time has come, by time and then by ID.
  ghost predicate IsDueList(jobs: map<string, JobRow>, at: int, due: seq<DueJob>) {
    && (forall i | 0 <= i < |due| :: IsDueNow(jobs, due[i].id, at) && due[i] == DueOf(jobs, due[i].id))
    && (forall id | IsDueNow(jobs, id, at) :: DueOf(jobs, id) in due)
    && (forall i, j | 0 <= i < j < |due| :: ComesBefore(due[i], due[j]))
  }

  predicate HasSlot(d: D.Delivery, id: string, slot: int) {
    d.source == D.Job && d.sourceId == id && d.slot == Some(slot)
  }

  // The unique index over the source and slot of job deliveries.
  predicate Taken(m: map<nat, D.Delivery>, id: string, slot: int) {
    exists o | o in m :: HasSlot(m[o], id, slot)
  }

  function SlotIntent(item: DueJob): Intent {
    Intent(D.Job, item.id, item.webhook, Some(item.scheduled), "{\"event\":{\"type\":\"job.scheduled\",\"jobId\":\"" + item.id + "\"}}", false)
  }

  ghost function FillSlot(s: State, item: DueJob, at: int): Result<State, Failure> {
    if item.webhook !in s.webhooks then Err(NoWebhook)
    else if !s.webhooks[item.webhook].enabled then Result.Ok(s)
    else if Taken(Pruned(s.deliveries), item.id, item.scheduled) then Err(SlotTaken)
    else Result.Ok(Create(s, SlotIntent(item), at).0)
  }

  // The job moves on if it still is as the tick read it.
  function Consume(jobs: map<string, JobRow>, item: DueJob, next: int): map<string, JobRow> {
    if item.id in jobs && jobs[item.id].enabled && jobs[item.id].nextRunAt == item.scheduled
    then jobs[item.id := jobs[item.id].(nextRunAt := next, lastRunAt := Some(item.scheduled))]
    else jobs
  }

  ghost function TickOne(s: Scheduler, item: DueJob, at: int): Result<Scheduler, Failure> {
    match NextRun(item.schedule, at)
    case None => Err(Unreachable)
    case Some(next) =>
      match FillSlot(s.store, item, at)
      case Err(f) => Err(f)
      case Ok(store) => Result.Ok(s.(store := store, jobs := Consume(s.jobs, item, next)))
  }

  ghost function TickAll(s: Scheduler, due: seq<DueJob>, at: int): Result<Scheduler, Failure>
    decreases |due|
  {
    if due == [] then Result.Ok(s)
    else
      match TickOne(s, due[0], at)
      case Err(f) => Err(f)
      case Ok(t) => TickAll(t, due[1..], at)
  }

  /* ----- the other actions ----- */

  ghost function PutJob(s: Scheduler, id: string, webhook: string, schedule: Schedule, enabled: bool, last: Option<int>, read: int): Scheduler {
    match NextRun(schedule, read)
    case None => s
    case Some(next) =>
      if webhook !in s.store.webhooks then s
      else s.(jobs := s.jobs[id := JobRow(webhook, schedule, enabled, next, last)])
  }

  ghost function Creates(s: Scheduler, id: string, webhook: string, schedule: Schedule, read: int): Scheduler {
    if |s.jobs| >= MAX_JOBS || id in s.jobs then s else PutJob(s, id, webhook, schedule, false, None, read)
  }

  // The next run is computed from the clock as read before the transaction.
  ghost function Replaces(s: Scheduler, id: string, webhook: string, schedule: Schedule, read: int): Scheduler {
    if id !in s.jobs then s else PutJob(s, id, webhook, schedule, s.jobs[id].enabled, s.jobs[id].lastRunAt, read)
  }

  function ManualIntent(id: string, webhook: string): Intent {
    Intent(D.Job, id, webhook, None, "{\"event\":{\"type\":\"job.manual\",\"jobId\":\"" + id + "\"}}", false)
  }

  // A manual run fills no slot and leaves the plan of the job alone.
  ghost function RunsOnce(s: State, id: string, webhook: string, at: int): State {
    if webhook !in s.webhooks || s.webhooks[webhook].secret !in s.secrets then s else Create(s, ManualIntent(id, webhook), at).0
  }

  // Only the tick fills slots.
  function WithoutSlot(e: Event): Event {
    if e.CreateEvent? then e.(intent := e.intent.(slot := None)) else e
  }

  // A tick that fails changes nothing.
  ghost function Act(s: Scheduler, action: Action, at: int): Scheduler {
    match action
    case Tick(due) => if !IsDueList(s.jobs, at, due) then s else (match TickAll(s, due, at) case Ok(t) => t case Err(_) => s)
    case CreateJob(id, webhook, schedule) => Creates(s, id, webhook, schedule, at)
    case ReplaceJob(id, webhook, schedule) => Replaces(s, id, webhook, schedule, at)
    case SetEnabled(id, enabled) => if id !in s.jobs then s else s.(jobs := s.jobs[id := s.jobs[id].(enabled := enabled)])
    case RunOnce(id) => if id !in s.jobs then s else s.(store := RunsOnce(s.store, id, s.jobs[id].webhook, at))
    case Deliver(event) => s.(store := Step(s.store, WithoutSlot(event)))
  }

  ghost function JobStep(s: Scheduler, e: Timed): Scheduler {
    Act(s.(clock := e.at), e.action, e.at)
  }

  ghost function RunJobs(s: Scheduler, events: seq<Timed>): Scheduler
    decreases |events|
  {
    if events == [] then s else RunJobs(JobStep(s, events[0]), events[1..])
  }

  ghost predicate Chronological(clock: int, events: seq<Timed>) {
    && (events != [] ==> clock <= events[0].at)
    && forall i, j | 0 <= i < j < |events| :: events[i].at <= events[j].at
  }

  /* ----- the invariant ----- */

  // The job has an existing webhook, a run to come after its last one, and no run in the future behind it.
  ghost predicate JobOk(s: Scheduler, id: string)
    requires id in s.jobs
  {
    var j := s.jobs[id];
    && j.webhook in s.store.webhooks
    && Fires(j.schedule, j.nextRunAt)
    && (j.lastRunAt.Some? ==> j.lastRunAt.value < j.nextRunAt && j.lastRunAt.value <= s.clock)
  }

  predicate Slotted(d: D.Delivery) {
    d.source == D.Job && d.slot.Some?
  }

  // A filled slot was consumed by its job.
  ghost predicate SlotOk(jobs: map<string, JobRow>, d: D.Delivery) {
    Slotted(d) ==> d.sourceId in jobs && jobs[d.sourceId].lastRunAt.Some? && d.slot.value <= jobs[d.sourceId].lastRunAt.value
  }

  // Later deliveries of one job fill later slots; so no slot is ever filled twice.
  ghost predicate SlotsRise(m: map<nat, D.Delivery>) {
    forall o, p | o in m && p in m && o < p && Slotted(m[o]) && Slotted(m[p]) && m[o].sourceId == m[p].sourceId ::
      m[o].slot.value < m[p].slot.value
  }

  ghost predicate SlotsOk(jobs: map<string, JobRow>, m: map<nat, D.Delivery>) {
    && (forall o {:trigger SlotOk(jobs, m[o])} | o in m :: SlotOk(jobs, m[o]))
    && SlotsRise(m)
  }

  ghost predicate JobsInv(s: Scheduler) {
    var sound :=
      && Inv(s.store)
      && (forall id {:trigger JobOk(s, id)} | id in s.jobs :: JobOk(s, id))
      && SlotsOk(s.jobs, s.store.deliveries)
      && |s.jobs| <= MAX_JOBS;
    sound
  }

  // The history a job leaves: it stays, and its last run only moves forward.
  ghost predicate MovesForward(j: JobRow, k: JobRow) {
    j.lastRunAt.Some? ==> k.lastRunAt.Some? && j.lastRunAt.value <= k.lastRunAt.value
  }

  ghost predicate JobsMoveForward(jobs: map<string, JobRow>, later: map<string, JobRow>) {
    forall id | id in jobs :: id in later && MovesForward(jobs[id], later[id])
  }

  /* ----- what a step of the store leaves of the slots ----- */

  // Rows survive with their intent or leave; newcomers other than the one at `filled` fill no slot.
  ghost predicate SlotsCarried(m: map<nat, D.Delivery>, n: map<nat, D.Delivery>) {
    forall o | o in n ::
      if o in m then (n[o].source, n[o].sourceId, n[o].slot) == (m[o].source, m[o].sourceId, m[o].slot) else !Slotted(n[o])
  }

  lemma CarriedKeepsSlots(jobs: map<string, JobRow>, later: map<string, JobRow>, m: map<nat, D.Delivery>, n: map<nat, D.Delivery>)
    requires SlotsOk(jobs, m) && SlotsCarried(m, n) && JobsMoveForward(jobs, later)
    ensures SlotsOk(later, n)
  {
    forall o | o in n
      ensures SlotOk(later, n[o])
    {
      if o in m { assert SlotOk(jobs, m[o]); }
    }
  }

  // Creating keeps, loses or adds rows; it adds only the intended one.
  lemma CreateRows(s: State, intent: Intent, at: int)
    requires Inv(s)
    ensures var t := Create(s, intent, at).0;
            && t.webhooks == s.webhooks && s.nextOrdinal !in s.deliveries
            && (forall o | o in t.deliveries && o != s.nextOrdinal :: o in s.deliveries && t.deliveries[o] == s.deliveries[o])
            && (forall o | o in s.deliveries :: o < s.nextOrdinal)
            && (t == s || (t.nextOrdinal == s.nextOrdinal + 1 && s.nextOrdinal in t.deliveries
                           && var d := t.deliveries[s.nextOrdinal];
                              (d.source, d.sourceId, d.slot) == (intent.source, intent.sourceId, intent.slot)))
  {
    hide D.Sound, D.Evolves, Pruned, Fits;
    PrunedKeeps(s.deliveries);
    forall o | o in s.deliveries ensures o < s.nextOrdinal { assert RowOk(s, o); }
  }

  lemma ClaimedRows(s: State, worker: nat, now: int)
    ensures var t := ClaimNext(s, worker, now); t.deliveries.Keys == s.deliveries.Keys && t.webhooks == s.webhooks
  {
    hide ClaimObstacle;
    if s.open && worker < WORKERS && worker !in s.claims && exists o :: IsFirstDue(s, now, o) {
      var o :| IsFirstDue(s, now, o) && ClaimNext(s, worker, now) == ClaimRow(s, worker, o, now);
    }
  }

  lemma KeyStays(m: map<nat, D.Delivery>, o: nat, d: D.Delivery)
    requires o in m
    ensures m[o := d].Keys == m.Keys
  {
  }

  lemma FinishedRows(s: State, worker: nat, outcome: D.Outcome, now: int)
    ensures var t := Finish(s, worker, outcome, now); t.deliveries.Keys == s.deliveries.Keys && t.webhooks == s.webhooks
  {
    if worker in s.claims && s.claims[worker].ordinal in s.deliveries {
      var c := s.claims[worker];
      KeyStays(s.deliveries, c.ordinal, D.FinishAttempt(s.deliveries[c.ordinal], c, outcome, now));
    }
  }

  lemma RetriedRows(s: State, o: nat, now: int)
    ensures var t := Retry(s, o, now); t.deliveries.Keys == s.deliveries.Keys && t.webhooks == s.webhooks
  {
    hide ActiveCount;
    if RetryProblem(s, o).None? {
      KeyStays(s.deliveries, o, Retry(s, o, now).deliveries[o]);
    }
  }

  lemma StepRows(s: State, e: Event)
    requires Inv(s) && !e.CreateEvent?
    ensures Step(s, e).deliveries.Keys == s.deliveries.Keys && s.webhooks.Keys <= Step(s, e).webhooks.Keys
  {
    hide Inv, D.FinishAttempt, D.Redrive, RetryProblem, Recovered;
    match e
    case ClaimEvent(worker, now) => ClaimedRows(s, worker, now);
    case FinishEvent(worker, outcome, now) => FinishedRows(s, worker, outcome, now);
    case RetryEvent(ordinal, now) => RetriedRows(s, ordinal, now);
    case RecoverEvent(now) => DeliverySafety.RecoveredKeys(s, now);
    case _ =>
  }

  lemma StepCarriesSlots(s: State, e: Event)
    requires Inv(s)
    ensures Inv(Step(s, WithoutSlot(e))) && SlotsCarried(s.deliveries, Step(s, WithoutSlot(e)).deliveries)
    ensures s.webhooks.Keys <= Step(s, WithoutSlot(e)).webhooks.Keys
  {
    hide Inv, D.Evolves, Create, ClaimNext;
    var f := WithoutSlot(e);
    DeliverySafety.StepKeeps(s, f);
    var t := Step(s, f);
    if f.CreateEvent? { CreateRows(s, f.intent, f.now); } else { StepRows(s, f); }
    forall o | o in t.deliveries && o in s.deliveries
      ensures (t.deliveries[o].source, t.deliveries[o].sourceId, t.deliveries[o].slot)
              == (s.deliveries[o].source, s.deliveries[o].sourceId, s.deliveries[o].slot)
    {
      DeliverySafety.EvolvesKeepsIntent(s.deliveries[o], t.deliveries[o]);
    }
  }

  // A step of the store under unchanged jobs.
  lemma StoreMoves(s: Scheduler, t: Scheduler)
    requires JobsInv(s) && Inv(t.store) && SlotsCarried(s.store.deliveries, t.store.deliveries)
    requires s.store.webhooks.Keys <= t.store.webhooks.Keys && t.jobs == s.jobs && t.clock == s.clock
    ensures JobsInv(t)
  {
    hide Inv, SlotsOk, Fires;
    CarriedKeepsSlots(s.jobs, t.jobs, s.store.deliveries, t.store.deliveries);
    forall id | id in t.jobs ensures JobOk(t, id) { assert JobOk(s, id); }
  }

  /* ----- one due job ----- */

  // The job is as the tick read it.
  ghost predicate Current(jobs: map<string, JobRow>, item: DueJob, at: int) {
    IsDueNow(jobs, item.id, at) && item == DueOf(jobs, item.id)
  }

  // What consuming one slot does: the job's last run is the slot and its next run the least after the tick;
  // exactly when its webhook is enabled, one delivery fills the slot.
  ghost predicate Consumed(s: Scheduler, t: Scheduler, item: DueJob, at: int)
    requires item.id in s.jobs && item.webhook in s.store.webhooks
  {
    && (exists next :: IsNext(item.schedule, at, Some(next))
                       && t.jobs == s.jobs[item.id := s.jobs[item.id].(nextRunAt := next, lastRunAt := Some(item.scheduled))])
    && t.clock == s.clock && t.store.webhooks == s.store.webhooks
    && if s.store.webhooks[item.webhook].enabled then
         && t.store.nextOrdinal == s.store.nextOrdinal + 1
         && s.store.nextOrdinal in t.store.deliveries && HasSlot(t.store.deliveries[s.store.nextOrdinal], item.id, item.scheduled)
         && forall o | o in t.store.deliveries && o != s.store.nextOrdinal ::
              o in s.store.deliveries && t.store.deliveries[o] == s.store.deliveries[o]
       else t.store == s.store
  }

  // The slot of a job that has not consumed it is free.
  lemma SlotIsFree(s: Scheduler, id: string)
    requires JobsInv(s) && id in s.jobs
    ensures forall o | o in s.store.deliveries :: !HasSlot(s.store.deliveries[o], id, s.jobs[id].nextRunAt)
    ensures !Taken(Pruned(s.store.deliveries), id, s.jobs[id].nextRunAt)
  {
    hide Inv, Fires, Pruned;
    PrunedKeeps(s.store.deliveries);
    assert JobOk(s, id);
    forall o | o in s.store.deliveries
      ensures !HasSlot(s.store.deliveries[o], id, s.jobs[id].nextRunAt)
    {
      assert SlotOk(s.jobs, s.store.deliveries[o]);
    }
  }

  // A due job never fails: its schedule is reachable, its webhook exists and its slot is free.
  lemma DueJobIsConsumed(s: Scheduler, item: DueJob, at: int)
    requires JobsInv(s) && Current(s.jobs, item, at)
    ensures item.webhook in s.store.webhooks
    ensures var r := TickOne(s, item, at); r.Ok? && Consumed(s, r.value, item, at) && Inv(r.value.store)
  {
    hide Inv, Fires, Pruned, Create, SlotsOk, IsNext;
    assert JobOk(s, item.id);
    NextRunExists(item.schedule, item.scheduled, at);
    SlotIsFree(s, item.id);
    CreateRows(s.store, SlotIntent(item), at);
    DeliverySafety.StepKeeps(s.store, CreateEvent(SlotIntent(item), at));
    EnabledCreates(s.store, SlotIntent(item), at);
  }

  lemma EnabledCreates(s: State, intent: Intent, at: int)
    ensures intent.webhook in s.webhooks && s.webhooks[intent.webhook].enabled ==>
              Create(s, intent, at).0.nextOrdinal == s.nextOrdinal + 1
  {
  }

  // One turn of a tick, over a sound state.
  ghost predicate TookTurn(s: Scheduler, t: Scheduler, item: DueJob, at: int) {
    Current(s.jobs, item, at) && item.webhook in s.store.webhooks && Consumed(s, t, item, at)
  }

  lemma ConsumedKeeps(s: Scheduler, t: Scheduler, item: DueJob, at: int)
    requires JobsInv(s) && at <= s.clock
    ensures TookTurn(s, t, item, at) && Inv(t.store) ==> JobsInv(t) && JobsMoveForward(s.jobs, t.jobs)
  {
    hide Inv, Fires, SlotsOk;
    if TookTurn(s, t, item, at) && Inv(t.store) {
      assert JobOk(s, item.id);
      forall id | id in t.jobs
        ensures JobOk(t, id)
      {
        if id != item.id { assert JobOk(s, id); }
      }
      assert |t.jobs| == |t.jobs.Keys| == |s.jobs.Keys| by { assert t.jobs.Keys == s.jobs.Keys; }
      ConsumedSlots(s, t, item, at);
    }
  }

  lemma ConsumedSlots(s: Scheduler, t: Scheduler, item: DueJob, at: int)
    requires JobsInv(s)
    ensures TookTurn(s, t, item, at) ==> SlotsOk(t.jobs, t.store.deliveries)
  {
    hide Fires, IsNext, D.Sound, TablesOk, ClaimsOk;
    if TookTurn(s, t, item, at) {
      assert JobOk(s, item.id);
      var m, n := s.store.deliveries, t.store.deliveries;
      forall o | o in n
        ensures SlotOk(t.jobs, n[o])
      {
        if o in m && n[o] == m[o] { assert SlotOk(s.jobs, m[o]); }
      }
      OrdinalsBelow(s.store);
      forall o, p | o in n && p in n && o < p && Slotted(n[o]) && Slotted(n[p]) && n[o].sourceId == n[p].sourceId
        ensures n[o].slot.value < n[p].slot.value
      {
        if o in m { assert SlotOk(s.jobs, m[o]); }
      }
    }
  }

  lemma OrdinalsBelow(s: State)
    requires Inv(s)
    ensures forall o | o in s.deliveries :: o < s.nextOrdinal
  {
    hide D.Sound;
    forall o | o in s.deliveries ensures o < s.nextOrdinal { assert RowOk(s, o); }
  }

  /* ----- the whole tick ----- */

  // The job consumed its slot, and runs next at its least run after the tick.
  ghost predicate Advanced(j: JobRow, k: JobRow, at: int) {
    && IsNext(j.schedule, at, Some(k.nextRunAt))
    && k == j.(nextRunAt := k.nextRunAt, lastRunAt := Some(j.nextRunAt))
  }

  ghost predicate Lists(due: seq<DueJob>, id: string) {
    exists i :: 0 <= i < |due| && due[i].id == id
  }

  ghost predicate Fills(webhooks: map<string, Webhook>, due: seq<DueJob>, d: D.Delivery) {
    exists i :: 0 <= i < |due| && due[i].webhook in webhooks && webhooks[due[i].webhook].enabled && HasSlot(d, due[i].id, due[i].scheduled)
  }

  function EnabledOf(webhooks: map<string, Webhook>, due: seq<DueJob>): nat {
    if due == [] then 0
    else (if due[0].webhook in webhooks && webhooks[due[0].webhook].enabled then 1 else 0) + EnabledOf(webhooks, due[1..])
  }

  // Every listed job has advanced and no other.
  ghost predicate JobsTicked(jobs: map<string, JobRow>, later: map<string, JobRow>, due: seq<DueJob>, at: int) {
    && later.Keys == jobs.Keys
    && forall id | id in jobs :: if Lists(due, id) then Advanced(jobs[id], later[id], at) else later[id] == jobs[id]
  }

  // One delivery was created per listed job with an enabled webhook, and nothing else.
  ghost predicate StoreTicked(s: State, t: State, due: seq<DueJob>) {
    && t.webhooks == s.webhooks
    && t.nextOrdinal == s.nextOrdinal + EnabledOf(s.webhooks, due)
    && forall o | o in t.deliveries ::
         if o < s.nextOrdinal then o in s.deliveries && t.deliveries[o] == s.deliveries[o] else Fills(s.webhooks, due, t.deliveries[o])
  }

  ghost predicate Ticked(s: Scheduler, t: Scheduler, due: seq<DueJob>, at: int) {
    t.clock == s.clock && JobsTicked(s.jobs, t.jobs, due, at) && StoreTicked(s.store, t.store, due)
  }

  ghost predicate AllCurrent(jobs: map<string, JobRow>, due: seq<DueJob>, at: int) {
    && (forall i | 0 <= i < |due| :: Current(jobs, due[i], at))
    && (forall i, j | 0 <= i < j < |due| :: due[i].id != due[j].id)
  }

  // A tick never fails.
  lemma {:induction false} TickSucceeds(s: Scheduler, due: seq<DueJob>, at: int)
    requires JobsInv(s) && at <= s.clock && AllCurrent(s.jobs, due, at)
    ensures var r := TickAll(s, due, at);
            r.Ok? && JobsInv(r.value) && JobsMoveForward(s.jobs, r.value.jobs) && Ticked(s, r.value, due, at)
    decreases |due|
  {
    hide Inv, Fires, IsNext, SlotsOk, Pruned, JobOk, TickOne;
    if due != [] {
      DueJobIsConsumed(s, due[0], at);
      var t := TickOne(s, due[0], at).value;
      ConsumedKeeps(s, t, due[0], at);
      TickSucceeds(t, due[1..], at);
      TickedThrough(s, t, TickAll(t, due[1..], at).value, due, at);
    } else {
      OrdinalsBelow(s.store);
      assert Ticked(s, s, due, at);
    }
  }

  lemma TickedThrough(s: Scheduler, t: Scheduler, u: Scheduler, due: seq<DueJob>, at: int)
    ensures due != [] && AllCurrent(s.jobs, due, at) && TookTurn(s, t, due[0], at) && Ticked(t, u, due[1..], at) ==> Ticked(s, u, due, at)
  {
    hide IsNext, HasSlot, Fills, Current, JobsTicked;
    if due != [] && AllCurrent(s.jobs, due, at) && TookTurn(s, t, due[0], at) && Ticked(t, u, due[1..], at) {
      JobsTickedThrough(s.jobs, t.jobs, u.jobs, due, at);
      forall o | o in u.store.deliveries
        ensures if o < s.store.nextOrdinal then o in s.store.deliveries && u.store.deliveries[o] == s.store.deliveries[o]
                else Fills(s.store.webhooks, due, u.store.deliveries[o])
      {
        FillsMore(s.store.webhooks, due, u.store.deliveries[o]);
      }
    }
  }

  lemma JobsTickedThrough(s: map<string, JobRow>, t: map<string, JobRow>, u: map<string, JobRow>, due: seq<DueJob>, at: int)
    requires due != [] && AllCurrent(s, due, at) && JobsTicked(t, u, due[1..], at)
    requires exists next :: IsNext(due[0].schedule, at, Some(next))
                            && t == s[due[0].id := s[due[0].id].(nextRunAt := next, lastRunAt := Some(due[0].scheduled))]
    ensures JobsTicked(s, u, due, at)
  {
    hide IsNext;
    assert forall id :: Lists(due, id) <==> id == due[0].id || Lists(due[1..], id);
  }

  lemma FillsMore(webhooks: map<string, Webhook>, due: seq<DueJob>, d: D.Delivery)
    requires due != []
    ensures Fills(webhooks, due[1..], d) ==> Fills(webhooks, due, d)
    ensures due[0].webhook in webhooks && webhooks[due[0].webhook].enabled && HasSlot(d, due[0].id, due[0].scheduled) ==> Fills(webhooks, due, d)
  {
  }

  lemma DueListIsCurrent(jobs: map<string, JobRow>, at: int, due: seq<DueJob>)
    requires IsDueList(jobs, at, due)
    ensures AllCurrent(jobs, due, at)
    ensures forall id | id in jobs :: Lists(due, id) <==> IsDueNow(jobs, id, at)
  {
    forall i, j | 0 <= i < j < |due|
      ensures due[i].id != due[j].id
    {
      assert ComesBefore(due[i], due[j]);
      TextBeforeIsStrict(due[i].id);
    }
    forall id | IsDueNow(jobs, id, at)
      ensures Lists(due, id)
    {
      assert DueOf(jobs, id) in due;
    }
  }

  // Of all deliveries a tick creates, at most one is of a given job.
  lemma OneDeliveryPerJob(s: Scheduler, due: seq<DueJob>, at: int, o: nat, p: nat)
    requires JobsInv(s) && s.clock <= at && IsDueList(s.jobs, at, due)
    ensures var t := JobStep(s, Timed(at, Tick(due)));
            && s.store.nextOrdinal <= o && o in t.store.deliveries && s.store.nextOrdinal <= p && p in t.store.deliveries
            && t.store.deliveries[o].sourceId == t.store.deliveries[p].sourceId
            ==> o == p
  {
    hide Inv, Fires, IsNext, JobOk, JobStep, SlotsRise, TickAll, JobsTicked, StoreTicked, AllCurrent, IsDueList, Lists;
    TickIsExact(s, due, at);
    DueListIsCurrent(s.jobs, at, due);
    var t := JobStep(s, Timed(at, Tick(due)));
    if s.store.nextOrdinal <= o && o in t.store.deliveries && s.store.nextOrdinal <= p && p in t.store.deliveries {
      OneRowPerJob(s, t, due, at, o, p);
    }
  }

  lemma OneRowPerJob(s: Scheduler, t: Scheduler, due: seq<DueJob>, at: int, o: nat, p: nat)
    requires AllCurrent(s.jobs, due, at) && StoreTicked(s.store, t.store, due) && SlotsRise(t.store.deliveries)
    requires s.store.nextOrdinal <= o && o in t.store.deliveries && s.store.nextOrdinal <= p && p in t.store.deliveries
    ensures t.store.deliveries[o].sourceId == t.store.deliveries[p].sourceId ==> o == p
  {
    hide Current;
    assert Fills(s.store.webhooks, due, t.store.deliveries[o]) && Fills(s.store.webhooks, due, t.store.deliveries[p]);
  }

  // Every tick succeeds and does exactly this: the due jobs, and no others, consume their slots and move on.
  lemma TickIsExact(s: Scheduler, due: seq<DueJob>, at: int)
    requires JobsInv(s) && s.clock <= at && IsDueList(s.jobs, at, due)
    ensures var t := JobStep(s, Timed(at, Tick(due)));
            && TickAll(s.(clock := at), due, at) == Result.Ok(t)
            && JobsInv(t) && JobsMoveForward(s.jobs, t.jobs)
            && Ticked(s.(clock := at), t, due, at)
            && forall id | id in s.jobs :: if IsDueNow(s.jobs, id, at) then Advanced(s.jobs[id], t.jobs[id], at) else t.jobs[id] == s.jobs[id]
  {
    hide Inv, Fires, IsNext, SlotsOk, TickAll;
    var c := s.(clock := at);
    ClockAdvances(s, at);
    DueListIsCurrent(s.jobs, at, due);
    TickSucceeds(c, due, at);
  }

  lemma ClockAdvances(s: Scheduler, at: int)
    requires JobsInv(s) && s.clock <= at
    ensures JobsInv(s.(clock := at))
  {
    hide Inv, Fires, SlotsOk;
    forall id | id in s.jobs ensures JobOk(s.(clock := at), id) { assert JobOk(s, id); }
  }

  /* ----- every step, every run ----- */

  // Storing a job keeps the invariant if its last run is over and its next is still to come.
  // The row to be stored has the last run of the one it replaces, which is over before its next.
  ghost predicate MayPut(s: Scheduler, id: string, schedule: Schedule, last: Option<int>, read: int) {
    && (id in s.jobs || |s.jobs| < MAX_JOBS)
    && (if id in s.jobs then s.jobs[id].lastRunAt == last else last == None)
    && (NextRun(schedule, read).Some? && last.Some? ==> last.value < NextRun(schedule, read).value)
  }

  // Storing a job keeps the invariant if its last run is over and its next is still to come.
  lemma PutKeeps(s: Scheduler, id: string, webhook: string, schedule: Schedule, enabled: bool, last: Option<int>, read: int)
    requires JobsInv(s)
    ensures var t := PutJob(s, id, webhook, schedule, enabled, last, read);
            MayPut(s, id, schedule, last, read) ==> JobsInv(t) && JobsMoveForward(s.jobs, t.jobs)
  {
    hide Inv, Fires, SlotsOk;
    if MayPut(s, id, schedule, last, read) {
      var t := PutJob(s, id, webhook, schedule, enabled, last, read);
      forall k | k in t.jobs
        ensures JobOk(t, k)
      {
        if k in s.jobs { assert JobOk(s, k); }
      }
      assert |t.jobs| == |t.jobs.Keys| && |s.jobs| == |s.jobs.Keys|;
      assert t.jobs.Keys == s.jobs.Keys || t.jobs.Keys == s.jobs.Keys + {id};
      CarriedKeepsSlots(s.jobs, t.jobs, s.store.deliveries, s.store.deliveries);
    }
  }

  lemma JobStepKeeps(s: Scheduler, e: Timed)
    requires JobsInv(s) && s.clock <= e.at
    ensures JobsInv(JobStep(s, e)) && JobStep(s, e).clock == e.at && JobsMoveForward(s.jobs, JobStep(s, e).jobs)
  {
    hide Inv, Fires, IsNext, SlotsOk, JobOk, TickAll, Step, Create;
    ClockAdvances(s, e.at);
    var c := s.(clock := e.at);
    match e.action
    case Tick(due) =>
      if IsDueList(s.jobs, e.at, due) { TickIsExact(s, due, e.at); }
    case CreateJob(id, webhook, schedule) =>
      if id !in s.jobs && |s.jobs| < MAX_JOBS { PutKeeps(c, id, webhook, schedule, false, None, e.at); }
    case ReplaceJob(id, webhook, schedule) =>
      if id in s.jobs {
        LastRunIsPast(s, id);
        NextRunIsLater(schedule, e.at);
        PutKeeps(c, id, webhook, schedule, s.jobs[id].enabled, s.jobs[id].lastRunAt, e.at);
      }
    case SetEnabled(id, enabled) => EnabledKeeps(c, id, enabled);
    case RunOnce(id) =>
      if id in s.jobs { RunOnceKeeps(c, id, e.at); }
    case Deliver(event) =>
      StepCarriesSlots(s.store, event);
      StoreMoves(c, JobStep(s, e));
  }

  lemma NextRunIsLater(schedule: Schedule, after: int)
    ensures NextRun(schedule, after).Some? ==> after < NextRun(schedule, after).value
  {
  }

  lemma LastRunIsPast(s: Scheduler, id: string)
    requires JobsInv(s) && id in s.jobs
    ensures s.jobs[id].lastRunAt.Some? ==> s.jobs[id].lastRunAt.value <= s.clock
  {
    assert JobOk(s, id);
  }

  lemma EnabledKeeps(s: Scheduler, id: string, enabled: bool)
    requires JobsInv(s)
    ensures var t := if id !in s.jobs then s else s.(jobs := s.jobs[id := s.jobs[id].(enabled := enabled)]);
            JobsInv(t) && JobsMoveForward(s.jobs, t.jobs)
  {
    hide Inv, Fires, SlotsOk;
    if id in s.jobs {
      var t := s.(jobs := s.jobs[id := s.jobs[id].(enabled := enabled)]);
      forall k | k in t.jobs ensures JobOk(t, k) { assert JobOk(s, k); }
      assert |t.jobs| == |t.jobs.Keys| == |s.jobs.Keys| by { assert t.jobs.Keys == s.jobs.Keys; }
      CarriedKeepsSlots(s.jobs, t.jobs, s.store.deliveries, s.store.deliveries);
    }
  }

  lemma RunOnceKeeps(s: Scheduler, id: string, at: int)
    requires JobsInv(s) && id in s.jobs
    ensures JobsInv(s.(store := RunsOnce(s.store, id, s.jobs[id].webhook, at)))
  {
    hide Inv, Fires, SlotsOk, Create, JobOk;
    var intent := ManualIntent(id, s.jobs[id].webhook);
    CreateRows(s.store, intent, at);
    DeliverySafety.StepKeeps(s.store, CreateEvent(intent, at));
    StoreMoves(s, s.(store := RunsOnce(s.store, id, s.jobs[id].webhook, at)));
  }

  lemma LaterIsChronological(clock: int, events: seq<Timed>)
    requires events != [] && Chronological(clock, events)
    ensures Chronological(events[0].at, events[1..])
  {
  }

  lemma {:induction false} RunJobsKeeps(s: Scheduler, events: seq<Timed>)
    requires JobsInv(s) && Chronological(s.clock, events)
    ensures JobsInv(RunJobs(s, events)) && JobsMoveForward(s.jobs, RunJobs(s, events).jobs)
    decreases |events|
  {
    hide JobsInv, JobStep;
    if events != [] {
      JobStepKeeps(s, events[0]);
      LaterIsChronological(s.clock, events);
      RunJobsKeeps(JobStep(s, events[0]), events[1..]);
    }
  }

  // Over any run under a clock that never runs back: no slot of a job is filled twice, later deliveries fill later
  // slots, and every job has a run to come after its last.
  lemma EveryScheduleIsSound(clock: int, events: seq<Timed>)
    requires Chronological(clock, events)
    ensures var s := RunJobs(Scheduler(EMPTY, map[], clock), events);
            && SlotsRise(s.store.deliveries)
            && (forall id | id in s.jobs :: NextRun(s.jobs[id].schedule, s.clock).Some?)
            && (forall id | id in s.jobs && s.jobs[id].lastRunAt.Some? :: s.jobs[id].lastRunAt.value < s.jobs[id].nextRunAt)
  {
    hide Inv, Fires, IsNext, RunJobs;
    DeliverySafety.EmptyIsSound();
    var start := Scheduler(EMPTY, map[], clock);
    assert JobsInv(start);
    RunJobsKeeps(start, events);
    var s := RunJobs(start, events);
    forall id | id in s.jobs
      ensures NextRun(s.jobs[id].schedule, s.clock).Some?
    {
      assert JobOk(s, id);
      NextRunExists(s.jobs[id].schedule, s.jobs[id].nextRunAt, s.clock);
    }
    forall id | id in s.jobs && s.jobs[id].lastRunAt.Some?
      ensures s.jobs[id].lastRunAt.value < s.jobs[id].nextRunAt
    {
      assert JobOk(s, id);
    }
  }

  /* ----- replacing a job with a clock read too early ----- */

  // The schedule does not run after the one instant and up to the other.
  ghost predicate NoRunBetween(schedule: Schedule, read: int, last: Option<int>) {
    last.Some? ==> forall u | read < u <= last.value :: !Fires(schedule, u)
  }

  // Replacing keeps the plan exactly when the new schedule has no run between the clock read and the last run.
  lemma StaleReplaceKeeps(s: Scheduler, id: string, webhook: string, schedule: Schedule, read: int)
    requires JobsInv(s)
    ensures if id in s.jobs && webhook in s.store.webhooks && NextRun(schedule, read).Some?
            then JobsInv(Replaces(s, id, webhook, schedule, read)) <==> NoRunBetween(schedule, read, s.jobs[id].lastRunAt)
            else Replaces(s, id, webhook, schedule, read) == s
  {
    hide Inv, Fires, SlotsOk;
    if id in s.jobs && webhook in s.store.webhooks && NextRun(schedule, read).Some? {
      var t := Replaces(s, id, webhook, schedule, read);
      if JobsInv(t) {
        assert JobOk(t, id);
      } else if NoRunBetween(schedule, read, s.jobs[id].lastRunAt) {
        PutKeeps(s, id, webhook, schedule, s.jobs[id].enabled, s.jobs[id].lastRunAt, read);
      }
    }
  }

  /* ----- when a tick fails ----- */

  // The state in which the tick comes to its i-th job.
  ghost function After(s: Scheduler, due: seq<DueJob>, at: int, i: nat): Scheduler
    requires i <= |due|
    decreases i
  {
    if i == 0 then s else match TickOne(s, due[0], at) case Err(_) => s case Ok(t) => After(t, due[1..], at, i - 1)
  }

  // A row of the table as it was before the tick fills the slot of the i-th job, and pruning has not taken it yet.
  ghost predicate MeetsSlot(s: Scheduler, due: seq<DueJob>, at: int, i: nat)
    requires i < |due|
  {
    exists o | o in s.store.deliveries ::
      HasSlot(s.store.deliveries[o], due[i].id, due[i].scheduled) && o in Pruned(After(s, due, at, i).store.deliveries)
  }

  ghost predicate FailsAt(s: Scheduler, due: seq<DueJob>, at: int, i: nat)
    requires i < |due|
  {
    || NextRun(due[i].schedule, at) == None
    || due[i].webhook !in s.store.webhooks
    || (s.store.webhooks[due[i].webhook].enabled && MeetsSlot(s, due, at, i))
  }

  ghost predicate Fails(s: Scheduler, due: seq<DueJob>, at: int) {
    exists i :: 0 <= i < |due| && FailsAt(s, due, at, i)
  }

  predicate IdsDiffer(due: seq<DueJob>) {
    forall i, j | 0 <= i < j < |due| :: due[i].id != due[j].id
  }

  // Ordinals are never reused.
  predicate OrdinalsFresh(s: State) {
    forall o | o in s.deliveries :: o < s.nextOrdinal
  }

  // A turn that succeeds leaves webhooks alone, prunes, and adds at most one row, which is of its own job.
  ghost predicate TurnRows(s: State, t: State, id: string) {
    var ok :=
      && t.webhooks == s.webhooks && OrdinalsFresh(t) && s.nextOrdinal <= t.nextOrdinal
      && forall o | o in t.deliveries ::
           if o < s.nextOrdinal then o in s.deliveries && t.deliveries[o] == s.deliveries[o] else t.deliveries[o].sourceId == id;
    ok
  }

  lemma TickOneRows(s: Scheduler, item: DueJob, at: int)
    requires OrdinalsFresh(s.store) && TickOne(s, item, at).Ok?
    ensures TurnRows(s.store, TickOne(s, item, at).value.store, item.id)
  {
    hide IsNext, Pruned, Fits, Taken;
    PrunedKeeps(s.store.deliveries);
  }

  lemma {:induction false} AfterRows(s: Scheduler, due: seq<DueJob>, at: int, i: nat)
    requires OrdinalsFresh(s.store) && i <= |due|
    ensures forall o | o in After(s, due, at, i).store.deliveries && o < s.store.nextOrdinal :: o in s.store.deliveries
    decreases i
  {
    hide TickOne;
    if i > 0 && TickOne(s, due[0], at).Ok? {
      TickOneRows(s, due[0], at);
      AfterRows(TickOne(s, due[0], at).value, due[1..], at, i - 1);
    }
  }

  // The job after the first fails as it would in the tick that begins with it.
  lemma FailsLater(s: Scheduler, due: seq<DueJob>, at: int, i: nat)
    requires OrdinalsFresh(s.store) && i + 1 < |due| && IdsDiffer(due) && TickOne(s, due[0], at).Ok?
    ensures FailsAt(s, due, at, i + 1) <==> FailsAt(TickOne(s, due[0], at).value, due[1..], at, i)
  {
    hide TickOne, NextRun;
    var t := TickOne(s, due[0], at).value;
    TickOneRows(s, due[0], at);
    AfterRows(t, due[1..], at, i);
    var u := After(t, due[1..], at, i).store.deliveries;
    assert u == After(s, due, at, i + 1).store.deliveries;
    PrunedKeeps(u);
    hide After, Pruned;
    assert due[1..][i] == due[i + 1] && due[i + 1].id != due[0].id;
    if MeetsSlot(s, due, at, i + 1) {
      var o :| o in s.store.deliveries && HasSlot(s.store.deliveries[o], due[i + 1].id, due[i + 1].scheduled) && o in Pruned(u);
      assert o in t.store.deliveries;
    }
    if MeetsSlot(t, due[1..], at, i) {
      var o :| o in t.store.deliveries && HasSlot(t.store.deliveries[o], due[i + 1].id, due[i + 1].scheduled) && o in Pruned(u);
      assert o in s.store.deliveries;
    }
  }

  lemma FailsFirst(s: Scheduler, due: seq<DueJob>, at: int)
    requires due != []
    ensures TickOne(s, due[0], at).Err? <==> FailsAt(s, due, at, 0)
  {
    hide IsNext, Create, Pruned;
    PrunedKeeps(s.store.deliveries);
  }

  // A tick over different jobs fails exactly if some job has no run to come, or no webhook, or an enabled webhook and a slot that
  // a row older than the tick still fills when the tick comes to it.
  lemma {:induction false} TickFailsExactly(s: Scheduler, due: seq<DueJob>, at: int)
    requires OrdinalsFresh(s.store) && IdsDiffer(due)
    ensures TickAll(s, due, at).Err? <==> Fails(s, due, at)
    ensures Fails(s, due, at) ==> Act(s, Tick(due), at) == s
    decreases |due|
  {
    hide TickOne, FailsAt;
    if due != [] {
      FailsFirst(s, due, at);
      if TickOne(s, due[0], at).Ok? {
        var t := TickOne(s, due[0], at).value;
        TickOneRows(s, due[0], at);
        assert IdsDiffer(due[1..]);
        TickFailsExactly(t, due[1..], at);
        forall i | 0 <= i < |due| - 1
          ensures FailsAt(s, due, at, i + 1) <==> FailsAt(t, due[1..], at, i)
        {
          FailsLater(s, due, at, i);
        }
        hide TickAll, IdsDiffer, TurnRows;
        if Fails(s, due, at) {
          var i :| 0 <= i < |due| && FailsAt(s, due, at, i);
          assert FailsAt(s, due, at, (i - 1) + 1);
          assert FailsAt(t, due[1..], at, i - 1);
        }
        if Fails(t, due[1..], at) {
          var i :| 0 <= i < |due| - 1 && FailsAt(t, due[1..], at, i);
          assert FailsAt(s, due, at, i + 1);
        }
      }
    }
  }

  // So after such a replacement the next tick can meet a slot already filled; it then fails, whenever it comes.
  lemma FilledSlotFailsTheTick(s: Scheduler, due: seq<DueJob>, at: int, o: nat)
    ensures FillsFirst(s, due, at, o) ==> TickAll(s, due, at) == Err(SlotTaken) && Act(s, Tick(due), at) == s
  {
    hide IsNext;
    if FillsFirst(s, due, at, o) {
      assert Pruned(s.store.deliveries) == s.store.deliveries;
      assert Taken(s.store.deliveries, due[0].id, due[0].scheduled);
    }
  }

  // The row fills the slot of the first due job, and there is room for the delivery of that job.
  ghost predicate FillsFirst(s: Scheduler, due: seq<DueJob>, at: int, o: nat) {
    && due != [] && due[0].webhook in s.store.webhooks && s.store.webhooks[due[0].webhook].enabled && NextRun(due[0].schedule, at).Some?
    && |s.store.deliveries| < MAX_RETAINED && o in s.store.deliveries && HasSlot(s.store.deliveries[o], due[0].id, due[0].scheduled)
  }

  // The fields of five stars.
  const EVERY_MINUTE := Schedule(Field(seq(60, _ => true), true), Field(seq(24, _ => true), true), Field(seq(32, i => 1 <= i), true),
                                 Field(seq(13, i => 1 <= i), true), Field(seq(8, i => i < 7), true))

  lemma EveryMinuteIsStars(k: nat)
    requires k < 5
    ensures FieldOf(Fields(EVERY_MINUTE)[k], CronText.Split("*", ','), LIMITS[k])
  {
    var limits, field := LIMITS[k], Fields(EVERY_MINUTE)[k];
    StarDenotesAll(limits, limits.minimum);
    hide CronText.Split;
    forall v
      ensures field.Has(v) <==> 0 <= v <= limits.maximum && Denotes(["*"], limits, v)
    {
      assert field.Has(v) <==> limits.minimum <= v <= limits.maximum && Fold(v, limits) == v;
      if field.Has(v) { StarDenotesAll(limits, v); }
    }
  }

  lemma EveryMinuteOfADay(v: int)
    ensures 0 <= v < 60 ==> EVERY_MINUTE.minute.Has(v)
    ensures 0 <= v < 24 ==> EVERY_MINUTE.hour.Has(v)
  {
  }

  lemma EveryDate(v: int)
    ensures 1 <= v <= 31 ==> EVERY_MINUTE.day.Has(v)
    ensures 1 <= v <= 12 ==> EVERY_MINUTE.month.Has(v)
    ensures 0 <= v < 7 ==> EVERY_MINUTE.week.Has(v)
  {
  }

  lemma EveryMinuteFires(u: int)
    ensures Fires(EVERY_MINUTE, u) <==> u % MINUTE == 0
  {
    var m := u / MINUTE;
    var day := m / DAY_MINUTES;
    assert ValidDate(Civil(day)) && 0 <= Weekday(day) < 7;
    hide Civil, Weekday;
    EveryMinuteOfADay(m % DAY_MINUTES / 60);
    EveryMinuteOfADay(m % 60);
    EveryDate(Civil(day).day);
    EveryDate(Civil(day).month);
    EveryDate(Weekday(day));
  }

  lemma EveryMinuteRunsNext(minute: int)
    ensures NextRun(EVERY_MINUTE, minute * MINUTE) == Some((minute + 1) * MINUTE)
  {
    hide Fires;
    EveryMinuteFires((minute + 1) * MINUTE);
    assert ((minute + 1) * MINUTE) % MINUTE == 0;
    forall u | minute * MINUTE < u < (minute + 1) * MINUTE
      ensures !Fires(EVERY_MINUTE, u)
    {
      EveryMinuteFires(u);
    }
    NextIsDetermined(EVERY_MINUTE, minute * MINUTE, NextRun(EVERY_MINUTE, minute * MINUTE), Some((minute + 1) * MINUTE));
  }

  // A job that runs every minute is created, and enabled a minute later.
  const FIRST_MINUTE: seq<Timed> :=
    [Timed(0, Deliver(CreateSecretEvent("key"))), Timed(0, Deliver(CreateWebhookEvent("hook", "https://example.org", "key"))),
     Timed(0, Deliver(EnableWebhookEvent("hook"))), Timed(0, CreateJob("job", "hook", EVERY_MINUTE)), Timed(MINUTE, SetEnabled("job", true))]

  const BEFORE_FIRST_TICK := Scheduler(State(map[], 1, map["hook" := Webhook("https://example.org", "key", true, 1)], {"key"}, map[], false),
                                       map["job" := JobRow("hook", EVERY_MINUTE, true, MINUTE, None)], MINUTE)

  lemma RunJobsFrom(s: Scheduler, events: seq<Timed>, i: nat)
    requires i < |events|
    ensures RunJobs(s, events[i..]) == RunJobs(JobStep(s, events[i]), events[i + 1..])
  {
    assert events[i..][1..] == events[i + 1..];
  }

  lemma WebhookSteps()
    ensures var s := Scheduler(EMPTY, map[], 0);
            var t := s.(store := s.store.(secrets := {"key"}));
            var u := t.(store := t.store.(webhooks := map["hook" := Webhook("https://example.org", "key", false, 1)]));
            && JobStep(s, FIRST_MINUTE[0]) == t && JobStep(t, FIRST_MINUTE[1]) == u
            && JobStep(u, FIRST_MINUTE[2]) == u.(store := BEFORE_FIRST_TICK.store)
  {
    hide TickAll, IsDueList;
  }

  lemma JobSteps()
    ensures var s := Scheduler(BEFORE_FIRST_TICK.store, map[], 0);
            var t := s.(jobs := map["job" := JobRow("hook", EVERY_MINUTE, false, MINUTE, None)]);
            JobStep(s, FIRST_MINUTE[3]) == t && JobStep(t, FIRST_MINUTE[4]) == BEFORE_FIRST_TICK
  {
    hide TickAll, IsDueList, IsNext;
    EveryMinuteRunsNext(0);
  }

  lemma FirstMinuteRun()
    ensures RunJobs(Scheduler(EMPTY, map[], 0), FIRST_MINUTE) == BEFORE_FIRST_TICK && Chronological(0, FIRST_MINUTE)
  {
    hide RunJobs, JobStep;
    var s := Scheduler(EMPTY, map[], 0);
    WebhookSteps();
    JobSteps();
    assert FIRST_MINUTE[0..] == FIRST_MINUTE;
    RunJobsFrom(s, FIRST_MINUTE, 0);
    RunJobsFrom(JobStep(s, FIRST_MINUTE[0]), FIRST_MINUTE, 1);
    RunJobsFrom(JobStep(JobStep(s, FIRST_MINUTE[0]), FIRST_MINUTE[1]), FIRST_MINUTE, 2);
    RunJobsFrom(s.(store := BEFORE_FIRST_TICK.store), FIRST_MINUTE, 3);
    RunJobsFrom(s.(store := BEFORE_FIRST_TICK.store, jobs := map["job" := JobRow("hook", EVERY_MINUTE, false, MINUTE, None)]), FIRST_MINUTE, 4);
    JobsRunEnds(BEFORE_FIRST_TICK, FIRST_MINUTE[5..]);
  }

  lemma JobsRunEnds(s: Scheduler, events: seq<Timed>)
    requires |events| == 0
    ensures RunJobs(s, events) == s
  {
  }

  const FIRST_DUE := DueJob("job", "hook", EVERY_MINUTE, MINUTE)

  lemma BeforeFirstTick()
    ensures JobsInv(BEFORE_FIRST_TICK) && Current(BEFORE_FIRST_TICK.jobs, FIRST_DUE, MINUTE)
  {
    hide Fires;
    EveryMinuteFires(MINUTE);
    assert JobOk(BEFORE_FIRST_TICK, "job");
  }

  // Then a replacement that read its clock before that minute makes every later tick fail.
  lemma StaleReplaceStopsTheSchedule(at: int)
    requires MINUTE <= at
    ensures var s := RunJobs(Scheduler(EMPTY, map[], 0), FIRST_MINUTE);
            var r := TickOne(s, FIRST_DUE, MINUTE);
            && "job" in s.jobs && FIRST_DUE == DueOf(s.jobs, "job") && r.Ok? && JobsInv(r.value)
            && var t := Replaces(r.value, "job", "hook", EVERY_MINUTE, 0);
               && "job" in t.jobs && IsDueNow(t.jobs, "job", at)
               && TickAll(t, [DueOf(t.jobs, "job")], at) == Err(SlotTaken)
  {
    hide JobsInv, Fires, IsNext, Pruned, Create, RunJobs, TickAll, NextRun, TickOne, JobStep;
    FirstMinuteRun();
    BeforeFirstTick();
    DueJobIsConsumed(BEFORE_FIRST_TICK, FIRST_DUE, MINUTE);
    var s := TickOne(BEFORE_FIRST_TICK, FIRST_DUE, MINUTE).value;
    ConsumedKeeps(BEFORE_FIRST_TICK, s, FIRST_DUE, MINUTE);
    EveryMinuteRunsNext(0);
    var t := Replaces(s, "job", "hook", EVERY_MINUTE, 0);
    assert DueOf(t.jobs, "job") == FIRST_DUE;
    EveryMinuteFires(MINUTE);
    NextRunExists(EVERY_MINUTE, MINUTE, at);
    OneRow(s.store.deliveries, 1);
    FilledSlotFailsTheTick(t, [FIRST_DUE], at, 1);
  }

  lemma OneRow(m: map<nat, D.Delivery>, o: nat)
    requires forall p | p in m :: p == o
    ensures |m| <= 1
  {
    assert m.Keys == {} || m.Keys == {o};
    assert |m| == |m.Keys|;
  }
}
