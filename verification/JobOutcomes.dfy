/**
 What the scheduler answers and leaves, written out: the plan of a job after each edit, and the delivery of every due slot.
 */
module JobOutcomes {
  import opened Prelude
  import opened Cron
  import D = Deliveries
  import opened DeliveryStore
  import opened DeliveryProofs
  import opened DeliveryOutcomes
  import DeliverySafety
  import opened Jobs

  /* ----- edits ----- */

  // A job is stored off, with the first run of its schedule after the instant read, unless there is none, its webhook is missing or
  // there are 32 jobs. Replacing it plans it anew and keeps whether it is on, and its last run.
  lemma PlansAreExact(s: Scheduler, id: string, webhook: string, schedule: Schedule, read: int)
    ensures var t := Creates(s, id, webhook, schedule, read);
            if id in s.jobs || |s.jobs| >= 32 || webhook !in s.store.webhooks || IsNext(schedule, read, None) then t == s
            else exists next :: IsNext(schedule, read, Some(next)) && t == s.(jobs := s.jobs[id := JobRow(webhook, schedule, false, next, None)])
    ensures var t := Replaces(s, id, webhook, schedule, read);
            if id !in s.jobs || webhook !in s.store.webhooks || IsNext(schedule, read, None) then t == s
            else
              exists next :: IsNext(schedule, read, Some(next))
                             && t == s.(jobs := s.jobs[id := JobRow(webhook, schedule, s.jobs[id].enabled, next, s.jobs[id].lastRunAt)])
  {
    hide Fires;
    var next := NextRun(schedule, read);
    assert IsNext(schedule, read, next);
    assert next.None? <==> IsNext(schedule, read, None);
  }

  // A manual run creates a delivery of the job for its webhook, which fills no slot, and leaves the plan alone.
  lemma ManualRunIsExact(s: Scheduler, id: string, at: int)
    requires JobsInv(s) && id in s.jobs
    ensures var t, webhook := Act(s, RunOnce(id), at), s.jobs[id].webhook;
            && webhook in s.store.webhooks && t.jobs == s.jobs
            && var w := s.store.webhooks[webhook];
            if w.enabled && w.secret in s.store.secrets then
              exists payload :: Inserts(s.store, t.store, Intent(D.Job, id, webhook, None, payload, false), at)
            else t == s
  {
    hide Inv, Inserts, Create, Fires, SlotsOk, TickAll, IsDueList;
    assert JobOk(s, id);
    CreationIsExact(s.store, ManualIntent(id, s.jobs[id].webhook), at);
  }

  /* ----- a tick ----- */

  // The delivery of a due slot.
  ghost predicate FillsSlot(s: State, t: State, item: DueJob, at: int) {
    exists payload :: Inserts(s, t, Intent(D.Job, item.id, item.webhook, Some(item.scheduled), payload, false), at)
  }

  // One turn of a tick: if its webhook is on, the delivery of the slot is created for it, and otherwise none; the slot becomes the
  // job's last run, and its next one is the first after the tick.
  lemma TurnIsExact(s: Scheduler, item: DueJob, at: int)
    requires JobsInv(s) && Current(s.jobs, item, at)
    ensures TickOne(s, item, at).Ok? && item.webhook in s.store.webhooks
    ensures var t := TickOne(s, item, at).value;
            && t.clock == s.clock
            && (exists next :: IsNext(item.schedule, at, Some(next))
                               && t.jobs == s.jobs[item.id := JobRow(item.webhook, item.schedule, true, next, Some(item.scheduled))])
            && if s.store.webhooks[item.webhook].enabled then FillsSlot(s.store, t.store, item, at) else t.store == s.store
  {
    hide Inv, Inserts, Create, Fires, IsNext, SlotsOk, Pruned;
    DueJobIsConsumed(s, item, at);
    SlotIsFree(s, item.id);
    CreationIsExact(s.store, SlotIntent(item), at);
    var next := NextRun(item.schedule, at).value;
    assert s.jobs[item.id] == JobRow(item.webhook, item.schedule, true, item.scheduled, s.jobs[item.id].lastRunAt);
  }

  // A full table gives up its oldest ended rows for new ones, never one as young as the last few hundred.
  lemma YoungRowsStay(s: State, intent: Intent, at: int, since: nat)
    requires Inv(s) && since <= s.nextOrdinal <= since + 64
    ensures var t := Create(s, intent, at).0;
            forall o | o in s.deliveries && since <= o :: o in t.deliveries && t.deliveries[o] == s.deliveries[o]
  {
    hide TablesOk, ClaimsOk, Pruned, Fits, D.Sound;
    BelowNext(s);
    PrunedKeeps(s.deliveries);
    forall o | o in s.deliveries && since <= o
      ensures o in Pruned(s.deliveries)
    {
      if o !in Pruned(s.deliveries) { PrunedAreOld(s, since, o); }
    }
  }

  lemma PrunedAreOld(s: State, since: nat, o: nat)
    requires Inv(s) && since <= s.nextOrdinal <= since + 64
    requires o in s.deliveries && o !in Pruned(s.deliveries)
    ensures o < since
  {
    hide TablesOk, ClaimsOk, Pruned, D.Sound;
    BelowNext(s);
    PrunedKeeps(s.deliveries);
    PruningStopsInTime(s.deliveries);
    FewAreActive(s);
    var kept, waiting := Pruned(s.deliveries), DeliverySafety.ActiveRows(s.deliveries);
    var younger := set p | p in s.deliveries && o < p;
    FewBetween(younger, o + 1, s.nextOrdinal);
    assert kept.Keys <= waiting + younger;
    SubsetIsSmaller(kept.Keys, waiting + younger);
    assert |kept| == |kept.Keys|;
  }

  lemma FewAreActive(s: State)
    requires Inv(s)
    ensures |DeliverySafety.ActiveRows(s.deliveries)| <= 1000
  {
    hide D.Sound, ClaimsOk;
    ActiveIsCounted(s);
    assert DeliverySafety.ActiveRows(s.deliveries) ==
           set o | o in s.deliveries && (s.deliveries[o].status == D.Pending || s.deliveries[o].status == D.Running);
  }

  lemma {:induction false} FewBetween(ordinals: set<nat>, low: nat, high: nat)
    requires low <= high && forall p | p in ordinals :: low <= p < high
    ensures |ordinals| <= high - low
    decreases high
  {
    if low < high {
      FewBetween(ordinals - {high - 1}, low, high - 1);
    } else {
      assert ordinals == {};
    }
  }

  lemma TurnKeepsYoungRows(s: Scheduler, item: DueJob, at: int, since: nat)
    requires JobsInv(s) && Current(s.jobs, item, at) && since <= s.store.nextOrdinal <= since + 64
    ensures TickOne(s, item, at).Ok?
    ensures var t := TickOne(s, item, at).value.store;
            && t.nextOrdinal <= s.store.nextOrdinal + 1
            && forall o | o in s.store.deliveries && since <= o :: o in t.deliveries && t.deliveries[o] == s.store.deliveries[o]
  {
    hide Inv, Create, IsNext, SlotsOk, Pruned, Fires;
    DueJobIsConsumed(s, item, at);
    YoungRowsStay(s.store, SlotIntent(item), at, since);
  }

  lemma {:induction false} TickKeepsYoungRows(s: Scheduler, due: seq<DueJob>, at: int, since: nat)
    requires JobsInv(s) && at <= s.clock && AllCurrent(s.jobs, due, at)
    requires since <= s.store.nextOrdinal && s.store.nextOrdinal + |due| <= since + 64
    ensures TickAll(s, due, at).Ok?
    ensures var t := TickAll(s, due, at).value.store;
            forall o | o in s.store.deliveries && since <= o :: o in t.deliveries && t.deliveries[o] == s.store.deliveries[o]
    decreases |due|
  {
    hide JobsInv, TickOne, Consumed, Inv;
    if due != [] {
      TurnKeepsYoungRows(s, due[0], at, since);
      var t := TickOne(s, due[0], at).value;
      TurnLeavesTheRest(s, due, at);
      TickKeepsYoungRows(t, due[1..], at, since);
    }
  }

  // After its first turn the tick goes on as a tick over the other jobs.
  lemma TurnLeavesTheRest(s: Scheduler, due: seq<DueJob>, at: int)
    requires JobsInv(s) && at <= s.clock && AllCurrent(s.jobs, due, at) && due != []
    ensures TickOne(s, due[0], at).Ok?
    ensures var t := TickOne(s, due[0], at).value;
            JobsInv(t) && at <= t.clock && AllCurrent(t.jobs, due[1..], at) && s.store.webhooks == t.store.webhooks
            && s.store.nextOrdinal <= t.store.nextOrdinal
  {
    hide JobsInv, TickOne, Inv, IsNext, HasSlot;
    DueJobIsConsumed(s, due[0], at);
    ConsumedKeeps(s, TickOne(s, due[0], at).value, due[0], at);
  }

  ghost predicate SlotIsFilled(t: State, since: nat, item: DueJob) {
    exists o :: o in t.deliveries && since <= o && HasSlot(t.deliveries[o], item.id, item.scheduled) && t.deliveries[o].webhook == item.webhook
  }

  lemma {:induction false} TickFillsSlots(s: Scheduler, due: seq<DueJob>, at: int, i: nat)
    requires JobsInv(s) && at <= s.clock && AllCurrent(s.jobs, due, at) && i < |due| <= 32
    requires due[i].webhook in s.store.webhooks && s.store.webhooks[due[i].webhook].enabled
    ensures TickAll(s, due, at).Ok? && SlotIsFilled(TickAll(s, due, at).value.store, s.store.nextOrdinal, due[i])
    decreases |due|
  {
    hide JobsInv, TickOne, AllCurrent, Current, HasSlot;
    TurnLeavesTheRest(s, due, at);
    var t := TickOne(s, due[0], at).value;
    if i == 0 {
      FirstTurnFills(s, due, at);
      TickKeepsYoungRows(t, due[1..], at, s.store.nextOrdinal);
      var o := s.store.nextOrdinal;
      assert TickAll(s, due, at).value.store.deliveries[o] == t.store.deliveries[o];
    } else {
      TickFillsSlots(t, due[1..], at, i - 1);
    }
  }

  lemma FirstTurnFills(s: Scheduler, due: seq<DueJob>, at: int)
    requires JobsInv(s) && AllCurrent(s.jobs, due, at) && due != []
    requires due[0].webhook in s.store.webhooks && s.store.webhooks[due[0].webhook].enabled
    ensures TickOne(s, due[0], at).Ok?
    ensures var t, o := TickOne(s, due[0], at).value.store, s.store.nextOrdinal;
            && o in t.deliveries && t.nextOrdinal == o + 1
            && HasSlot(t.deliveries[o], due[0].id, due[0].scheduled) && t.deliveries[o].webhook == due[0].webhook
  {
    hide JobsInv, TickOne, IsNext;
    TurnIsExact(s, due[0], at);
  }

  // Whose turn it is: the jobs that are on and whose time has come, at this instant included. Each of them has consumed its slot and has its
  // first run after the tick to come, so that nothing is left that is due; every other job is as it was.
  lemma TickMovesExactly(s: Scheduler, due: seq<DueJob>, at: int, id: string)
    requires JobsInv(s) && s.clock <= at && IsDueList(s.jobs, at, due) && id in s.jobs
    ensures var t := JobStep(s, Timed(at, Tick(due)));
            && t.jobs.Keys == s.jobs.Keys && t.clock == at
            && var j, k := s.jobs[id], t.jobs[id];
            if j.enabled && j.nextRunAt <= at then
              IsNext(j.schedule, at, Some(k.nextRunAt)) && k == JobRow(j.webhook, j.schedule, true, k.nextRunAt, Some(j.nextRunAt))
            else k == j
  {
    hide JobsInv, TickAll, IsNext, StoreTicked, IsDueList;
    TickIsExact(s, due, at);
  }

  // After a tick the slot of every due job with an enabled webhook is filled, by a delivery for that webhook.
  lemma EveryDueSlotIsFilled(s: Scheduler, due: seq<DueJob>, at: int, id: string)
    requires JobsInv(s) && s.clock <= at && IsDueList(s.jobs, at, due) && id in s.jobs
    ensures var t, j := JobStep(s, Timed(at, Tick(due))), s.jobs[id];
            j.enabled && j.nextRunAt <= at && j.webhook in s.store.webhooks && s.store.webhooks[j.webhook].enabled ==>
              exists o :: o in t.store.deliveries && s.store.nextOrdinal <= o
                          && HasSlot(t.store.deliveries[o], id, j.nextRunAt) && t.store.deliveries[o].webhook == j.webhook
  {
    hide JobsInv, TickAll, HasSlot;
    if IsDueNow(s.jobs, id, at) {
      var c := s.(clock := at);
      ClockAdvances(s, at);
      DueListIsCurrent(s.jobs, at, due);
      DueAreFew(s, due, at);
      TickIsExact(s, due, at);
      var i :| 0 <= i < |due| && due[i] == DueOf(s.jobs, id);
      if due[i].webhook in s.store.webhooks && s.store.webhooks[due[i].webhook].enabled { TickFillsSlots(c, due, at, i); }
    }
  }

  lemma DueAreFew(s: Scheduler, due: seq<DueJob>, at: int)
    requires JobsInv(s) && AllCurrent(s.jobs, due, at)
    ensures |due| <= 32
  {
    hide Inv, SlotsOk, Fires;
    IdsAreCounted(due);
    var ids := set item | item in due :: item.id;
    SubsetIsSmaller(ids, s.jobs.Keys);
    assert |s.jobs| == |s.jobs.Keys|;
  }

  lemma {:induction false} IdsAreCounted(due: seq<DueJob>)
    requires IdsDiffer(due)
    ensures |set item | item in due :: item.id| == |due|
  {
    if due != [] {
      IdsAreCounted(due[1..]);
      var rest := set item | item in due[1..] :: item.id;
      assert (set item | item in due :: item.id) == {due[0].id} + rest;
      forall item | item in due[1..]
        ensures item.id != due[0].id
      {
        var j :| 0 <= j < |due| - 1 && due[1..][j] == item;
        assert due[j + 1] == item;
      }
    }
  }
}
