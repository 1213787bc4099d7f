/**
 The scheduler's own operations: the query for due jobs, the tick over its answer, and the edits of a job.
 Each method's contract is the specified step; a failed transaction leaves everything as it was.
 */
module JobService {
  import opened Prelude
  import opened Cron
  import D = Deliveries
  import opened DeliveryStore
  import opened DeliveryProofs
  import opened Jobs
  import DeliverySafety
  import DeliveryService

  /* ----- the order of the query ----- */

  predicate IsFirst(jobs: map<string, JobRow>, ids: set<string>, id: string)
    requires forall k | k in ids :: k in jobs
  {
    id in ids && forall k | k in ids :: k == id || ComesBefore(DueOf(jobs, id), DueOf(jobs, k))
  }

  lemma {:induction false} FirstExists(jobs: map<string, JobRow>, ids: set<string>)
    requires (forall k | k in ids :: k in jobs) && ids != {}
    ensures exists id :: id in ids && IsFirst(jobs, ids, id)
    decreases ids
  {
    var k :| k in ids;
    var rest := ids - {k};
    if rest == {} {
      assert ids == {k} && IsFirst(jobs, ids, k);
    } else {
      FirstExists(jobs, rest);
      var first :| first in rest && IsFirst(jobs, rest, first);
      if ComesBefore(DueOf(jobs, k), DueOf(jobs, first)) {
        forall l | l in ids && l != k
          ensures ComesBefore(DueOf(jobs, k), DueOf(jobs, l))
        {
          TextOrder(k, first, l);
        }
        assert IsFirst(jobs, ids, k);
      } else {
        TextOrder(k, first, k);
        assert IsFirst(jobs, ids, first);
      }
    }
  }

  lemma TickOneMore(s: Scheduler, due: seq<DueJob>, i: nat, at: int)
    requires i < |due|
    ensures TickOne(s, due[i], at).Ok? ==> TickAll(s, due[i..], at) == TickAll(TickOne(s, due[i], at).value, due[i + 1..], at)
    ensures TickOne(s, due[i], at).Err? ==> TickAll(s, due[i..], at) == Err(TickOne(s, due[i], at).error)
  {
    assert due[i..][0] == due[i] && due[i..][1..] == due[i + 1..];
  }

  lemma NextAgrees(schedule: Schedule, after: int, r: Option<int>)
    requires IsNext(schedule, after, r)
    ensures NextRun(schedule, after) == r
  {
    NextIsDetermined(schedule, after, NextRun(schedule, after), r);
  }

  // Creating adds one row under the next ordinal; beside it are the rows that pruning kept.
  lemma CreatedRow(s: State, intent: Intent, at: int)
    requires OrdinalsFresh(s)
    ensures var t, r := Create(s, intent, at).0, Create(s, intent, at).1;
            && OrdinalsFresh(t) && t == s.(deliveries := t.deliveries, nextOrdinal := t.nextOrdinal)
            && (intent.webhook in s.webhooks && s.webhooks[intent.webhook].enabled ==>
                  && r == Result.Ok(s.nextOrdinal) && t.deliveries.Keys == Pruned(s.deliveries).Keys + {s.nextOrdinal}
                  && s.nextOrdinal !in Pruned(s.deliveries)
                  && forall o | o in Pruned(s.deliveries) :: t.deliveries[o] == Pruned(s.deliveries)[o])
  {
    hide Pruned, Fits, D.NewDelivery;
    KeptRows(s.deliveries);
  }

  lemma KeptRows(m: map<nat, D.Delivery>)
    ensures Pruned(m).Keys <= m.Keys && forall o | o in Pruned(m) :: Pruned(m)[o] == m[o]
  {
    PrunedKeeps(m);
    hide Pruned;
  }

  // The unique index refuses the new row exactly when a row beside it has the slot.
  lemma FillSlotIs(s: State, item: DueJob, at: int)
    requires OrdinalsFresh(s) && item.webhook in s.webhooks && s.webhooks[item.webhook].enabled
    ensures var (t, r) := Create(s, SlotIntent(item), at);
            && r.Ok? && r.value == s.nextOrdinal
            && FillSlot(s, item, at) ==
               if exists o | o in t.deliveries :: o != r.value && HasSlot(t.deliveries[o], item.id, item.scheduled) then Err(SlotTaken)
               else Result.Ok(t)
  {
    hide Create, Pruned;
    var (t, r) := Create(s, SlotIntent(item), at);
    CreatedRow(s, SlotIntent(item), at);
    assert forall o | o in t.deliveries :: o != s.nextOrdinal <==> o in Pruned(s.deliveries);
    hide HasSlot;
  }

  lemma EmptySchedulerIsSound(clock: int)
    ensures JobsInv(Scheduler(EMPTY, map[], clock))
  {
    DeliverySafety.EmptyIsSound();
  }

  class JobService {
    const service: DeliveryService.Service
    var jobs: map<string, JobRow>
    var clock: int

    function View(): Scheduler
      reads this, service
    {
      Scheduler(service.View(), jobs, clock)
    }

    constructor (service: DeliveryService.Service, clock: int)
      ensures this.service == service && View() == Scheduler(service.View(), map[], clock)
      ensures service.View() == EMPTY ==> JobsInv(View())
    {
      this.service, this.jobs, this.clock := service, map[], clock;
      new;
      EmptySchedulerIsSound(clock);
    }

    // The enabled jobs whose time has come, by time and then by ID.
    method DueJobs(at: int) returns (due: seq<DueJob>)
      ensures IsDueList(jobs, at, due)
    {
      var rest := set id | id in jobs && IsDueNow(jobs, id, at);
      due := [];
      while rest != {}
        invariant forall id | id in rest :: IsDueNow(jobs, id, at)
        invariant forall id | IsDueNow(jobs, id, at) :: id in rest || DueOf(jobs, id) in due
        invariant forall i | 0 <= i < |due| :: IsDueNow(jobs, due[i].id, at) && due[i] == DueOf(jobs, due[i].id)
        invariant forall i, j | 0 <= i < j < |due| :: ComesBefore(due[i], due[j])
        invariant forall i, id | 0 <= i < |due| && id in rest :: ComesBefore(due[i], DueOf(jobs, id))
        decreases rest
      {
        FirstExists(jobs, rest);
        var id :| id in rest && IsFirst(jobs, rest, id);
        due := due + [DueOf(jobs, id)];
        rest := rest - {id};
      }
    }

    // The delivery of one slot, unless the unique index refuses its row; the caller then rolls back.
    method CreateJobDelivery(item: DueJob, at: int) returns (problem: Option<Failure>)
      requires OrdinalsFresh(service.View()) && item.webhook in service.webhooks && service.webhooks[item.webhook].enabled
      modifies service`deliveries, service`nextOrdinal
      ensures match FillSlot(old(service.View()), item, at)
              case Ok(store) => service.View() == store && problem == None
              case Err(f) => problem == Some(f)
    {
      hide Create, Pruned, HasSlot, FillSlot, SlotIntent;
      FillSlotIs(service.View(), item, at);
      var created := service.CreateDelivery(SlotIntent(item), at);
      var ordinal := created.value;
      if exists o | o in service.deliveries :: o != ordinal && HasSlot(service.deliveries[o], item.id, item.scheduled) {
        problem := Some(SlotTaken);
      } else {
        problem := None;
      }
    }

    // One transaction: every due job consumes its slot, or nothing changes at all. Where the invariant holds it never fails.
    method ScheduleDueJobs(at: int) returns (ghost due: seq<DueJob>, problem: Option<Failure>)
      requires OrdinalsFresh(service.View())
      modifies this, service`deliveries, service`nextOrdinal
      ensures IsDueList(old(jobs), at, due)
      ensures match TickAll(old(View()).(clock := at), due, at)
              case Ok(t) => View() == t && problem == None
              case Err(f) => View() == old(View()).(clock := at) && problem == Some(f)
      ensures old(JobsInv(View())) && old(clock) <= at ==> problem == None && JobsInv(View())
    {
      hide TickAll, IsDueList, OrdinalsFresh, JobsInv;
      ghost var before := View();
      clock := at;
      var items := DueJobs(at);
      due := items;
      if JobsInv(before) && before.clock <= at { TickIsExact(before, items, at); }
      var deliveries, nextOrdinal, planned := service.deliveries, service.nextOrdinal, jobs;
      problem := ConsumeSlots(items, at);
      if problem != None {
        service.deliveries, service.nextOrdinal, jobs := deliveries, nextOrdinal, planned;
      }
    }

    // The jobs of the list, one by one, up to the first failure.
    method ConsumeSlots(items: seq<DueJob>, at: int) returns (problem: Option<Failure>)
      requires OrdinalsFresh(service.View())
      modifies this`jobs, service`deliveries, service`nextOrdinal
      ensures match TickAll(old(View()), items, at)
              case Ok(t) => View() == t && problem == None
              case Err(f) => problem == Some(f)
    {
      hide IsNext, TickOne, Create, Pruned;
      assert items[0..] == items;
      for i := 0 to |items|
        invariant OrdinalsFresh(service.View()) && TickAll(old(View()), items, at) == TickAll(View(), items[i..], at)
      {
        TickOneMore(View(), items, i, at);
        var next := Next(items[i].schedule, at);
        NextAgrees(items[i].schedule, at, next);
        problem := ConsumeSlot(items[i], next, at);
        if problem != None {
          return;
        }
      }
      problem := None;
    }

    // One due job: its delivery if its webhook is enabled, then the guarded update of its row.
    method ConsumeSlot(item: DueJob, next: Option<int>, at: int) returns (problem: Option<Failure>)
      requires OrdinalsFresh(service.View()) && next == NextRun(item.schedule, at)
      modifies this`jobs, service`deliveries, service`nextOrdinal
      ensures match TickOne(old(View()), item, at)
              case Ok(t) => View() == t && OrdinalsFresh(service.View()) && problem == None
              case Err(f) => problem == Some(f)
    {
      hide IsNext, Create, Taken, SlotIntent, Pruned, Fits, TickAll;
      if next == None {
        return Some(Unreachable);
      }
      if item.webhook !in service.webhooks {
        return Some(NoWebhook);
      }
      CreatedRow(service.View(), SlotIntent(item), at);
      if service.webhooks[item.webhook].enabled {
        problem := CreateJobDelivery(item, at);
        if problem != None {
          return;
        }
      }
      if item.id in jobs && jobs[item.id].enabled && jobs[item.id].nextRunAt == item.scheduled {
        jobs := jobs[item.id := jobs[item.id].(nextRunAt := next.value, lastRunAt := Some(item.scheduled))];
      }
      problem := None;
    }

    // Replacing a job; the clock is read before the transaction.
    method ReplaceJob(id: string, webhook: string, schedule: Schedule, read: int) returns (problem: Option<Problem>)
      modifies this`jobs
      ensures View() == Replaces(old(View()), id, webhook, schedule, read)
      ensures problem == Some(InvalidField) <==> NextRun(schedule, read) == None
      ensures problem == Some(NotFound) <==> NextRun(schedule, read).Some? && (webhook !in service.webhooks || id !in old(jobs))
      ensures problem in {None, Some(InvalidField), Some(NotFound)}
      ensures old(JobsInv(View())) ==>
              (JobsInv(View()) <==> problem.None? ==> NoRunBetween(schedule, read, old(jobs)[id].lastRunAt))
    {
      hide JobsInv, Fires, NoRunBetween, IsNext;
      if JobsInv(View()) { StaleReplaceKeeps(View(), id, webhook, schedule, read); }
      var next := Next(schedule, read);
      NextAgrees(schedule, read, next);
      if next.None? {
        return Some(InvalidField);
      }
      if webhook !in service.webhooks || id !in jobs {
        return Some(NotFound);
      }
      jobs := jobs[id := jobs[id].(webhook := webhook, schedule := schedule, nextRunAt := next.value)];
      problem := None;
    }

    method CreateJob(id: string, webhook: string, schedule: Schedule, read: int) returns (problem: Option<Problem>)
      requires id !in jobs
      modifies this`jobs
      ensures View() == Creates(old(View()), id, webhook, schedule, read)
      ensures problem.None? <==> id in jobs
      ensures problem == Some(NotFound) <==> NextRun(schedule, read).Some? && webhook !in service.webhooks
      ensures problem in {None, Some(InvalidField), Some(NotFound)}
      ensures old(JobsInv(View())) ==> JobsInv(View())
    {
      hide JobsInv, IsNext;
      if JobsInv(View()) && |jobs| < MAX_JOBS { PutKeeps(View(), id, webhook, schedule, false, None, read); }
      var next := Next(schedule, read);
      NextAgrees(schedule, read, next);
      if next.None? {
        return Some(InvalidField);
      }
      if webhook !in service.webhooks {
        return Some(NotFound);
      }
      if |jobs| >= MAX_JOBS {
        return Some(InvalidField);
      }
      jobs := jobs[id := JobRow(webhook, schedule, false, next.value, None)];
      problem := None;
    }

    method SetJobEnabled(id: string, enabled: bool) returns (found: bool)
      modifies this`jobs
      ensures View() == Act(old(View()), SetEnabled(id, enabled), clock) && found == (id in old(jobs))
      ensures old(JobsInv(View())) ==> JobsInv(View())
    {
      hide TickAll, IsDueList, JobsInv;
      if JobsInv(View()) { EnabledKeeps(View(), id, enabled); }
      found := id in jobs;
      if found {
        var j := jobs[id];
        jobs := jobs[id := JobRow(j.webhook, j.schedule, enabled, j.nextRunAt, j.lastRunAt)];
      }
    }

    // A manual run: one delivery without a slot, and no change to the job. It needs the webhook enabled and its secret.
    method RunJobOnce(id: string, at: int) returns (problem: Option<Problem>)
      modifies service`deliveries, service`nextOrdinal
      ensures View() == Act(old(View()), RunOnce(id), at)
      ensures problem == Some(NotFound) <==> id !in jobs || jobs[id].webhook !in service.webhooks
      ensures problem == Some(InvalidField) <==>
              && id in jobs && jobs[id].webhook in service.webhooks
              && var w := service.webhooks[jobs[id].webhook]; w.secret !in service.secrets || !w.enabled
      ensures problem in {None, Some(NotFound), Some(InvalidField)}
      ensures problem.None? ==> service.nextOrdinal == old(service.nextOrdinal) + 1
      ensures old(JobsInv(View())) ==> JobsInv(View())
    {
      hide TickAll, IsDueList, JobsInv, Inv, Pruned, Fits;
      if JobsInv(View()) && id in jobs { RunOnceKeeps(View(), id, at); }
      if id !in jobs || jobs[id].webhook !in service.webhooks {
        return Some(NotFound);
      }
      var webhook := jobs[id].webhook;
      if service.webhooks[webhook].secret !in service.secrets {
        return Some(InvalidField);
      }
      var created := service.CreateDelivery(ManualIntent(id, webhook), at);
      problem := if created.Ok? then None else Some(created.error);
    }
  }
}
