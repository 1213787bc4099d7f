/**
 The automation service over its tables: each method is one transaction of the source,
 and its contract is the step of the protocol it takes.
 */
module DeliveryService {
  import opened Prelude
  import opened Deliveries
  import opened DeliveryStore
  import opened DeliveryProofs
  import DeliverySafety

  lemma PruneOne(m: map<nat, Delivery>, o: nat)
    requires |m| >= MAX_RETAINED && IsOldestTerminal(m, o)
    ensures Pruned(m) == Pruned(m - {o}) && |m - {o}| == |m| - 1
  {
    assert (m - {o}).Keys == m.Keys - {o};
    assert |(m - {o}).Keys| == |m - {o}|;
  }

  // The first due delivery is unique, so the choice in the specification is the choice of the query.
  lemma FirstDueIsClaimed(s: State, worker: nat, o: nat, now: int)
    requires s.open && worker < WORKERS && worker !in s.claims && IsFirstDue(s, now, o)
    ensures IsDue(s, now, o)
    ensures ClaimNext(s, worker, now) == ClaimRow(s, worker, o, now)
  {
    var p :| IsFirstDue(s, now, p) && ClaimNext(s, worker, now) == ClaimRow(s, worker, p, now);
  }

  lemma NothingDue(s: State, worker: nat, now: int)
    requires !(s.open && worker < WORKERS && worker !in s.claims) || forall o | o in s.deliveries :: !IsFirstDue(s, now, o)
    ensures ClaimNext(s, worker, now) == s
  {
  }

  lemma KeepsInv(s: State, e: Event)
    ensures Inv(s) ==> Inv(Step(s, e))
  {
    hide Inv, Step;
    if Inv(s) { DeliverySafety.StepKeeps(s, e); }
  }

  lemma ReopenedRows(s: State, now: int)
    ensures Reopened(s, now).Keys == s.deliveries.Keys
    ensures forall o | o in s.deliveries ::
        var d := s.deliveries[o];
        Reopened(s, now)[o] == if IsInterrupted(s.webhooks, d) then Interrupt(d, HasSecret(s.secrets, d), HasWebhook(s.webhooks, d), now) else d
  {
  }

  lemma CreateIs(s: State, intent: Intent, now: int)
    ensures intent.webhook !in s.webhooks ==> Create(s, intent, now) == (s, Err(NotFound))
    ensures intent.webhook in s.webhooks && !s.webhooks[intent.webhook].enabled && !intent.allowOff ==>
              Create(s, intent, now) == (s, Err(InvalidField))
    ensures intent.webhook in s.webhooks && (s.webhooks[intent.webhook].enabled || intent.allowOff) ==>
              var kept := Pruned(s.deliveries);
              var d := NewDelivery(intent.source, intent.sourceId, intent.webhook, intent.slot, intent.payload,
                                   Fits(s, intent.payload) && |kept| < MAX_RETAINED, FirstRound(s.webhooks[intent.webhook]), now);
              Create(s, intent, now) == (s.(deliveries := kept[s.nextOrdinal := d], nextOrdinal := s.nextOrdinal + 1), Ok(s.nextOrdinal))
  {
    hide Fits, Pruned, NewDelivery;
  }

  // What became of sending: the target's answer, or where it failed before one.
  datatype Sending = Answered(httpStatus: int) | PostFailed | NotPrepared(originAllowed: bool) | NoSecretValue(code: string)

  // The outcome of an attempt, from what stood in its way before and after sending. Only a failed request and the answers that
  // ask for patience are tried again; a block found after a failure explains it, one found after an answer does not undo it.
  method DecideOutcome(before: Option<ErrorCode>, sending: Sending, after: Option<ErrorCode>) returns (outcome: Outcome)
    ensures outcome.Blocked? <==> before.Some? || (!sending.Answered? && after.Some?)
    ensures outcome.Accepted? <==> before.None? && sending.Answered? && 200 <= sending.httpStatus < 300
    ensures outcome.Transient? <==> before.None? && if sending.Answered? then sending.httpStatus in {408, 429} || sending.httpStatus >= 500
                                                    else sending.PostFailed? && after.None?
    ensures outcome.Permanent? <==> before.None? && after.None? && (sending.NotPrepared? || sending.NoSecretValue?)
    ensures outcome.Blocked? ==> Some(outcome.error) == if before.Some? then before else after
    ensures outcome.Transient? ==> outcome.error == Reported("externalRequestFailed")
    ensures outcome.Refused? ==> outcome.error == Reported("deliveryRejected")
    ensures outcome.Permanent? ==> outcome.error == Reported(if sending.NoSecretValue? then sending.code
                                                             else if sending.originAllowed then "externalRequestFailed" else "originNotAllowed")
  {
    if before.Some? {
      return Blocked(before.value);
    }
    if !sending.Answered? && after.Some? {
      return Blocked(after.value);
    }
    match sending {
      case Answered(httpStatus) => outcome := OutcomeOf(httpStatus);
      case PostFailed => outcome := Transient(Reported("externalRequestFailed"));
      case NotPrepared(originAllowed) => outcome := Permanent(Reported(if originAllowed then "externalRequestFailed" else "originNotAllowed"));
      case NoSecretValue(code) => outcome := Permanent(Reported(code));
    }
  }

  class Service {
    var deliveries: map<nat, Delivery>
    var nextOrdinal: nat
    var webhooks: map<string, Webhook>
    var secrets: set<string>
    var claims: map<nat, Claim>
    var open: bool

    function View(): State
      reads this
    {
      State(deliveries, nextOrdinal, webhooks, secrets, claims, open)
    }

    constructor ()
      ensures View() == EMPTY && Inv(View())
    {
      deliveries, nextOrdinal, webhooks, secrets, claims, open := map[], 1, map[], {}, map[], false;
      new;
      DeliverySafety.EmptyIsSound();
    }

    // Drops terminal rows, oldest first, and reports whether the table is still full.
    method PruneRows() returns (full: bool)
      modifies this`deliveries
      ensures deliveries == Pruned(old(deliveries)) && full == (|deliveries| >= MAX_RETAINED)
    {
      var retained := |deliveries|;
      while retained >= MAX_RETAINED
        invariant retained == |deliveries| && Pruned(deliveries) == Pruned(old(deliveries))
      {
        if exists o | o in deliveries :: IsOldestTerminal(deliveries, o) {
          var oldest :| oldest in deliveries && IsOldestTerminal(deliveries, oldest);
          PruneOne(deliveries, oldest);
          deliveries := deliveries - {oldest};
          retained := retained - 1;
        } else {
          return true;
        }
      }
      full := false;
    }

    method CreateDelivery(intent: Intent, now: int) returns (r: Result<nat, Problem>)
      modifies this`deliveries, this`nextOrdinal
      ensures (View(), r) == Create(old(View()), intent, now)
      ensures old(Inv(View())) ==> Inv(View())
    {
      hide Inv, Create, Fits, Pruned, NewDelivery;
      KeepsInv(View(), CreateEvent(intent, now));
      CreateIs(View(), intent, now);
      if intent.webhook !in webhooks {
        return Err(NotFound);
      }
      var webhook := webhooks[intent.webhook];
      if !webhook.enabled && !intent.allowOff {
        return Err(InvalidField);
      }
      var capacityExceeded := !Fits(View(), intent.payload);
      var full := PruneRows();
      if full {
        capacityExceeded := true;
      }
      var ordinal := nextOrdinal;
      var row := NewDelivery(intent.source, intent.sourceId, intent.webhook, intent.slot, intent.payload, !capacityExceeded,
                             FirstRound(webhook), now);
      deliveries := deliveries[ordinal := row];
      nextOrdinal := nextOrdinal + 1;
      r := Result.Ok(ordinal);
    }

    method ClaimDelivery(worker: nat, now: int) returns (claim: Option<Claim>)
      modifies this
      ensures View() == ClaimNext(old(View()), worker, now)
      ensures claim.Some? <==> worker in claims && worker !in old(claims)
      ensures claim.Some? ==> claims[worker] == claim.value
      ensures old(Inv(View())) ==> Inv(View())
    {
      hide Inv;
      KeepsInv(View(), ClaimEvent(worker, now));
      hide ClaimNext, IsFirstDue;
      claim := None;
      if !open || worker >= WORKERS || worker in claims {
        NothingDue(View(), worker, now);
        return;
      }
      if exists o | o in deliveries :: IsFirstDue(View(), now, o) {
        var o :| o in deliveries && IsFirstDue(View(), now, o);
        FirstDueIsClaimed(View(), worker, o, now);
        var d := deliveries[o];
        var round := Latest(d.rounds);
        var secretRow := d.rounds[round].secret in secrets;
        if (d.source != Test && !webhooks[d.webhook].enabled) || !secretRow {
          var code := if secretRow then WebhookDisabled else SecretRevoked;
          deliveries := deliveries[o := End(d, Cancelled, code, now)];
        } else if d.attemptCount >= MAX_ATTEMPTS || d.rounds[round].started >= MAX_ROUND_ATTEMPTS {
          deliveries := deliveries[o := End(d, Failed, AttemptInterrupted, now)];
        } else if d.payload == "" || |d.payload| > MAX_PAYLOAD {
          deliveries := deliveries[o := End(d, Failed, CapacityExceeded, now)];
        } else {
          var taken := ClaimOf(o, d);
          var attempt := Attempt(round, d.rounds[round].revision, InProgress, NoError);
          d := d.(attempts := d.attempts[taken.attempt := attempt]);
          d := d.(rounds := d.rounds[round := d.rounds[round].(started := taken.roundAttempt)]);
          d := d.(status := Running, attemptCount := taken.attempt, nextAttemptAt := None);
          deliveries := deliveries[o := d];
          claims := claims[worker := taken];
          claim := Some(taken);
        }
      } else {
        NothingDue(View(), worker, now);
      }
    }

    // What stands in the way of a claimed delivery now. The tables may be unreadable, as when the time allowed is over.
    method CurrentDeliveryBlock(c: Claim, readable: bool) returns (code: Option<ErrorCode>)
      ensures code.None? <==> readable && c.webhook in webhooks && c.secret in secrets && (c.source == Test || webhooks[c.webhook].enabled)
      ensures code == Some(WebhookDisabled) <==>
              readable && c.webhook in webhooks && c.secret in secrets && c.source != Test && !webhooks[c.webhook].enabled
      ensures code == Some(Reported("hookFailed")) <==> !readable
      ensures code in {None, Some(WebhookDisabled), Some(SecretRevoked), Some(Reported("hookFailed"))}
    {
      if !readable {
        return Some(Reported("hookFailed"));
      }
      if c.webhook !in webhooks || c.secret !in secrets {
        return Some(SecretRevoked);
      }
      code := if c.source != Test && !webhooks[c.webhook].enabled then Some(WebhookDisabled) else None;
    }

    method FinishAttempt(worker: nat, outcome: Outcome, now: int)
      requires worker in claims
      modifies this
      ensures View() == Finish(old(View()), worker, outcome, now)
      ensures old(Inv(View())) ==> Inv(View())
    {
      hide Inv;
      KeepsInv(View(), FinishEvent(worker, outcome, now));
      var claim := claims[worker];
      var retry := outcome.Transient? && claim.roundAttempt <= |RETRY_DELAYS| && claim.attempt < MAX_ATTEMPTS;
      var status, attemptStatus := Failed, GaveUp;
      var next, completed := None, Some(now);
      if outcome.Accepted? {
        status, attemptStatus := Succeeded, Delivered;
      } else if outcome.Blocked? {
        status, attemptStatus := Cancelled, Stopped;
      } else if retry {
        status, attemptStatus := Pending, RetryScheduled;
        next, completed := Some(now + RETRY_DELAYS[claim.roundAttempt - 1]), None;
      } else if outcome.Refused? {
        attemptStatus := Rejected;
      }
      claims := claims - {worker};
      if claim.ordinal in deliveries {
        var d := deliveries[claim.ordinal];
        if claim.attempt in d.attempts && d.attempts[claim.attempt].status == InProgress {
          d := d.(attempts := d.attempts[claim.attempt := d.attempts[claim.attempt].(status := attemptStatus, error := ErrorOf(outcome))]);
        }
        if d.status == Running {
          d := d.(status := status, nextAttemptAt := next, completedAt := completed, error := ErrorOf(outcome));
        }
        deliveries := deliveries[claim.ordinal := d];
      }
    }

    method RetryDelivery(ordinal: nat, now: int) returns (problem: Option<Problem>)
      modifies this
      ensures View() == Retry(old(View()), ordinal, now) && problem == RetryProblem(old(View()), ordinal)
      ensures old(Inv(View())) ==> Inv(View())
    {
      hide Inv;
      KeepsInv(View(), RetryEvent(ordinal, now));
      if ordinal !in deliveries {
        return Some(NotFound);
      }
      var d := deliveries[ordinal];
      if d.status != Failed || d.payload == "" || d.attemptCount >= MAX_ATTEMPTS || d.redrives >= MAX_REDRIVES {
        return Some(NotRetryable);
      }
      if d.webhook !in webhooks || webhooks[d.webhook].secret !in secrets {
        return Some(NotRetryable);
      }
      var webhook := webhooks[d.webhook];
      if !webhook.enabled {
        return Some(NotRetryable);
      }
      if ActiveCount(View()) >= MAX_ACTIVE {
        return Some(NoCapacity);
      }
      var round := Latest(d.rounds) + 1;
      if round > MAX_ROUNDS {
        return Some(NotRetryable);
      }
      d := d.(rounds := d.rounds[round := Round(webhook.revision, webhook.target, webhook.secret, 0)]);
      deliveries := deliveries[ordinal := d.(status := Pending, nextAttemptAt := Some(now), completedAt := None,
                                             redrives := d.redrives + 1, error := NoError)];
      problem := None;
    }

    method CreateWebhook(id: string, target: string, secret: string) returns (created: bool)
      requires id !in webhooks
      modifies this`webhooks
      ensures View() == DeliveryStore.CreateWebhook(old(View()), id, target, secret) && created == (id in webhooks)
      ensures old(Inv(View())) ==> Inv(View())
    {
      hide Inv;
      KeepsInv(View(), CreateWebhookEvent(id, target, secret));
      created := |webhooks| < MAX_WEBHOOKS && secret in secrets;
      if created {
        webhooks := webhooks[id := Webhook(target, secret, false, 1)];
      }
    }

    // Every replacement is a new revision; deliveries keep the revision, target and secret of their round.
    method ReplaceWebhook(id: string, target: string, secret: string) returns (problem: Option<Problem>)
      modifies this`webhooks
      ensures View() == DeliveryStore.ReplaceWebhook(old(View()), id, target, secret)
      ensures problem.None? <==> id in old(webhooks) && secret in secrets
      ensures problem == Some(InvalidField) <==> secret !in secrets
      ensures problem == Some(NotFound) <==> secret in secrets && id !in old(webhooks)
      ensures old(Inv(View())) ==> Inv(View())
    {
      hide Inv;
      KeepsInv(View(), ReplaceWebhookEvent(id, target, secret));
      if secret !in secrets {
        return Some(InvalidField);
      }
      if id !in webhooks {
        return Some(NotFound);
      }
      webhooks := webhooks[id := Webhook(target, secret, webhooks[id].enabled, webhooks[id].revision + 1)];
      problem := None;
    }

    method EnableWebhook(id: string) returns (problem: Option<Problem>)
      modifies this`webhooks
      ensures View() == DeliveryStore.EnableWebhook(old(View()), id)
      ensures problem.None? <==> id in old(webhooks) && old(webhooks)[id].secret in secrets
      ensures problem == Some(NotFound) <==> id !in old(webhooks)
      ensures problem in {None, Some(NotFound), Some(InvalidField)}
      ensures old(Inv(View())) ==> Inv(View())
    {
      hide Inv;
      KeepsInv(View(), EnableWebhookEvent(id));
      if id !in webhooks {
        return Some(NotFound);
      }
      if webhooks[id].secret !in secrets {
        return Some(InvalidField);
      }
      webhooks := webhooks[id := webhooks[id].(enabled := true)];
      problem := None;
    }

    method DisableWebhook(id: string, now: int) returns (found: bool)
      modifies this
      ensures View() == DeliveryStore.DisableWebhook(old(View()), id, now) && found == (id in old(webhooks))
      ensures old(Inv(View())) ==> Inv(View())
    {
      hide Inv;
      KeepsInv(View(), DisableWebhookEvent(id, now));
      found := id in webhooks;
      if found {
        var unstarted := UntestedOf(View(), id);
        webhooks := webhooks[id := webhooks[id].(enabled := false)];
        deliveries := CancelPending(deliveries, unstarted, WebhookDisabled, now);
      }
    }

    method DeleteSecret(secret: string, now: int) returns (found: bool)
      modifies this
      ensures View() == DeliveryStore.DeleteSecret(old(View()), secret, now) && found == (secret in old(secrets))
      ensures old(Inv(View())) ==> Inv(View())
    {
      hide Inv;
      KeepsInv(View(), DeleteSecretEvent(secret, now));
      found := secret in secrets;
      if found {
        var signed := SignedWith(View(), secret);
        var waiting := OfWebhooks(View(), signed);
        webhooks := map id | id in webhooks :: if id in signed then webhooks[id].(enabled := false) else webhooks[id];
        deliveries := CancelPending(deliveries, waiting, SecretRevoked, now);
        secrets := secrets - {secret};
      }
    }

    // The interrupted deliveries, one by one.
    method CloseInterrupted(now: int)
      modifies this`deliveries
      ensures deliveries == Reopened(old(View()), now)
    {
      hide Interrupt, Reopened, IsInterrupted, HasSecret, HasWebhook;
      ReopenedRows(View(), now);
      var interrupted := set o | o in deliveries && IsInterrupted(webhooks, deliveries[o]);
      ghost var before := View();
      while interrupted != {}
        invariant deliveries.Keys == before.deliveries.Keys
        invariant forall o | o in interrupted :: o in deliveries && IsInterrupted(before.webhooks, before.deliveries[o])
        invariant forall o | o in interrupted :: deliveries[o] == before.deliveries[o]
        invariant forall o | o in deliveries && o !in interrupted :: deliveries[o] == Reopened(before, now)[o]
        decreases interrupted
      {
        var o :| o in interrupted;
        var d := deliveries[o];
        deliveries := deliveries[o := Interrupt(d, HasSecret(secrets, d), HasWebhook(webhooks, d), now)];
        interrupted := interrupted - {o};
      }
    }

    // The interrupted deliveries, then what waits without its secret, then what waits without its webhook.
    method RecoverOnStartup(now: int)
      requires !open && claims == map[]
      modifies this
      ensures View() == Recover(old(View()), now)
      ensures old(Inv(View())) ==> Inv(View())
    {
      hide Inv;
      KeepsInv(View(), RecoverEvent(now));
      hide Reopened, CancelPending;
      CloseInterrupted(now);
      deliveries := CancelPending(deliveries, WithoutSecret(secrets, deliveries), SecretRevoked, now);
      deliveries := CancelPending(deliveries, WithoutWebhook(webhooks, deliveries), WebhookDisabled, now);
      open := true;
    }
  }
}
