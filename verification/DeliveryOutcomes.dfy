/**
 What each transaction of the delivery protocol answers and leaves in the rows, written out: for the caller who asks what
 becomes of one delivery, and when.
 */
module DeliveryOutcomes {
  import opened Prelude
  import opened Deliveries
  import opened DeliveryStore
  import opened DeliveryProofs
  import DeliverySafety

  /* ----- finishing an attempt ----- */

  // What finishing makes of the delivery and of its attempt, by the outcome. Nothing else of the delivery moves.
  lemma FinishedRow(d: Delivery, c: Claim, outcome: Outcome, now: int)
    requires Sound(d) && Holds(d, c)
    ensures c.attempt in d.attempts
    ensures var e := FinishAttempt(d, c, outcome, now);
            var again := outcome.Transient? && c.roundAttempt <= 7;
            var error := if outcome.Accepted? then NoError else outcome.error;
            var closed := match outcome
              case Accepted => Delivered
              case Refused(_) => Rejected
              case Blocked(_) => Stopped
              case Permanent(_) => GaveUp
              case Transient(_) => if again then RetryScheduled else GaveUp;
            && e == d.(status := e.status, error := error, nextAttemptAt := e.nextAttemptAt, completedAt := if again then None else Some(now),
                       attempts := d.attempts[c.attempt := d.attempts[c.attempt].(status := closed, error := error)])
            && e.status == (if outcome.Accepted? then Succeeded else if outcome.Blocked? then Cancelled else if again then Pending else Failed)
  {
    LatestIsLast(d);
    AttemptLimitIsRoundLimit(d);
    FinishClosesItsAttempt(d, c, outcome, now);
  }

  // When a failed attempt is made again: 1, 5, 15, 60, 180, 360 and 720 minutes after the first seven attempts of a round, and
  // never after the eighth; nor after any other outcome.
  lemma RetryIsDue(d: Delivery, c: Claim, outcome: Outcome, now: int)
    requires Sound(d) && Holds(d, c)
    ensures 1 <= c.roundAttempt <= 8
    ensures var minute := 60_000_000_000;
            FinishAttempt(d, c, outcome, now).nextAttemptAt ==
            if !outcome.Transient? then None
            else if c.roundAttempt == 1 then Some(now + 1 * minute)
            else if c.roundAttempt == 2 then Some(now + 5 * minute)
            else if c.roundAttempt == 3 then Some(now + 15 * minute)
            else if c.roundAttempt == 4 then Some(now + 60 * minute)
            else if c.roundAttempt == 5 then Some(now + 180 * minute)
            else if c.roundAttempt == 6 then Some(now + 360 * minute)
            else if c.roundAttempt == 7 then Some(now + 720 * minute)
            else None
  {
    LatestIsLast(d);
    AttemptLimitIsRoundLimit(d);
  }

  // The worker gives its claim up, and the delivery it held is finished as above; no other row, no webhook and no secret moves.
  lemma FinishMovesOneRow(s: State, worker: nat, outcome: Outcome, now: int)
    requires Inv(s) && worker in s.claims
    ensures var c := s.claims[worker];
            && c.ordinal in s.deliveries && Holds(s.deliveries[c.ordinal], c) && Sound(s.deliveries[c.ordinal])
            && Finish(s, worker, outcome, now) ==
               s.(claims := s.claims - {worker},
                  deliveries := s.deliveries[c.ordinal := FinishAttempt(s.deliveries[c.ordinal], c, outcome, now)])
  {
    hide Sound, Holds, FinishAttempt;
    assert HoldsRow(s, worker);
    assert RowOk(s, s.claims[worker].ordinal);
  }

  /* ----- creating ----- */

  // The table of active deliveries is counted by its rows.
  lemma ActiveIsCounted(s: State)
    requires Inv(s)
    ensures ActiveCount(s) == |set o | o in s.deliveries && (s.deliveries[o].status == Pending || s.deliveries[o].status == Running)|
  {
    hide Sound;
    forall o | o in s.deliveries ensures o < s.nextOrdinal { assert RowOk(s, o); }
    DeliverySafety.ActiveAreKeys(s.deliveries, s.nextOrdinal);
    KeysAreCounted(DeliverySafety.ActiveRows(s.deliveries), s.nextOrdinal);
    assert DeliverySafety.ActiveRows(s.deliveries) ==
           set o | o in s.deliveries && (s.deliveries[o].status == Pending || s.deliveries[o].status == Running);
  }

  // The bytes kept are those of the payloads: an empty table has none, and each row has its own.
  lemma BytesAreSummed(s: State, o: nat)
    ensures s.deliveries == map[] ==> RetainedBytes(s) == 0
    ensures o in s.deliveries && o < s.nextOrdinal ==>
              RetainedBytes(s) == RetainedBytes(s.(deliveries := s.deliveries - {o})) + |s.deliveries[o].payload|
  {
    if s.deliveries == map[] { NothingInAll(s.nextOrdinal); }
    if o in s.deliveries { TotalWithout(s.deliveries, o, s.nextOrdinal, PayloadWeight); }
  }

  lemma {:induction false} NothingInAll(upTo: nat)
    ensures Total(map[], upTo, PayloadWeight) == 0
  {
    if upTo > 0 { NothingInAll(upTo - 1); }
  }

  // Pruning takes no row from a table below the limit, and from a full one no more than it must.
  lemma {:induction false} PruningStopsInTime(m: map<nat, Delivery>)
    ensures |m| < 5000 ==> Pruned(m) == m
    ensures |m| >= 5000 ==> |Pruned(m)| >= 4999
    decreases |m|
  {
    if |m| >= MAX_RETAINED && exists o :: IsOldestTerminal(m, o) {
      var o :| IsOldestTerminal(m, o) && Pruned(m) == Pruned(m - {o});
      OneLess(m, o);
      PruningStopsInTime(m - {o});
    }
  }

  ghost predicate HasRoom(s: State, payload: string) {
    && |set o | o in s.deliveries && (s.deliveries[o].status == Pending || s.deliveries[o].status == Running)| < 1000
    && 0 < |payload| <= 1048576 && RetainedBytes(s) + |payload| <= 67108864
  }

  // The row a creation adds: it carries its intent and pins the webhook's revision, target and secret of the moment. It waits at
  // once if there is room, and otherwise ends as failed, without its payload.
  ghost predicate IsCreated(d: Delivery, intent: Intent, w: Webhook, room: bool, now: int) {
    && (d.source, d.sourceId, d.webhook, d.slot, d.createdAt) == (intent.source, intent.sourceId, intent.webhook, intent.slot, now)
    && (d.attemptCount, d.redrives, d.attempts) == (0, 0, map[]) && d.rounds == map[1 := Round(w.revision, w.target, w.secret, 0)]
    && if room then (d.status, d.payload, d.nextAttemptAt, d.completedAt, d.error) == (Pending, intent.payload, Some(now), None, NoError)
       else (d.status, d.payload, d.nextAttemptAt, d.completedAt, d.error) == (Failed, "", None, Some(now), CapacityExceeded)
  }

  // What creating answers, and what it leaves: one new row under the next ordinal; only ended rows leave for it.
  lemma CreationIsExact(s: State, intent: Intent, now: int)
    requires Inv(s)
    ensures var t, r := Create(s, intent, now).0, Create(s, intent, now).1;
            && (r == Err(NotFound) <==> intent.webhook !in s.webhooks)
            && (r == Err(InvalidField) <==> intent.webhook in s.webhooks && !s.webhooks[intent.webhook].enabled && !intent.allowOff)
            && (r.Err? ==> (r.error == NotFound || r.error == InvalidField) && t == s)
            && (r.Ok? ==> r.value == s.nextOrdinal && Inserts(s, t, intent, now))
  {
    hide TablesOk, ClaimsOk, Pruned, Sound, ActiveCount, RetainedBytes;
    ActiveIsCounted(s);
    PruningMakesRoom(s);
    PrunedKeeps(s.deliveries);
    BelowNext(s);
  }

  ghost predicate Inserts(s: State, t: State, intent: Intent, now: int) {
    var n := s.nextOrdinal;
    var inserts :=
      && t == s.(deliveries := t.deliveries, nextOrdinal := n + 1)
      && n !in s.deliveries && n in t.deliveries && intent.webhook in s.webhooks
      && IsCreated(t.deliveries[n], intent, s.webhooks[intent.webhook], HasRoom(s, intent.payload), now)
      && (forall o | o in t.deliveries && o != n :: o in s.deliveries && t.deliveries[o] == s.deliveries[o])
      && (forall o | o in s.deliveries && IsActive(s.deliveries[o]) :: o in t.deliveries);
    inserts
  }

  lemma BelowNext(s: State)
    requires Inv(s)
    ensures forall o | o in s.deliveries :: o < s.nextOrdinal
  {
    hide Sound;
    forall o | o in s.deliveries ensures o < s.nextOrdinal { assert RowOk(s, o); }
  }

  /* ----- claiming ----- */

  // The delivery waits, and its time has come.
  ghost predicate IsWaiting(s: State, now: int, o: nat) {
    o in s.deliveries && s.deliveries[o].status == Pending && s.deliveries[o].nextAttemptAt.Some? && s.deliveries[o].nextAttemptAt.value <= now
  }

  // Of the waiting deliveries whose time has come it was created first, and of those created at one instant it has the least ordinal.
  ghost predicate IsNextInLine(s: State, now: int, o: nat) {
    && IsWaiting(s, now, o)
    && forall p | IsWaiting(s, now, p) && p != o ::
         s.deliveries[o].createdAt < s.deliveries[p].createdAt || (s.deliveries[o].createdAt == s.deliveries[p].createdAt && o < p)
  }

  lemma WaitingIsDue(s: State, now: int, o: nat)
    requires Inv(s)
    ensures IsDue(s, now, o) <==> IsWaiting(s, now, o)
  {
    hide Sound, ClaimsOk;
    if IsWaiting(s, now, o) {
      assert RowOk(s, o);
      LatestIsLast(s.deliveries[o]);
    }
  }

  lemma NextInLineIsFirstDue(s: State, now: int, o: nat)
    requires Inv(s)
    ensures IsFirstDue(s, now, o) <==> IsNextInLine(s, now, o)
  {
    hide Inv, IsDue;
    forall p ensures IsDue(s, now, p) <==> IsWaiting(s, now, p) { WaitingIsDue(s, now, p); }
  }

  // Where something waits, something is next in line.
  lemma LineHasAHead(s: State, now: int, p: nat)
    requires IsWaiting(s, now, p)
    ensures exists o :: IsNextInLine(s, now, o)
  {
    hide IsWaiting;
    var waiting := set o | o in s.deliveries && IsWaiting(s, now, o);
    WaitingIsKept(s, now);
    var o := HeadOf(s, waiting, p);
    assert IsNextInLine(s, now, o);
  }

  lemma WaitingIsKept(s: State, now: int)
    ensures forall o | IsWaiting(s, now, o) :: o in s.deliveries
  {
  }

  lemma {:induction false} HeadOf(s: State, waiting: set<nat>, p: nat) returns (o: nat)
    requires waiting <= s.deliveries.Keys && p in waiting
    ensures o in waiting
    ensures forall q | q in waiting && q != o ::
        s.deliveries[o].createdAt < s.deliveries[q].createdAt || (s.deliveries[o].createdAt == s.deliveries[q].createdAt && o < q)
    decreases waiting
  {
    o := p;
    if waiting != {p} {
      var q :| q in waiting && q != p;
      var r := HeadOf(s, waiting - {p}, q);
      if s.deliveries[r].createdAt < s.deliveries[p].createdAt || (s.deliveries[r].createdAt == s.deliveries[p].createdAt && r < p) { o := r; }
    }
  }

  // What claiming makes of the delivery next in line: it is cancelled if the secret its round pins is gone, or, unless it is a
  // test, its webhook is off; otherwise it runs, with one more attempt in its latest round, and the worker holds all of that.
  ghost predicate Claims(s: State, t: State, worker: nat, o: nat, now: int) {
    && o in s.deliveries
    && var d := s.deliveries[o];
    && Latest(d.rounds) in d.rounds && d.webhook in s.webhooks
    && var n, round := 1 + d.redrives, d.rounds[Latest(d.rounds)];
    var cancelled := d.(status := Cancelled, completedAt := Some(now), nextAttemptAt := None);
    var a := d.attemptCount + 1;
    if round.secret !in s.secrets then t == s.(deliveries := s.deliveries[o := cancelled.(error := SecretRevoked)])
    else if d.source != Test && !s.webhooks[d.webhook].enabled then t == s.(deliveries := s.deliveries[o := cancelled.(error := WebhookDisabled)])
    else
      t == s.(claims := s.claims[worker := Claim(o, d.source, d.webhook, round.secret, d.payload, a, n, round.started + 1)],
              deliveries := s.deliveries[o := d.(status := Running, nextAttemptAt := None, attemptCount := a,
                                                 rounds := d.rounds[n := round.(started := round.started + 1)],
                                                 attempts := d.attempts[a := Attempt(n, round.revision, InProgress, NoError)])])
  }

  // A worker that may not claim changes nothing, and neither does one that finds nothing waiting.
  lemma ClaimingIsExact(s: State, worker: nat, now: int, o: nat)
    requires Inv(s)
    ensures !s.open || worker >= 4 || worker in s.claims || (forall p :: !IsWaiting(s, now, p)) ==> ClaimNext(s, worker, now) == s
    ensures s.open && worker < 4 && worker !in s.claims && IsNextInLine(s, now, o) ==>
              Claims(s, ClaimNext(s, worker, now), worker, o, now)
  {
    hide Inv, IsFirstDue, IsDue, Claims, IsWaiting, ClaimRow;
    forall p ensures IsDue(s, now, p) <==> IsWaiting(s, now, p) { WaitingIsDue(s, now, p); }
    FirstDueIsDue(s, now);
    NextInLineIsFirstDue(s, now, o);
    if s.open && worker < 4 && worker !in s.claims && IsNextInLine(s, now, o) {
      OnlyOneIsFirst(s, now);
      assert ClaimNext(s, worker, now) == ClaimRow(s, worker, o, now);
      ClaimedRow(s, worker, o, now);
    }
  }

  lemma FirstDueIsDue(s: State, now: int)
    ensures forall o | IsFirstDue(s, now, o) :: IsDue(s, now, o)
  {
  }

  lemma OnlyOneIsFirst(s: State, now: int)
    ensures forall o, p | IsFirstDue(s, now, o) && IsFirstDue(s, now, p) :: o == p
  {
  }

  lemma ClaimedRow(s: State, worker: nat, o: nat, now: int)
    requires Inv(s) && IsDue(s, now, o)
    ensures Claims(s, ClaimRow(s, worker, o, now), worker, o, now)
  {
    hide Sound, ClaimsOk;
    assert RowOk(s, o);
    LatestIsLast(s.deliveries[o]);
    PendingHasRoom(s.deliveries[o]);
  }

  /* ----- redriving ----- */

  // A failed delivery with a payload, attempts and redrives left, whose webhook is on and has its secret, can be sent again by hand;
  // it is refused with the reason that comes first. It waits at once, in a new round that pins what the webhook has now.
  lemma RedriveIsExact(s: State, o: nat, now: int)
    requires Inv(s)
    ensures RetryProblem(s, o) == Some(NotFound) <==> o !in s.deliveries
    ensures o in s.deliveries ==>
              var d := s.deliveries[o];
              && d.webhook in s.webhooks
              && var w := s.webhooks[d.webhook];
              var may := d.status == Failed && d.payload != "" && d.attemptCount < 32 && d.redrives < 3 && w.enabled && w.secret in s.secrets;
              var room := |set p | p in s.deliveries && (s.deliveries[p].status == Pending || s.deliveries[p].status == Running)| < 1000;
              && RetryProblem(s, o) == (if !may then Some(NotRetryable) else if !room then Some(NoCapacity) else None)
              && Retry(s, o, now) == if !may || !room then s else
                   s.(deliveries := s.deliveries[o :=
                        d.(rounds := d.rounds[d.redrives + 2 := Round(w.revision, w.target, w.secret, 0)], redrives := d.redrives + 1,
                           status := Pending, nextAttemptAt := Some(now), completedAt := None, error := NoError)])
  {
    hide Sound, ClaimsOk, ActiveCount, RetainedBytes;
    ActiveIsCounted(s);
    if o in s.deliveries {
      assert RowOk(s, o);
      LatestIsLast(s.deliveries[o]);
    }
  }

  /* ----- webhooks and secrets ----- */

  // What waits for the webhook, but for its tests.
  ghost function TurnedOff(d: Delivery, id: string, now: int): Delivery {
    if d.webhook == id && d.source != Test && d.status == Pending
    then d.(status := Cancelled, error := WebhookDisabled, completedAt := Some(now), nextAttemptAt := None) else d
  }

  // A webhook is created off, at its first revision; replacing it counts one revision and keeps it on or off; turning it on or off
  // moves nothing else of it, and turning it off ends what waits for it but for its tests.
  lemma WebhookEditsAreExact(s: State, id: string, target: string, secret: string, now: int)
    ensures CreateWebhook(s, id, target, secret) ==
            if id in s.webhooks || secret !in s.secrets || |s.webhooks| >= 32 then s
            else s.(webhooks := s.webhooks[id := Webhook(target, secret, false, 1)])
    ensures id in s.webhooks ==>
              var w := s.webhooks[id];
              && ReplaceWebhook(s, id, target, secret) ==
                 (if secret in s.secrets then s.(webhooks := s.webhooks[id := Webhook(target, secret, w.enabled, w.revision + 1)]) else s)
              && EnableWebhook(s, id) ==
                 (if w.secret in s.secrets then s.(webhooks := s.webhooks[id := Webhook(w.target, w.secret, true, w.revision)]) else s)
              && DisableWebhook(s, id, now) ==
                 s.(webhooks := s.webhooks[id := Webhook(w.target, w.secret, false, w.revision)],
                    deliveries := map o | o in s.deliveries :: TurnedOff(s.deliveries[o], id, now))
    ensures id !in s.webhooks ==>
              ReplaceWebhook(s, id, target, secret) == s && EnableWebhook(s, id) == s && DisableWebhook(s, id, now) == s
  {
    if id in s.webhooks {
      assert DisableWebhook(s, id, now).deliveries == map o | o in s.deliveries :: TurnedOff(s.deliveries[o], id, now);
    }
  }

  // Deleting a secret turns off the webhooks that sign with it, and ends what waits for them.
  lemma DeletionIsExact(s: State, secret: string, now: int)
    requires Inv(s)
    ensures secret !in s.secrets ==> DeleteSecret(s, secret, now) == s
    ensures secret in s.secrets ==>
              var t := DeleteSecret(s, secret, now);
              && t == s.(secrets := s.secrets - {secret}, webhooks := t.webhooks, deliveries := t.deliveries)
              && t.webhooks.Keys == s.webhooks.Keys && t.deliveries.Keys == s.deliveries.Keys
              && (forall id | id in s.webhooks ::
                    t.webhooks[id] == if s.webhooks[id].secret == secret then s.webhooks[id].(enabled := false) else s.webhooks[id])
              && (forall o | o in s.deliveries ::
                    var d := s.deliveries[o];
                    && d.webhook in s.webhooks
                    && t.deliveries[o] == if d.status == Pending && s.webhooks[d.webhook].secret == secret
                         then d.(status := Cancelled, error := SecretRevoked, completedAt := Some(now), nextAttemptAt := None) else d)
  {
    hide Sound, ClaimsOk;
    forall o | o in s.deliveries ensures s.deliveries[o].webhook in s.webhooks { assert RowOk(s, o); }
  }

  /* ----- starting ----- */

  // What startup makes of a delivery that was running: its attempt is interrupted; it ends as cancelled without its secret, or
  // without its webhook if it is no test; it ends as failed after the eighth attempt of its round; otherwise it waits at once.
  ghost function AfterInterruption(s: State, d: Delivery, now: int): Delivery
    requires Latest(d.rounds) in d.rounds
  {
    var closed := map a | a in d.attempts ::
      if a == d.attemptCount then d.attempts[a].(status := Interrupted, error := AttemptInterrupted) else d.attempts[a];
    var ended := d.(attempts := closed, completedAt := Some(now), nextAttemptAt := None);
    if d.rounds[Latest(d.rounds)].secret !in s.secrets then ended.(status := Cancelled, error := SecretRevoked)
    else if d.source != Test && (d.webhook !in s.webhooks || !s.webhooks[d.webhook].enabled) then ended.(status := Cancelled, error := WebhookDisabled)
    else if d.rounds[Latest(d.rounds)].started == 8 then ended.(status := Failed, error := AttemptInterrupted)
    else ended.(status := Pending, completedAt := None, nextAttemptAt := Some(now), error := AttemptInterrupted)
  }

  // And of one that waits: it goes on waiting for the same instant, unless its secret or its webhook is gone.
  ghost function AfterWaiting(s: State, d: Delivery, now: int): Delivery
    requires Latest(d.rounds) in d.rounds
  {
    var ended := d.(status := Cancelled, completedAt := Some(now), nextAttemptAt := None);
    if d.rounds[Latest(d.rounds)].secret !in s.secrets then ended.(error := SecretRevoked)
    else if d.source != Test && (d.webhook !in s.webhooks || !s.webhooks[d.webhook].enabled) then ended.(error := WebhookDisabled)
    else d
  }

  lemma RecoveryIsExact(s: State, now: int)
    requires Inv(s) && !s.open && s.claims == map[]
    ensures var t := Recover(s, now);
            && t == s.(deliveries := t.deliveries, open := true) && t.deliveries.Keys == s.deliveries.Keys
            && forall o | o in s.deliveries ::
                 var d := s.deliveries[o];
                 && Latest(d.rounds) in d.rounds
                 && t.deliveries[o] == if d.status == Running then AfterInterruption(s, d, now)
                                       else if d.status == Pending then AfterWaiting(s, d, now) else d
  {
    hide Sound, ClaimsOk, Recovered, AfterInterruption, AfterWaiting;
    DeliverySafety.RecoveredKeys(s, now);
    forall o | o in s.deliveries
      ensures var d := s.deliveries[o];
              && Latest(d.rounds) in d.rounds
              && Recovered(s, now)[o] == if d.status == Running then AfterInterruption(s, d, now)
                                         else if d.status == Pending then AfterWaiting(s, d, now) else d
    {
      RecoveredRowIs(s, o, now);
    }
  }

  lemma RecoveredRowIs(s: State, o: nat, now: int)
    requires Inv(s) && o in s.deliveries
    ensures var d := s.deliveries[o];
            && Latest(d.rounds) in d.rounds && o in Recovered(s, now)
            && Recovered(s, now)[o] == if d.status == Running then AfterInterruption(s, d, now)
                                       else if d.status == Pending then AfterWaiting(s, d, now) else d
  {
    hide Sound, Recovered, ClaimsOk, AfterInterruption, AfterWaiting, DeliverySafety.RecoverRow;
    var d := s.deliveries[o];
    assert RowOk(s, o);
    LatestIsLast(d);
    DeliverySafety.RecoveredByRow(s, now, o);
    if d.status == Running { RunningRow(s, d, now); } else { RestingRow(s, d, now); }
  }

  lemma RestingRow(s: State, d: Delivery, now: int)
    requires Latest(d.rounds) in d.rounds && d.status != Running
    ensures DeliverySafety.RecoverRow(s, d, now) == if d.status == Pending then AfterWaiting(s, d, now) else d
  {
    hide Interrupt, Latest;
  }

  lemma RunningRow(s: State, d: Delivery, now: int)
    requires Sound(d) && d.status == Running && Latest(d.rounds) in d.rounds && d.webhook in s.webhooks
    ensures DeliverySafety.RecoverRow(s, d, now) == AfterInterruption(s, d, now)
  {
    OnlyLastIsOpen(d);
    AttemptLimitIsRoundLimit(d);
    hide Sound, Latest;
    assert Interrupt(d, true, true, now).attempts ==
           map a | a in d.attempts :: if a == d.attemptCount then d.attempts[a].(status := Interrupted, error := AttemptInterrupted) else d.attempts[a];
    assert d.rounds[Latest(d.rounds)].started <= 8;
  }

  lemma OnlyLastIsOpen(d: Delivery)
    requires Sound(d) && d.status == Running
    ensures forall a | a in d.attempts :: d.attempts[a].status == InProgress <==> a == d.attemptCount
    ensures forall r | r in d.rounds :: d.rounds[r].started <= 8
  {
    forall a | a in d.attempts { OpenAttempt(d, a); }
  }
}
