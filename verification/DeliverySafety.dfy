/**
 Every step keeps the joint invariant, so every reachable state satisfies it; and no delivery
 changes its status more than 71 times over any run.
 */
module DeliverySafety {
  import opened Prelude
  import opened Deliveries
  import opened DeliveryStore
  import opened DeliveryProofs

  /* ----- creating ----- */

  lemma CreateKeeps(s: State, intent: Intent, now: int)
    requires Inv(s)
    ensures StepOk(s, Create(s, intent, now).0)
  {
    hide Sound, Evolves;
    var t := Create(s, intent, now).0;
    if t == s {
      RowsUntouched(s, s);
    } else {
      var kept := Pruned(s.deliveries);
      var w := s.webhooks[intent.webhook];
      var accepted := Fits(s, intent.payload) && |kept| < MAX_RETAINED;
      var d := NewDelivery(intent.source, intent.sourceId, intent.webhook, intent.slot, intent.payload, accepted, FirstRound(w), now);
      NewIsOk(d, FirstRound(w), intent.source, intent.sourceId, intent.webhook, intent.slot, intent.payload, accepted, now);
      PruningMakesRoom(s);
      PrunedKeeps(s.deliveries);
      InsertKeeps(s, t, kept, d);
    }
  }

  lemma InsertKeeps(s: State, t: State, kept: map<nat, Delivery>, d: Delivery)
    requires Inv(s) && kept == Pruned(s.deliveries) && OldestLeft(s.deliveries, kept) && |kept| < MAX_RETAINED
    requires t == s.(deliveries := kept[s.nextOrdinal := d], nextOrdinal := s.nextOrdinal + 1)
    requires Sound(d) && d.webhook in s.webhooks && Budget(d) <= 71 && d.status != Running
    requires IsActive(d) ==> Fits(s, d.payload)
    requires !IsActive(d) ==> d.payload == ""
    ensures StepOk(s, t)
  {
    hide Sound, Evolves, Pruned, Holds, RowOk;
    InsertedTotals(s, kept, d);
    InsertedRows(s, t, kept, d);
    InsertedClaims(s, t, kept, d);
  }

  lemma InsertedTotals(s: State, kept: map<nat, Delivery>, d: Delivery)
    requires TablesOk(s) && kept == Pruned(s.deliveries)
    ensures Total(kept[s.nextOrdinal := d], s.nextOrdinal + 1, ActiveWeight) == ActiveCount(s) + ActiveWeight(d)
    ensures Total(kept[s.nextOrdinal := d], s.nextOrdinal + 1, PayloadWeight) <= RetainedBytes(s) + |d.payload|
  {
    hide Sound, Evolves;
    forall o | o in s.deliveries ensures o < s.nextOrdinal { assert RowOk(s, o); }
    PrunedKeeps(s.deliveries);
    PrunedTotals(s.deliveries, s.nextOrdinal);
    TotalOfOthers(kept, s.nextOrdinal, d, s.nextOrdinal + 1, ActiveWeight);
    TotalOfOthers(kept, s.nextOrdinal, d, s.nextOrdinal + 1, PayloadWeight);
    TotalOfOthers(kept, s.nextOrdinal, d, s.nextOrdinal, ActiveWeight);
    TotalOfOthers(kept, s.nextOrdinal, d, s.nextOrdinal, PayloadWeight);
    assert s.nextOrdinal !in kept;
  }

  ghost predicate RowsInserted(s: State, t: State) {
    var inserted :=
      && (forall o | o in t.deliveries :: RowOk(t, o))
      && (forall o | o in s.deliveries && o in t.deliveries :: Evolves(s.deliveries[o], t.deliveries[o]))
      && s.nextOrdinal !in s.deliveries;
    inserted
  }

  lemma InsertedRows(s: State, t: State, kept: map<nat, Delivery>, d: Delivery)
    requires TablesOk(s) && kept.Keys <= s.deliveries.Keys && forall o | o in kept :: kept[o] == s.deliveries[o]
    requires t.deliveries == kept[s.nextOrdinal := d] && t.nextOrdinal == s.nextOrdinal + 1 && t.webhooks == s.webhooks
    requires Sound(d) && d.webhook in s.webhooks
    ensures RowsInserted(s, t) && |t.deliveries| == |kept| + 1
  {
    hide Sound, Evolves, ActiveCount, RetainedBytes;
    forall o | o in s.deliveries
      ensures o < s.nextOrdinal && Evolves(s.deliveries[o], s.deliveries[o])
    {
      assert RowOk(s, o);
      EvolvesSelf(s.deliveries[o]);
    }
    forall o | o in t.deliveries
      ensures RowOk(t, o)
    {
      if o != s.nextOrdinal { assert RowOk(s, o); }
    }
    OneMore(kept, s.nextOrdinal, d);
  }

  lemma OneMore(m: map<nat, Delivery>, k: nat, d: Delivery)
    requires k !in m
    ensures |m[k := d]| == |m| + 1
  {
    assert m[k := d].Keys == m.Keys + {k};
    assert |m[k := d]| == |m[k := d].Keys| && |m| == |m.Keys|;
  }

  lemma InsertedClaims(s: State, t: State, kept: map<nat, Delivery>, d: Delivery)
    requires ClaimsOk(s) && OldestLeft(s.deliveries, kept) && s.nextOrdinal !in s.deliveries && d.status != Running
    requires t.deliveries == kept[s.nextOrdinal := d] && t.claims == s.claims && t.open == s.open
    ensures ClaimsOk(t)
  {
    hide Holds;
    ClaimsUnmoved(s, t);
  }

  /* ----- steps on one row ----- */

  // One row changes: what is left to show about the tables is the limit on active rows.
  lemma RowReplaced(s: State, t: State, o: nat, e: Delivery)
    requires Inv(s) && o in s.deliveries && t.deliveries == s.deliveries[o := e]
    requires t.nextOrdinal == s.nextOrdinal && t.webhooks == s.webhooks
    requires Sound(e) && Evolves(s.deliveries[o], e)
    requires ActiveCount(s) + ActiveWeight(e) - ActiveWeight(s.deliveries[o]) <= MAX_ACTIVE
    ensures TablesOk(t)
    ensures forall p | p in s.deliveries :: Evolves(s.deliveries[p], t.deliveries[p])
  {
    hide Sound, Evolves;
    assert RowOk(s, o);
    EvolvesKeepsIntent(s.deliveries[o], e);
    TotalOfOthers(s.deliveries, o, e, s.nextOrdinal, ActiveWeight);
    TotalOfOthers(s.deliveries, o, e, s.nextOrdinal, PayloadWeight);
    assert t.deliveries.Keys == s.deliveries.Keys;
    assert |t.deliveries| == |t.deliveries.Keys|;
    forall p | p in s.deliveries
      ensures RowOk(t, p) && Evolves(s.deliveries[p], t.deliveries[p])
    {
      assert RowOk(s, p);
      EvolvesSelf(s.deliveries[p]);
    }
  }

  lemma EvolvesKeepsIntent(d: Delivery, e: Delivery)
    requires Evolves(d, e)
    ensures (e.source, e.sourceId, e.webhook, e.slot, e.payload) == (d.source, d.sourceId, d.webhook, d.slot, d.payload)
  {
  }

  // A due delivery is never exhausted and never without payload.
  lemma ObstacleIsRevocation(s: State, now: int, o: nat)
    requires Inv(s) && IsDue(s, now, o)
    ensures ClaimObstacle(s, s.deliveries[o]).Some? ==> ClaimObstacle(s, s.deliveries[o]).value.0 == Cancelled
    ensures ClaimObstacle(s, s.deliveries[o]).None? <==> HasSecret(s.secrets, s.deliveries[o]) && HasWebhook(s.webhooks, s.deliveries[o])
  {
    assert RowOk(s, o);
    PendingHasRoom(s.deliveries[o]);
  }

  lemma ClaimKeeps(s: State, worker: nat, o: nat, now: int)
    requires Inv(s) && s.open && worker < WORKERS && worker !in s.claims && IsDue(s, now, o)
    ensures StepOk(s, ClaimRow(s, worker, o, now))
  {
    hide Sound, Evolves;
    assert RowOk(s, o);
    var d := s.deliveries[o];
    var t := ClaimRow(s, worker, o, now);
    ObstacleIsRevocation(s, now, o);
    match ClaimObstacle(s, d)
    case Some((status, error)) =>
      EndKeeps(d, status, error, now);
      RowReplaced(s, t, o, End(d, status, error, now));
      ClaimsUnmoved(s, t);
    case None =>
      StartKeeps(d);
      StartIsHeld(d, o);
      RowReplaced(s, t, o, StartAttempt(d));
      ClaimTaken(s, t, worker, o);
  }

  lemma ClaimTaken(s: State, t: State, worker: nat, o: nat)
    requires ClaimsOk(s) && worker < WORKERS && worker !in s.claims
    requires o in s.deliveries && s.deliveries[o].status != Running && Latest(s.deliveries[o].rounds) in s.deliveries[o].rounds
    requires Holds(StartAttempt(s.deliveries[o]), ClaimOf(o, s.deliveries[o]))
    requires t == s.(deliveries := s.deliveries[o := StartAttempt(s.deliveries[o])], claims := s.claims[worker := ClaimOf(o, s.deliveries[o])])
    ensures ClaimsOk(t)
  {
    hide Sound, Evolves;
    forall w | w in t.claims
      ensures HoldsRow(t, w)
    {
      if w != worker { assert HoldsRow(s, w); }
    }
    forall w, p
      ensures HeldBy(t, w, p) <==> if w == worker then p == o else HeldBy(s, w, p)
    {
    }
    forall w | w in s.claims ensures s.claims[w].ordinal != o { assert HoldsRow(s, w); }
    forall p | t.open && p in t.deliveries && t.deliveries[p].status == Running
      ensures exists w :: HeldBy(t, w, p)
    {
      if p == o {
        assert HeldBy(t, worker, p);
      } else {
        var w :| HeldBy(s, w, p);
        assert HeldBy(t, w, p);
      }
    }
  }

  // A worker's finish closes its own attempt, and only that one.
  lemma FinishStepKeeps(s: State, worker: nat, outcome: Outcome, now: int)
    requires Inv(s)
    ensures StepOk(s, Finish(s, worker, outcome, now))
  {
    hide Sound, Evolves;
    var t := Finish(s, worker, outcome, now);
    if worker !in s.claims {
      RowsUntouched(s, t);
    } else {
      assert HoldsRow(s, worker);
      var c := s.claims[worker];
      assert RowOk(s, c.ordinal);
      FinishKeeps(s.deliveries[c.ordinal], c, outcome, now);
      FinishClosesItsAttempt(s.deliveries[c.ordinal], c, outcome, now);
      RowReplaced(s, t, c.ordinal, FinishAttempt(s.deliveries[c.ordinal], c, outcome, now));
      ClaimDropped(s, t, worker);
    }
  }

  // A claim is dropped: its delivery has stopped running, or the service is stopping.
  lemma ClaimDropped(s: State, t: State, worker: nat)
    requires ClaimsOk(s) && worker in s.claims && t.claims == s.claims - {worker} && t.open == s.open
    requires t.deliveries.Keys == s.deliveries.Keys
    requires forall o | o in s.deliveries && o != s.claims[worker].ordinal :: t.deliveries[o] == s.deliveries[o]
    requires t.open ==> s.claims[worker].ordinal in t.deliveries && t.deliveries[s.claims[worker].ordinal].status != Running
    ensures ClaimsOk(t)
  {
    hide Sound, Evolves;
    var o := s.claims[worker].ordinal;
    assert HeldBy(s, worker, o);
    forall w, p
      ensures HeldBy(t, w, p) <==> w != worker && HeldBy(s, w, p)
    {
    }
    forall w | w in t.claims
      ensures HoldsRow(t, w)
    {
      assert HoldsRow(s, w) && HeldBy(s, w, s.claims[w].ordinal);
    }
    forall p | t.open && p in t.deliveries && t.deliveries[p].status == Running
      ensures exists w :: HeldBy(t, w, p)
    {
      assert p != o && p in s.deliveries && s.deliveries[p].status == Running;
      var w :| HeldBy(s, w, p);
      assert HeldBy(t, w, p);
    }
  }

  // The fourth-round guard of a redrive never decides: the limits before it already imply it.
  lemma RoundGuardNeverFires(s: State, o: nat)
    requires Inv(s) && o in s.deliveries
    requires s.deliveries[o].status == Failed && s.deliveries[o].payload != ""
    requires s.deliveries[o].attemptCount < MAX_ATTEMPTS && s.deliveries[o].redrives < MAX_REDRIVES
    ensures Latest(s.deliveries[o].rounds) + 1 <= MAX_ROUNDS
  {
    assert RowOk(s, o);
    RedriveKeeps(s.deliveries[o], FirstRound(Webhook("", "", true, 1)), 0);
  }

  lemma RetryKeeps(s: State, o: nat, now: int)
    requires Inv(s)
    ensures StepOk(s, Retry(s, o, now))
  {
    hide Sound, Evolves;
    var t := Retry(s, o, now);
    if RetryProblem(s, o).Some? {
      RowsUntouched(s, t);
    } else {
      assert RowOk(s, o);
      var d := s.deliveries[o];
      var next := FirstRound(s.webhooks[d.webhook]);
      RedriveKeeps(d, next, now);
      RowReplaced(s, t, o, Redrive(d, next, now));
      ClaimsUnmoved(s, t);
    }
  }

  /* ----- revocation ----- */

  predicate Pins(d: Delivery, secret: string) {
    Latest(d.rounds) in d.rounds && d.rounds[Latest(d.rounds)].secret == secret
  }

  predicate SignsWith(s: State, d: Delivery, secret: string) {
    d.webhook in s.webhooks && s.webhooks[d.webhook].secret == secret
  }

  // The secret it pins exists, and its webhook is enabled unless it is a test.
  ghost predicate Authorised(s: State, d: Delivery) {
    HasSecret(s.secrets, d) && HasWebhook(s.webhooks, d)
  }

  // What deleting a secret does to one pending delivery: it ends exactly when its webhook signs with the secret now,
  // whatever it pins. One that pins the secret and is missed is cancelled when it is claimed. One that ends although
  // it pins another secret was still authorised exactly when it is a test and that secret exists.
  lemma RevocationOfOne(s: State, secret: string, now: int, o: nat)
    requires Inv(s) && secret in s.secrets && o in s.deliveries && s.deliveries[o].status == Pending
    ensures var t := DeleteSecret(s, secret, now);
            var d := s.deliveries[o];
            && o in t.deliveries && d.webhook in s.webhooks
            && t.deliveries[o] == (if SignsWith(s, d, secret) then End(d, Cancelled, SecretRevoked, now) else d)
            && (Pins(d, secret) && !SignsWith(s, d, secret) ==>
                  forall later | IsDue(t, later, o) :: ClaimObstacle(t, t.deliveries[o]) == Some((Cancelled, SecretRevoked)))
            && (SignsWith(s, d, secret) ==> (Authorised(t, d) <==> !Pins(d, secret) && d.source == Test && HasSecret(s.secrets, d)))
  {
    assert RowOk(s, o);
    LatestIsLast(s.deliveries[o]);
  }

  // Deleting a secret cancels exactly what pins it if and only if every pending delivery pins the secret exactly when
  // its webhook signs with it now.
  lemma RevocationIsExact(s: State, secret: string, now: int)
    requires Inv(s) && secret in s.secrets
    ensures var t := DeleteSecret(s, secret, now);
            && t.deliveries.Keys == s.deliveries.Keys
            && ((forall o | o in s.deliveries && s.deliveries[o].status == Pending ::
                   t.deliveries[o].status == Cancelled <==> Pins(s.deliveries[o], secret))
                <==> (forall o | o in s.deliveries && s.deliveries[o].status == Pending ::
                        Pins(s.deliveries[o], secret) <==> SignsWith(s, s.deliveries[o], secret)))
  {
    hide Inv, DeleteSecret, Pins;
    var t := DeleteSecret(s, secret, now);
    assert t.deliveries.Keys == s.deliveries.Keys by { RevocationKeepsRows(s, secret, now); }
    forall o | o in s.deliveries && s.deliveries[o].status == Pending
      ensures t.deliveries[o].status == Cancelled <==> SignsWith(s, s.deliveries[o], secret)
    {
      RevocationOfOne(s, secret, now, o);
    }
  }

  lemma RevocationKeepsRows(s: State, secret: string, now: int)
    ensures DeleteSecret(s, secret, now).deliveries.Keys == s.deliveries.Keys
  {
  }

  // A test delivery is created while its webhook signs with "a"; then the webhook moves to "b".
  const MOVED_WEBHOOK: seq<Event> :=
    [RecoverEvent(0), CreateSecretEvent("a"), CreateSecretEvent("b"), CreateWebhookEvent("h", "t", "a"), EnableWebhookEvent("h"),
     CreateEvent(Intent(Test, "x", "h", None, "p", true), 0), ReplaceWebhookEvent("h", "t", "b")]

  const MOVED_TEST := NewDelivery(Test, "x", "h", None, "p", true, Round(1, "t", "a", 0), 0)

  const AFTER_THE_MOVE := State(map[1 := MOVED_TEST], 2, map["h" := Webhook("t", "b", true, 2)], {"a", "b"}, map[], true)

  const BEFORE_THE_MOVE := State(map[], 1, map["h" := Webhook("t", "a", true, 1)], {"a", "b"}, map[], true)

  lemma MovedWebhookRun()
    ensures Run(EMPTY, MOVED_WEBHOOK) == AFTER_THE_MOVE
  {
    hide Run, Step;
    var open := EMPTY.(open := true);
    StartsEmpty(0);
    WebhookIsSetUp(open);
    MovedTestIsCreated(BEFORE_THE_MOVE);
    WebhookMoves(BEFORE_THE_MOVE.(deliveries := map[1 := MOVED_TEST], nextOrdinal := 2));
    assert MOVED_WEBHOOK[0..] == MOVED_WEBHOOK;
    RunFrom(EMPTY, MOVED_WEBHOOK, 0);
    RunFrom(open, MOVED_WEBHOOK, 1);
    RunFrom(open.(secrets := {"a"}), MOVED_WEBHOOK, 2);
    RunFrom(open.(secrets := {"a", "b"}), MOVED_WEBHOOK, 3);
    RunFrom(open.(secrets := {"a", "b"}, webhooks := map["h" := Webhook("t", "a", false, 1)]), MOVED_WEBHOOK, 4);
    RunFrom(BEFORE_THE_MOVE, MOVED_WEBHOOK, 5);
    RunFrom(BEFORE_THE_MOVE.(deliveries := map[1 := MOVED_TEST], nextOrdinal := 2), MOVED_WEBHOOK, 6);
    RunEnds(AFTER_THE_MOVE, MOVED_WEBHOOK[7..]);
  }

  lemma RunFrom(s: State, events: seq<Event>, i: nat)
    requires i < |events|
    ensures Run(s, events[i..]) == Run(Step(s, events[i]), events[i + 1..])
  {
    assert events[i..][1..] == events[i + 1..];
  }

  lemma RunEnds(s: State, events: seq<Event>)
    requires |events| == 0
    ensures Run(s, events) == s
  {
  }

  lemma StartsEmpty(now: int)
    ensures Step(EMPTY, RecoverEvent(now)) == EMPTY.(open := true)
  {
    assert Recovered(EMPTY, now) == map[];
  }

  lemma WebhookIsSetUp(s: State)
    requires s == EMPTY.(open := true)
    ensures Step(s, CreateSecretEvent("a")) == s.(secrets := {"a"})
    ensures Step(s.(secrets := {"a"}), CreateSecretEvent("b")) == s.(secrets := {"a", "b"})
    ensures Step(s.(secrets := {"a", "b"}), CreateWebhookEvent("h", "t", "a"))
            == s.(secrets := {"a", "b"}, webhooks := map["h" := Webhook("t", "a", false, 1)])
    ensures Step(s.(secrets := {"a", "b"}, webhooks := map["h" := Webhook("t", "a", false, 1)]), EnableWebhookEvent("h"))
            == BEFORE_THE_MOVE
  {
  }

  lemma WebhookMoves(s: State)
    requires s.webhooks == map["h" := Webhook("t", "a", true, 1)] && "b" in s.secrets
    ensures Step(s, ReplaceWebhookEvent("h", "t", "b")) == s.(webhooks := map["h" := Webhook("t", "b", true, 2)])
  {
  }

  lemma MovedTestIsCreated(s: State)
    requires s == BEFORE_THE_MOVE
    ensures Step(s, CreateEvent(Intent(Test, "x", "h", None, "p", true), 0)) == s.(deliveries := map[1 := MOVED_TEST], nextOrdinal := 2)
  {
    assert ActiveCount(s) == 0 && RetainedBytes(s) == 0;
  }

  // Deleting "a" leaves the test waiting although it pins "a".
  lemma RevocationMissesAMovedWebhook()
    ensures var s := Run(EMPTY, MOVED_WEBHOOK);
            && 1 in s.deliveries && s.deliveries[1].status == Pending && Pins(s.deliveries[1], "a")
            && DeleteSecret(s, "a", 1).deliveries == s.deliveries
  {
    MovedWebhookRun();
    var t := DeleteSecret(AFTER_THE_MOVE, "a", 1);
    assert t.deliveries[1] == MOVED_TEST;
  }

  // Deleting "b" ends the test although "a", which it pins, exists and it needs no enabled webhook.
  lemma RevocationEndsAnAuthorisedTest()
    ensures var s := Run(EMPTY, MOVED_WEBHOOK);
            var t := DeleteSecret(s, "b", 1);
            && 1 in s.deliveries && s.deliveries[1].status == Pending && !Pins(s.deliveries[1], "b")
            && Authorised(t, s.deliveries[1])
            && 1 in t.deliveries && t.deliveries[1].status == Cancelled && t.deliveries[1].error == SecretRevoked
  {
    MovedWebhookRun();
    var t := DeleteSecret(AFTER_THE_MOVE, "b", 1);
    assert "h" in SignedWith(AFTER_THE_MOVE, "b") && 1 in OfWebhooks(AFTER_THE_MOVE, SignedWith(AFTER_THE_MOVE, "b"));
  }

  /* ----- recovery ----- */

  // Every interrupted delivery with budget and authority waits again, every other one is terminal, and what waited
  // without authority is cancelled.
  ghost predicate RecoversTo(s: State, d: Delivery, e: Delivery) {
    var recovers :=
      && Sound(e) && Evolves(d, e) && e.status != Running
      && (IsActive(e) ==> IsActive(d))
      && (e.status == Pending <==> IsActive(d) && Authorised(s, d) && (d.status == Running ==> RoundAttempts(d) < MAX_ROUND_ATTEMPTS))
      && (Authorised(s, e) <==> Authorised(s, d));
    recovers
  }

  // The recovery of one row: what the three updates make of it.
  function RecoverRow(s: State, d: Delivery, now: int): Delivery {
    var e := if IsInterrupted(s.webhooks, d) then Interrupt(d, HasSecret(s.secrets, d), HasWebhook(s.webhooks, d), now) else d;
    var f := CancelIf(e, !HasSecret(s.secrets, e), SecretRevoked, now);
    CancelIf(f, !HasWebhook(s.webhooks, f), WebhookDisabled, now)
  }

  lemma RecoveredByRow(s: State, now: int, o: nat)
    requires o in s.deliveries
    ensures o in Recovered(s, now) && Recovered(s, now)[o] == RecoverRow(s, s.deliveries[o], now)
  {
  }

  lemma RunningRowRecovers(s: State, d: Delivery, now: int)
    requires Sound(d) && d.webhook in s.webhooks && d.status == Running
    ensures RecoversTo(s, d, RecoverRow(s, d, now))
  {
    LatestIsLast(d);
    var e := Interrupt(d, HasSecret(s.secrets, d), HasWebhook(s.webhooks, d), now);
    InterruptKeeps(d, HasSecret(s.secrets, d), HasWebhook(s.webhooks, d), now);
    assert e.rounds == d.rounds;
    assert e == RecoverRow(s, d, now);
  }

  lemma RestingRowRecovers(s: State, d: Delivery, now: int)
    requires Sound(d) && d.status != Running
    ensures RecoversTo(s, d, RecoverRow(s, d, now))
  {
    LatestIsLast(d);
    EvolvesSelf(d);
    if d.status == Pending {
      EndKeeps(d, Cancelled, SecretRevoked, now);
      EndKeeps(d, Cancelled, WebhookDisabled, now);
    }
  }

  lemma RecoveredRow(s: State, now: int, o: nat)
    requires TablesOk(s) && o in s.deliveries
    ensures o in Recovered(s, now) && RecoversTo(s, s.deliveries[o], Recovered(s, now)[o])
  {
    hide Sound, Evolves, RecoversTo;
    assert RowOk(s, o);
    RecoveredByRow(s, now, o);
    if s.deliveries[o].status == Running { RunningRowRecovers(s, s.deliveries[o], now); } else { RestingRowRecovers(s, s.deliveries[o], now); }
  }

  lemma RecoverKeeps(s: State, now: int)
    requires Inv(s)
    ensures StepOk(s, Recover(s, now))
  {
    hide Sound, Evolves, RowOk, Recovered;
    var t := Recover(s, now);
    RecoveredKeys(s, now);
    if s.open || s.claims != map[] {
      RowsUntouched(s, s);
    } else {
      forall o | o in s.deliveries
        ensures RecoversTo(s, s.deliveries[o], t.deliveries[o])
      {
        RecoveredRow(s, now, o);
      }
      RowsKeepTables(s, t);
    }
  }

  lemma RecoveredKeys(s: State, now: int)
    ensures Recovered(s, now).Keys == s.deliveries.Keys
  {
  }

  // Recovery after a crash at any point: nothing runs, nothing waits without its secret and an enabled webhook,
  // and recovering again would change nothing.
  lemma RecoveryRestores(s: State, now: int, later: int)
    requires Inv(s)
    ensures var t := Recover(Crash(s), now);
            && Inv(t) && t.open
            && (forall o | o in t.deliveries :: t.deliveries[o].status != Running)
            && (forall o | o in t.deliveries && t.deliveries[o].status == Pending :: Authorised(t, t.deliveries[o]))
            && Recover(Crash(t), later) == t
  {
    hide Sound, Evolves, RowOk, Recovered, TablesOk, ClaimsOk;
    var c := Crash(s);
    CrashKeeps(s);
    RecoverKeeps(c, now);
    var t := Recover(c, now);
    RecoveredKeys(c, now);
    forall o | o in t.deliveries
      ensures t.deliveries[o].status != Running
      ensures t.deliveries[o].status == Pending ==> Authorised(t, t.deliveries[o])
    {
      RecoveredRow(c, now, o);
    }
    SettledStays(Crash(t), later);
  }

  // Where nothing runs and everything that waits is authorised, recovery has nothing to do.
  lemma SettledStays(s: State, now: int)
    requires forall o | o in s.deliveries :: s.deliveries[o].status != Running
    requires forall o | o in s.deliveries && s.deliveries[o].status == Pending :: Authorised(s, s.deliveries[o])
    ensures Recovered(s, now) == s.deliveries
  {
    hide Recovered;
    RecoveredKeys(s, now);
    forall o | o in s.deliveries
      ensures Recovered(s, now)[o] == s.deliveries[o]
    {
      RecoveredByRow(s, now, o);
    }
  }

  lemma CrashKeeps(s: State)
    requires Inv(s)
    ensures StepOk(s, Crash(s))
  {
    hide Sound, Evolves;
    var t := Crash(s);
    RowsUntouched(s, s);
    forall o | o in t.deliveries ensures RowOk(t, o) { assert RowOk(s, o); }
  }

  lemma AbandonKeeps(s: State, worker: nat)
    requires Inv(s)
    ensures StepOk(s, Abandon(s, worker))
  {
    hide Sound, Evolves;
    var t := Abandon(s, worker);
    RowsUntouched(s, s);
    forall o | o in t.deliveries ensures RowOk(t, o) { assert RowOk(s, o); }
    hide RowOk;
    if worker in s.claims && !s.open { ClaimDropped(s, t, worker); } else { assert t.claims == s.claims; }
  }

  /* ----- every step, every run ----- */

  lemma ConfigurationKeeps(s: State, e: Event)
    requires Inv(s)
    requires e.CreateWebhookEvent? || e.ReplaceWebhookEvent? || e.EnableWebhookEvent? || e.CreateSecretEvent? || e.StopEvent?
    ensures StepOk(s, Step(s, e))
  {
    hide StepOk, Inv;
    RowsUntouched(s, Step(s, e));
  }

  lemma CancellationKeeps(s: State, e: Event)
    requires Inv(s) && (e.DisableWebhookEvent? || e.DeleteSecretEvent?)
    ensures StepOk(s, Step(s, e))
  {
    hide StepOk, Inv;
    var t := Step(s, e);
    match e
    case DisableWebhookEvent(id, now) =>
      if id in s.webhooks { CancelledRows(s, t, UntestedOf(s, id), WebhookDisabled, now); } else { RowsUntouched(s, t); }
    case DeleteSecretEvent(secret, now) =>
      if secret in s.secrets {
        CancelledRows(s, t, OfWebhooks(s, SignedWith(s, secret)), SecretRevoked, now);
      } else {
        RowsUntouched(s, t);
      }
  }

  lemma ClaimNextKeeps(s: State, worker: nat, now: int)
    requires Inv(s)
    ensures StepOk(s, ClaimNext(s, worker, now))
  {
    hide StepOk, Inv, ClaimRow;
    if s.open && worker < WORKERS && worker !in s.claims && exists o :: IsFirstDue(s, now, o) {
      var o :| IsFirstDue(s, now, o) && ClaimNext(s, worker, now) == ClaimRow(s, worker, o, now);
      ClaimKeeps(s, worker, o, now);
    } else {
      RowsUntouched(s, s);
    }
  }

  lemma StepKeeps(s: State, e: Event)
    requires Inv(s)
    ensures StepOk(s, Step(s, e))
  {
    hide StepOk, Inv;
    match e
    case CreateEvent(intent, now) => CreateKeeps(s, intent, now);
    case ClaimEvent(worker, now) => ClaimNextKeeps(s, worker, now);
    case FinishEvent(worker, outcome, now) => FinishStepKeeps(s, worker, outcome, now);
    case RetryEvent(ordinal, now) => RetryKeeps(s, ordinal, now);
    case DisableWebhookEvent(_, _) => CancellationKeeps(s, e);
    case DeleteSecretEvent(_, _) => CancellationKeeps(s, e);
    case AbandonEvent(worker) => AbandonKeeps(s, worker);
    case CrashEvent => CrashKeeps(s);
    case RecoverEvent(now) => RecoverKeeps(s, now);
    case _ => ConfigurationKeeps(s, e);
  }

  lemma EmptyIsSound()
    ensures Inv(EMPTY)
  {
  }

  // The joint invariant holds in every state any run from the empty store reaches.
  lemma {:induction false} RunKeeps(s: State, events: seq<Event>)
    requires Inv(s)
    ensures Inv(Run(s, events))
    decreases |events|
  {
    if events != [] {
      StepKeeps(s, events[0]);
      RunKeeps(Step(s, events[0]), events[1..]);
    }
  }

  lemma EveryReachableStateIsSound(events: seq<Event>)
    ensures Inv(Run(EMPTY, events))
  {
    EmptyIsSound();
    RunKeeps(EMPTY, events);
  }

  // How many steps of the run change the status of delivery o.
  ghost function StatusChanges(s: State, events: seq<Event>, o: nat): nat
    decreases |events|
  {
    if events == [] then 0
    else
      var t := Step(s, events[0]);
      (if o in s.deliveries && o in t.deliveries && t.deliveries[o].status != s.deliveries[o].status then 1 else 0)
      + StatusChanges(t, events[1..], o)
  }

  lemma BudgetIsNatural(d: Delivery)
    requires Sound(d)
    ensures 0 <= Budget(d)
  {
    LatestIsLast(d);
  }

  // Once a delivery has left the table, or has not entered it yet, its ordinal decides what may still happen.
  lemma {:induction false} ChangesWithinBudget(s: State, events: seq<Event>, o: nat)
    requires Inv(s)
    ensures StatusChanges(s, events, o) <= if o in s.deliveries then Budget(s.deliveries[o]) else if o < s.nextOrdinal then 0 else 71
    decreases |events|
  {
    if o in s.deliveries {
      assert RowOk(s, o);
      BudgetIsNatural(s.deliveries[o]);
    }
    if events != [] {
      StepKeeps(s, events[0]);
      ChangesWithinBudget(Step(s, events[0]), events[1..], o);
    }
  }

  // No delivery ever changes its status more than 71 times.
  lemma AtMost71StatusChanges(events: seq<Event>, o: nat)
    ensures StatusChanges(EMPTY, events, o) <= 71
  {
    EmptyIsSound();
    ChangesWithinBudget(EMPTY, events, o);
  }

  // Over any run a delivery that stays in the table keeps its intent and its closed attempts,
  // and a succeeded or cancelled one keeps its status.
  lemma {:induction false} RunEvolves(s: State, events: seq<Event>, o: nat)
    requires Inv(s) && o in s.deliveries && o in Run(s, events).deliveries
    ensures Evolves(s.deliveries[o], Run(s, events).deliveries[o])
    decreases |events|
  {
    EvolvesSelf(s.deliveries[o]);
    if events != [] {
      var t := Step(s, events[0]);
      StepKeeps(s, events[0]);
      if o !in t.deliveries {
        assert RowOk(s, o);
        GoneForGood(t, events[1..], o);
      } else {
        RunEvolves(t, events[1..], o);
        EvolvesThrough(s.deliveries[o], t.deliveries[o], Run(t, events[1..]).deliveries[o]);
      }
    }
  }

  lemma EvolvesThrough(d: Delivery, e: Delivery, f: Delivery)
    requires Evolves(d, e) && Evolves(e, f)
    ensures Evolves(d, f)
  {
    forall r | r in d.rounds
      ensures r in f.rounds && f.rounds[r].(started := d.rounds[r].started) == d.rounds[r]
    {
      assert r in e.rounds && e.rounds[r].(started := d.rounds[r].started) == d.rounds[r];
      assert r in f.rounds && f.rounds[r].(started := e.rounds[r].started) == e.rounds[r];
    }
    forall a | a in d.attempts
      ensures a in f.attempts && (d.attempts[a].status != InProgress ==> f.attempts[a] == d.attempts[a])
    {
      assert a in e.attempts;
    }
  }

  lemma {:induction false} GoneForGood(s: State, events: seq<Event>, o: nat)
    requires Inv(s) && o !in s.deliveries && o < s.nextOrdinal
    ensures o !in Run(s, events).deliveries
    decreases |events|
  {
    if events != [] {
      StepKeeps(s, events[0]);
      GoneForGood(Step(s, events[0]), events[1..], o);
    }
  }

  /* ----- the joint invariant, read off ----- */

  function ActiveRows(m: map<nat, Delivery>): set<nat> {
    set o | o in m && IsActive(m[o])
  }

  lemma {:induction false} ActiveAreKeys(m: map<nat, Delivery>, upTo: nat)
    ensures Total(m, upTo, ActiveWeight) == KeysBelow(ActiveRows(m), upTo)
  {
    if upTo > 0 { ActiveAreKeys(m, upTo - 1); }
  }

  // The limits of the queue, in every reachable state.
  lemma LimitsAlwaysHold(events: seq<Event>)
    ensures var s := Run(EMPTY, events);
            && |ActiveRows(s.deliveries)| <= MAX_ACTIVE
            && |s.deliveries| <= MAX_RETAINED
            && RetainedBytes(s) <= MAX_RETAINED_BYTES
  {
    hide Sound, Evolves;
    EveryReachableStateIsSound(events);
    var s := Run(EMPTY, events);
    forall o | o in s.deliveries ensures o < s.nextOrdinal { assert RowOk(s, o); }
    ActiveAreKeys(s.deliveries, s.nextOrdinal);
    KeysAreCounted(ActiveRows(s.deliveries), s.nextOrdinal);
  }

  // In every reachable state a delivery runs exactly when it has an open attempt, and then that attempt is its last,
  // in its latest round, and at most one worker holds it: exactly one while the service is open.
  lemma RunningMeansOneHeldAttempt(events: seq<Event>, o: nat)
    requires o in Run(EMPTY, events).deliveries
    ensures var s := Run(EMPTY, events);
            var d := s.deliveries[o];
            && (d.status == Running <==> exists a :: a in d.attempts && d.attempts[a].status == InProgress)
            && (forall a | a in d.attempts && d.attempts[a].status == InProgress :: a == d.attemptCount && d.attempts[a].round == 1 + d.redrives)
            && (forall v, w | HeldBy(s, v, o) && HeldBy(s, w, o) :: v == w)
            && (forall w | HeldBy(s, w, o) :: d.status == Running && s.claims[w].attempt == d.attemptCount)
            && (s.open && d.status == Running ==> exists w :: HeldBy(s, w, o))
  {
    EveryReachableStateIsSound(events);
    var s := Run(EMPTY, events);
    assert RowOk(s, o);
    forall w | HeldBy(s, w, o)
      ensures s.deliveries[o].status == Running && s.claims[w].attempt == s.deliveries[o].attemptCount
    {
      assert HoldsRow(s, w);
    }
    OneOpenAttempt(s.deliveries[o]);
  }

  lemma OneOpenAttempt(d: Delivery)
    requires Sound(d)
    ensures d.status == Running <==> exists a :: a in d.attempts && d.attempts[a].status == InProgress
    ensures forall a | a in d.attempts && d.attempts[a].status == InProgress :: a == d.attemptCount && d.attempts[a].round == 1 + d.redrives
  {
    LatestIsLast(d);
    forall a | a in d.attempts && d.attempts[a].status == InProgress
      ensures d.status == Running && a == d.attemptCount && d.attempts[a].round == 1 + d.redrives
    {
      assert AttemptOk(d, a);
      if d.attempts[a].round < 1 + d.redrives { StartedGrows(d.rounds, d.attempts[a].round, d.redrives); }
    }
    if d.status == Running {
      assert AttemptOk(d, d.attemptCount);
    }
  }
}
