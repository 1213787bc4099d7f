/**
 One delivery: its row, its retry rounds and its attempts, and every change a transaction makes to them.
 A delivery owns its child rows (the schema deletes them with it), so they are maps inside it, keyed as in
 the tables: rounds by round number, attempts by the delivery-wide attempt number.
 */
module Deliveries {
  import opened Prelude

  const MAX_PAYLOAD := 0x10_0000
  const MAX_ATTEMPTS := 32
  const MAX_ROUND_ATTEMPTS := 8
  const MAX_REDRIVES := 3
  const MAX_ROUNDS := 4
  const MINUTES := 60_000_000_000
  const RETRY_DELAYS: seq<int> :=
    [1 * MINUTES, 5 * MINUTES, 15 * MINUTES, 60 * MINUTES, 180 * MINUTES, 360 * MINUTES, 720 * MINUTES]

  datatype Status = Pending | Running | Succeeded | Failed | Cancelled

  datatype AttemptStatus = InProgress | Delivered | RetryScheduled | Rejected | GaveUp | Interrupted | Stopped

  datatype ErrorCode = NoError | CapacityExceeded | SecretRevoked | WebhookDisabled | AttemptInterrupted | Reported(code: string)

  datatype Source = EventHook | Job | Test

  datatype Round = Round(revision: nat, target: string, secret: string, started: nat)

  datatype Attempt = Attempt(round: nat, revision: nat, status: AttemptStatus, error: ErrorCode)

  datatype Delivery = Delivery(source: Source, sourceId: string, webhook: string, slot: Option<int>, payload: string, createdAt: int,
                               status: Status, nextAttemptAt: Option<int>, completedAt: Option<int>, error: ErrorCode,
                               attemptCount: nat, redrives: nat, rounds: map<nat, Round>, attempts: map<nat, Attempt>)

  type Positive = n: int | 1 <= n witness 1

  // What a worker carries from claiming a delivery to finishing the attempt.
  datatype Claim = Claim(ordinal: nat, source: Source, webhook: string, secret: string, payload: string,
                         attempt: Positive, round: nat, roundAttempt: Positive)

  // The results an attempt can have.
  datatype Outcome =
    | Accepted
    | Transient(error: ErrorCode)
    | Permanent(error: ErrorCode)
    | Refused(error: ErrorCode)
    | Blocked(error: ErrorCode)

  // The answer of the target, when there is one.
  function OutcomeOf(httpStatus: int): Outcome {
    if 200 <= httpStatus < 300 then Accepted
    else if httpStatus == 408 || httpStatus == 429 || httpStatus >= 500 then Transient(Reported("externalRequestFailed"))
    else Refused(Reported("deliveryRejected"))
  }

  predicate IsActive(d: Delivery) {
    d.status == Pending || d.status == Running
  }

  predicate ValidPayload(payload: string) {
    0 < |payload| <= MAX_PAYLOAD
  }

  // MAX(round), or 0; the schema keeps round numbers between 1 and 4.
  function Latest(rounds: map<nat, Round>): nat {
    if 4 in rounds then 4 else if 3 in rounds then 3 else if 2 in rounds then 2 else if 1 in rounds then 1 else 0
  }

  /* ----- the changes ----- */

  function NewDelivery(source: Source, sourceId: string, webhook: string, slot: Option<int>, payload: string, accepted: bool,
                       first: Round, now: int): Delivery {
    Delivery(source, sourceId, webhook, slot, if accepted then payload else "", now,
             if accepted then Pending else Failed, if accepted then Some(now) else None, if accepted then None else Some(now),
             if accepted then NoError else CapacityExceeded, 0, 0, map[1 := first], map[])
  }

  // A pending delivery ends without an attempt.
  function End(d: Delivery, status: Status, error: ErrorCode, now: int): Delivery {
    d.(status := status, completedAt := Some(now), nextAttemptAt := None, error := error)
  }

  function ClaimOf(ordinal: nat, d: Delivery): Claim
    requires Latest(d.rounds) in d.rounds
  {
    var round := Latest(d.rounds);
    Claim(ordinal, d.source, d.webhook, d.rounds[round].secret, d.payload, d.attemptCount + 1, round, d.rounds[round].started + 1)
  }

  function StartAttempt(d: Delivery): Delivery
    requires Latest(d.rounds) in d.rounds
  {
    var round := Latest(d.rounds);
    var r := d.rounds[round];
    d.(status := Running, attemptCount := d.attemptCount + 1, nextAttemptAt := None,
       rounds := d.rounds[round := r.(started := r.started + 1)],
       attempts := d.attempts[d.attemptCount + 1 := Attempt(round, r.revision, InProgress, NoError)])
  }

  predicate SchedulesRetry(c: Claim, outcome: Outcome) {
    outcome.Transient? && c.roundAttempt <= |RETRY_DELAYS| && c.attempt < MAX_ATTEMPTS
  }

  function AttemptStatusOf(c: Claim, outcome: Outcome): AttemptStatus {
    match outcome
    case Accepted => Delivered
    case Transient(_) => if SchedulesRetry(c, outcome) then RetryScheduled else GaveUp
    case Permanent(_) => GaveUp
    case Refused(_) => Rejected
    case Blocked(_) => Stopped
  }

  function StatusOf(c: Claim, outcome: Outcome): Status {
    match outcome
    case Accepted => Succeeded
    case Blocked(_) => Cancelled
    case _ => if SchedulesRetry(c, outcome) then Pending else Failed
  }

  function ErrorOf(outcome: Outcome): ErrorCode {
    if outcome.Accepted? then NoError else outcome.error
  }

  // The two guarded updates of finishing an attempt: its row if it is running, its delivery if that is running.
  function FinishAttempt(d: Delivery, c: Claim, outcome: Outcome, now: int): Delivery {
    var retry := SchedulesRetry(c, outcome);
    var closed := if c.attempt in d.attempts && d.attempts[c.attempt].status == InProgress
      then d.attempts[c.attempt := d.attempts[c.attempt].(status := AttemptStatusOf(c, outcome), error := ErrorOf(outcome))]
      else d.attempts;
    if d.status == Running then
      d.(attempts := closed, status := StatusOf(c, outcome), error := ErrorOf(outcome),
         nextAttemptAt := if retry then Some(now + RETRY_DELAYS[c.roundAttempt - 1]) else None,
         completedAt := if retry then None else Some(now))
    else d.(attempts := closed)
  }

  // A manual redrive opens a new round under the webhook's present revision, target and secret.
  function Redrive(d: Delivery, next: Round, now: int): Delivery {
    d.(rounds := d.rounds[Latest(d.rounds) + 1 := next], status := Pending, nextAttemptAt := Some(now), completedAt := None,
       redrives := d.redrives + 1, error := NoError)
  }

  // Startup finds the delivery running although no worker is: its attempt was interrupted.
  function Interrupt(d: Delivery, secretExists: bool, authorised: bool, now: int): Delivery {
    var closed := map a | a in d.attempts ::
      if d.attempts[a].status == InProgress then d.attempts[a].(status := Interrupted, error := AttemptInterrupted) else d.attempts[a];
    var e := d.(attempts := closed);
    if !secretExists then End(e, Cancelled, SecretRevoked, now)
    else if !authorised then End(e, Cancelled, WebhookDisabled, now)
    else if d.attemptCount >= MAX_ATTEMPTS || RoundAttempts(d) >= MAX_ROUND_ATTEMPTS then End(e, Failed, AttemptInterrupted, now)
    else e.(status := Pending, completedAt := None, nextAttemptAt := Some(now), error := AttemptInterrupted)
  }

  function RoundAttempts(d: Delivery): nat {
    if Latest(d.rounds) in d.rounds then d.rounds[Latest(d.rounds)].started else 0
  }

  /* ----- what every change keeps ----- */

  // Attempts started in rounds 1 to upTo.
  function Started(rounds: map<nat, Round>, upTo: nat): nat {
    if upTo == 0 then 0 else Started(rounds, upTo - 1) + (if upTo in rounds then rounds[upTo].started else 0)
  }

  // Attempt a belongs to the round whose share of the numbering contains a, and is open only as the last of a running delivery.
  ghost predicate AttemptOk(d: Delivery, a: nat)
    requires a in d.attempts
  {
    var round := d.attempts[a].round;
    && 1 <= round && round in d.rounds
    && Started(d.rounds, round - 1) < a <= Started(d.rounds, round)
    && d.attempts[a].revision == d.rounds[round].revision
    && (d.attempts[a].status == InProgress <==> d.status == Running && a == d.attemptCount)
  }

  ghost predicate StatusOk(d: Delivery) {
    match d.status
    case Pending => RoundAttempts(d) < MAX_ROUND_ATTEMPTS && ValidPayload(d.payload) && d.nextAttemptAt.Some? && d.completedAt.None?
    case Running => 1 <= RoundAttempts(d) && ValidPayload(d.payload) && d.nextAttemptAt.None? && d.completedAt.None?
    case _ => d.nextAttemptAt.None? && d.completedAt.Some?
  }

  // Rounds are 1 to 1 + redrives, and attempts 1 to attemptCount, which is the sum over the rounds.
  ghost predicate NumberingOk(d: Delivery) {
    && (forall r :: r in d.rounds <==> 1 <= r <= 1 + d.redrives)
    && d.attemptCount == Started(d.rounds, 1 + d.redrives)
    && (forall a :: a in d.attempts <==> 1 <= a <= d.attemptCount)
    && (forall a {:trigger AttemptOk(d, a)} | a in d.attempts :: AttemptOk(d, a))
  }

  // What holds of every delivery at all times. (Bound to a name, so that the verifier carries it as one fact.)
  ghost predicate Sound(d: Delivery) {
    var sound :=
      && d.redrives <= MAX_REDRIVES && |d.payload| <= MAX_PAYLOAD
      && (forall r | r in d.rounds :: d.rounds[r].started <= MAX_ROUND_ATTEMPTS)
      && NumberingOk(d)
      && StatusOk(d);
    sound
  }

  // A budget that no change increases and every change of status spends.
  function Rank(status: Status): nat {
    match status
    case Running => 2
    case Pending => 1
    case _ => 0
  }

  function Budget(d: Delivery): int {
    18 * (MAX_REDRIVES - d.redrives) + 2 * (MAX_ROUND_ATTEMPTS - RoundAttempts(d)) + Rank(d.status)
  }

  // The intent and the pinned configuration never change, rounds and attempts are only added,
  // succeeded and cancelled are final, and a change of status spends budget.
  ghost predicate Evolves(d: Delivery, e: Delivery) {
    var evolves :=
      && (e.source, e.sourceId, e.webhook, e.slot, e.payload, e.createdAt) == (d.source, d.sourceId, d.webhook, d.slot, d.payload, d.createdAt)
      && d.redrives <= e.redrives && d.attemptCount <= e.attemptCount
      && (forall r | r in d.rounds :: r in e.rounds && e.rounds[r].(started := d.rounds[r].started) == d.rounds[r])
      && (forall a | a in d.attempts :: a in e.attempts && (d.attempts[a].status != InProgress ==> e.attempts[a] == d.attempts[a]))
      && (d.status == Succeeded || d.status == Cancelled ==> e.status == d.status)
      && Budget(e) <= Budget(d)
      && (e.status != d.status ==> Budget(e) < Budget(d));
    evolves
  }

  lemma LatestIsLast(d: Delivery)
    requires Sound(d)
    ensures Latest(d.rounds) == 1 + d.redrives && Latest(d.rounds) in d.rounds
  {
  }

  lemma {:induction false} StartedOfOthers(rounds: map<nat, Round>, k: nat, r: Round, upTo: nat)
    ensures upTo < k ==> Started(rounds[k := r], upTo) == Started(rounds, upTo)
    ensures 1 <= k <= upTo ==> Started(rounds[k := r], upTo)
                               == Started(rounds, upTo) + r.started - (if k in rounds then rounds[k].started else 0)
  {
    if upTo > 0 { StartedOfOthers(rounds, k, r, upTo - 1); }
  }

  lemma {:induction false} StartedGrows(rounds: map<nat, Round>, m: nat, n: nat)
    requires m <= n
    ensures Started(rounds, m) <= Started(rounds, n)
  {
    if m < n { StartedGrows(rounds, m, n - 1); }
  }

  lemma {:induction false} StartedIsBounded(rounds: map<nat, Round>, n: nat)
    requires forall r | r in rounds :: rounds[r].started <= MAX_ROUND_ATTEMPTS
    ensures Started(rounds, n) <= MAX_ROUND_ATTEMPTS * n
  {
    if n > 0 { StartedIsBounded(rounds, n - 1); }
  }

  // The attempt budget is never exhausted while a delivery waits, so claiming never takes its exhaustion branches.
  lemma PendingHasRoom(d: Delivery)
    requires Sound(d) && d.status == Pending
    ensures d.attemptCount < MAX_ATTEMPTS && RoundAttempts(d) < MAX_ROUND_ATTEMPTS && ValidPayload(d.payload)
  {
    LatestIsLast(d);
    StartedIsBounded(d.rounds, d.redrives);
  }

  // The 32-attempt limit is the sum of the others: only the last attempt of the fourth round reaches it.
  lemma AttemptLimitIsRoundLimit(d: Delivery)
    requires Sound(d)
    ensures d.attemptCount <= MAX_ATTEMPTS
    ensures d.attemptCount == MAX_ATTEMPTS ==> d.redrives == MAX_REDRIVES && RoundAttempts(d) == MAX_ROUND_ATTEMPTS
  {
    LatestIsLast(d);
    StartedIsBounded(d.rounds, d.redrives);
  }

  lemma NewIsOk(d: Delivery, first: Round, source: Source, sourceId: string, webhook: string, slot: Option<int>, payload: string,
                accepted: bool, now: int)
    requires first.started == 0 && (accepted ==> ValidPayload(payload))
    requires d == NewDelivery(source, sourceId, webhook, slot, payload, accepted, first, now)
    ensures Sound(d) && Budget(d) <= 71
  {
    assert Started(d.rounds, 1) == Started(d.rounds, 0) + 0;
  }

  // Changes that leave rounds, counts and the identity of attempts alone keep the numbering.
  lemma NumberingUnmoved(d: Delivery, e: Delivery)
    requires NumberingOk(d)
    requires (e.rounds, e.redrives, e.attemptCount, e.attempts.Keys) == (d.rounds, d.redrives, d.attemptCount, d.attempts.Keys)
    requires forall a | a in e.attempts ::
        && (e.attempts[a].round, e.attempts[a].revision) == (d.attempts[a].round, d.attempts[a].revision)
        && (e.attempts[a].status == InProgress <==> e.status == Running && a == e.attemptCount)
    ensures NumberingOk(e)
  {
    assert forall a :: a in e.attempts <==> a in d.attempts;
    forall a | a in e.attempts
      ensures AttemptOk(e, a)
    {
      assert AttemptOk(d, a);
    }
  }

  lemma EndKeeps(d: Delivery, status: Status, error: ErrorCode, now: int)
    requires Sound(d) && d.status == Pending && (status == Cancelled || status == Failed)
    ensures Sound(End(d, status, error, now)) && Evolves(d, End(d, status, error, now))
  {
    forall a | a in d.attempts { OpenAttempt(d, a); }
    NumberingUnmoved(d, End(d, status, error, now));
  }

  // Only the last attempt of a running delivery is open.
  lemma OpenAttempt(d: Delivery, a: nat)
    requires NumberingOk(d) && a in d.attempts
    ensures d.attempts[a].status == InProgress <==> d.status == Running && a == d.attemptCount
  {
    assert AttemptOk(d, a);
  }

  // The numbering before a claim, and how it moves: only the latest round grows, by one.
  lemma StartMovesNumbering(d: Delivery, upTo: nat)
    requires Sound(d) && d.status == Pending && upTo <= 1 + d.redrives
    ensures Latest(d.rounds) in d.rounds
    ensures Started(StartAttempt(d).rounds, upTo) == Started(d.rounds, upTo) + (if upTo == 1 + d.redrives then 1 else 0)
  {
    LatestIsLast(d);
    StartedOfOthers(d.rounds, 1 + d.redrives, StartAttempt(d).rounds[1 + d.redrives], upTo);
  }

  lemma StartedAttemptOk(d: Delivery, a: nat)
    requires Sound(d) && d.status == Pending && 1 <= a <= d.attemptCount + 1
    ensures Latest(d.rounds) in d.rounds && a in StartAttempt(d).attempts && AttemptOk(StartAttempt(d), a)
  {
    LatestIsLast(d);
    if a <= d.attemptCount {
      assert AttemptOk(d, a);
      var r := d.attempts[a].round;
      StartMovesNumbering(d, r);
      StartMovesNumbering(d, r - 1);
      OpenAttempt(d, a);
    } else {
      StartMovesNumbering(d, d.redrives);
      StartMovesNumbering(d, 1 + d.redrives);
      StartedGrows(d.rounds, d.redrives, 1 + d.redrives);
    }
  }

  lemma StartKeeps(d: Delivery)
    requires Sound(d) && d.status == Pending
    ensures Latest(d.rounds) in d.rounds && Sound(StartAttempt(d)) && Evolves(d, StartAttempt(d))
  {
    PendingHasRoom(d);
    LatestIsLast(d);
    StartNumbering(d);
  }

  lemma StartNumbering(d: Delivery)
    requires Sound(d) && d.status == Pending
    ensures Latest(d.rounds) in d.rounds && NumberingOk(StartAttempt(d))
  {
    LatestIsLast(d);
    StartMovesNumbering(d, 1 + d.redrives);
    var e := StartAttempt(d);
    forall a | a in e.attempts ensures AttemptOk(e, a) { StartedAttemptOk(d, a); }
  }

  // The claim a worker holds still describes the running delivery.
  ghost predicate Holds(d: Delivery, c: Claim) {
    && d.status == Running
    && c.attempt == d.attemptCount && c.round == Latest(d.rounds) && c.roundAttempt == RoundAttempts(d)
    && (c.source, c.webhook, c.payload) == (d.source, d.webhook, d.payload)
    && c.round in d.rounds && c.secret == d.rounds[c.round].secret
  }

  lemma StartIsHeld(d: Delivery, ordinal: nat)
    requires Sound(d) && d.status == Pending
    ensures Latest(d.rounds) in d.rounds && Holds(StartAttempt(d), ClaimOf(ordinal, d))
  {
    LatestIsLast(d);
  }

  // Finishing closes exactly the claimed attempt, which was the only open one and the last of the latest round.
  lemma FinishClosesItsAttempt(d: Delivery, c: Claim, outcome: Outcome, now: int)
    requires Sound(d) && Holds(d, c)
    ensures c.attempt in d.attempts && d.attempts[c.attempt].round == c.round
    ensures forall a | a in d.attempts :: d.attempts[a].status == InProgress <==> a == c.attempt
    ensures var e := FinishAttempt(d, c, outcome, now);
            && e.attempts == d.attempts[c.attempt := Attempt(c.round, d.rounds[c.round].revision, AttemptStatusOf(c, outcome), ErrorOf(outcome))]
            && e.status == StatusOf(c, outcome)
            && (e.status == Pending <==> outcome.Transient? && c.roundAttempt < MAX_ROUND_ATTEMPTS)
  {
    LatestIsLast(d);
    AttemptLimitIsRoundLimit(d);
    forall a | a in d.attempts
      ensures d.attempts[a].status == InProgress <==> a == c.attempt
    {
      assert AttemptOk(d, a);
    }
    assert AttemptOk(d, c.attempt);
    var r := d.attempts[c.attempt].round;
    if r < c.round { StartedGrows(d.rounds, r, c.round - 1); }
  }

  lemma FinishKeeps(d: Delivery, c: Claim, outcome: Outcome, now: int)
    requires Sound(d) && Holds(d, c)
    ensures Sound(FinishAttempt(d, c, outcome, now)) && Evolves(d, FinishAttempt(d, c, outcome, now))
  {
    FinishClosesItsAttempt(d, c, outcome, now);
    LatestIsLast(d);
    var e := FinishAttempt(d, c, outcome, now);
    assert e.attempts.Keys == d.attempts.Keys;
    NumberingUnmoved(d, e);
  }

  // With the failed status, a payload, and the two limits of the source, a fourth redrive is impossible:
  // the new round number is at most 4, so the later guard on it never fires.
  lemma RedriveKeeps(d: Delivery, next: Round, now: int)
    requires Sound(d) && d.status == Failed && d.payload != "" && d.attemptCount < MAX_ATTEMPTS && d.redrives < MAX_REDRIVES
    requires next.started == 0
    ensures Latest(d.rounds) + 1 <= MAX_ROUNDS && Latest(d.rounds) + 1 !in d.rounds
    ensures Sound(Redrive(d, next, now)) && Evolves(d, Redrive(d, next, now))
  {
    LatestIsLast(d);
    RedriveNumbering(d, next, now);
  }

  lemma RedriveNumbering(d: Delivery, next: Round, now: int)
    requires NumberingOk(d) && d.status == Failed && next.started == 0 && Latest(d.rounds) == 1 + d.redrives
    ensures NumberingOk(Redrive(d, next, now))
  {
    var e := Redrive(d, next, now);
    var k := 2 + d.redrives;
    StartedOfOthers(d.rounds, k, next, k);
    StartedOfOthers(d.rounds, k, next, k - 1);
    assert Started(d.rounds, k) == Started(d.rounds, k - 1);
    forall a | a in e.attempts
      ensures AttemptOk(e, a)
    {
      assert AttemptOk(d, a);
      StartedOfOthers(d.rounds, k, next, d.attempts[a].round);
      StartedOfOthers(d.rounds, k, next, d.attempts[a].round - 1);
    }
  }

  lemma InterruptKeeps(d: Delivery, secretExists: bool, authorised: bool, now: int)
    requires Sound(d) && d.status == Running
    ensures var e := Interrupt(d, secretExists, authorised, now);
            && Sound(e) && Evolves(d, e) && e.status != Running
            && (e.status == Pending <==> secretExists && authorised && RoundAttempts(d) < MAX_ROUND_ATTEMPTS)
  {
    LatestIsLast(d);
    AttemptLimitIsRoundLimit(d);
    forall a | a in d.attempts { OpenAttempt(d, a); }
    var e := Interrupt(d, secretExists, authorised, now);
    assert e.attempts.Keys == d.attempts.Keys;
    NumberingUnmoved(d, e);
  }

  /* ----- reading a delivery ----- */

  // The entry of attempt b: its round, and its number within that round.
  ghost predicate EntryOk(d: Delivery, entry: (nat, nat), b: nat) {
    && b in d.attempts && d.attempts[b].round >= 1
    && entry == (d.attempts[b].round, b - Started(d.rounds, d.attempts[b].round - 1))
  }

  ghost predicate EntriesOk(d: Delivery, numbered: seq<(nat, nat)>) {
    forall b {:trigger numbered[b]} | 0 <= b < |numbered| :: EntryOk(d, numbered[b], b + 1)
  }

  lemma AppendEntry(d: Delivery, numbered: seq<(nat, nat)>, entry: (nat, nat))
    requires EntriesOk(d, numbered) && EntryOk(d, entry, |numbered| + 1)
    ensures EntriesOk(d, numbered + [entry])
  {
  }

  // Reading the counter map, where a missing key counts zero.
  function Counter(counters: map<nat, nat>, r: nat): nat {
    if r in counters then counters[r] else 0
  }

  ghost predicate CountersAt(d: Delivery, counters: map<nat, nat>, a: nat) {
    forall r | 1 <= r :: Counter(counters, r) == Numbered(d, r, a)
  }

  // One turn of the loop keeps both of its invariants.
  lemma NumberNext(d: Delivery, counters: map<nat, nat>, numbered: seq<(nat, nat)>)
    requires NumberingOk(d) && |numbered| < d.attemptCount && EntriesOk(d, numbered) && CountersAt(d, counters, |numbered| + 1)
    ensures |numbered| + 1 in d.attempts
    ensures var round := d.attempts[|numbered| + 1].round;
            var number := Counter(counters, round) + 1;
            EntriesOk(d, numbered + [(round, number)]) && CountersAt(d, counters[round := number], |numbered| + 2)
  {
    var a := |numbered| + 1;
    CountOne(d, a);
    var round := d.attempts[a].round;
    var number := Counter(counters, round) + 1;
    assert number == Numbered(d, round, a) + 1;
    AppendEntry(d, numbered, (round, number));
    var after, b := counters[round := number], a + 1;
    forall r | 1 <= r
      ensures Counter(after, r) == Numbered(d, r, b)
    {
      assert r != round ==> Counter(counters, r) == Numbered(d, r, a);
    }
  }

  // The attempts in order, each with its round and its number within the round.
  method NumberAttempts(d: Delivery) returns (numbered: seq<(nat, nat)>)
    requires NumberingOk(d)
    ensures |numbered| == d.attemptCount && EntriesOk(d, numbered)
  {
    numbered := [];
    var attemptNumbers: map<nat, nat> := map[];
    while |numbered| < d.attemptCount
      invariant |numbered| <= d.attemptCount
      invariant EntriesOk(d, numbered)
      invariant CountersAt(d, attemptNumbers, |numbered| + 1)
    {
      NumberNext(d, attemptNumbers, numbered);
      var round := d.attempts[|numbered| + 1].round;
      var number := Counter(attemptNumbers, round) + 1;
      attemptNumbers := attemptNumbers[round := number];
      numbered := numbered + [(round, number)];
    }
  }

  // So every number 1, 2, ... of every round is used, and used once.
  lemma RoundNumbersAreComplete(d: Delivery, numbered: seq<(nat, nat)>, r: nat, k: nat)
    requires NumberingOk(d) && |numbered| == d.attemptCount && EntriesOk(d, numbered)
    ensures r in d.rounds && 1 <= k <= d.rounds[r].started <==> (r, k) in numbered
    ensures forall i, j | 0 <= i < j < |numbered| :: numbered[i] != numbered[j]
  {
    if r in d.rounds && 1 <= k <= d.rounds[r].started {
      NumberIsUsed(d, r, k);
      assert EntryOk(d, numbered[Started(d.rounds, r - 1) + k - 1], Started(d.rounds, r - 1) + k);
    }
    if (r, k) in numbered {
      var b :| 0 <= b < |numbered| && numbered[b] == (r, k);
      assert EntryOk(d, numbered[b], b + 1) && AttemptOk(d, b + 1);
    }
  }

  // How many attempts of round r have a number below a.
  function Numbered(d: Delivery, r: nat, a: nat): nat {
    var before := if r == 0 then 0 else Started(d.rounds, r - 1);
    var through := Started(d.rounds, r);
    if a - 1 <= before then 0 else if a - 1 <= through then a - 1 - before else if before <= through then through - before else 0
  }

  // Counting one more attempt moves the counter of its round only, to its number within the round.
  lemma CountOne(d: Delivery, a: nat)
    requires NumberingOk(d) && 1 <= a <= d.attemptCount
    ensures a in d.attempts && d.attempts[a].round in d.rounds && 1 <= d.attempts[a].round
    ensures Numbered(d, d.attempts[a].round, a) + 1 == Numbered(d, d.attempts[a].round, a + 1) == a - Started(d.rounds, d.attempts[a].round - 1)
    ensures forall r {:trigger Numbered(d, r, a)} | 1 <= r != d.attempts[a].round :: Numbered(d, r, a + 1) == Numbered(d, r, a)
  {
    assert AttemptOk(d, a);
    forall r | 1 <= r && r != d.attempts[a].round
      ensures Numbered(d, r, a + 1) == Numbered(d, r, a)
    {
      OtherCounterStays(d, d.attempts[a].round, a, r);
    }
  }

  lemma OtherCounterStays(d: Delivery, round: nat, a: nat, r: nat)
    requires 1 <= round && 1 <= r && r != round && Started(d.rounds, round - 1) < a <= Started(d.rounds, round)
    ensures Numbered(d, r, a + 1) == Numbered(d, r, a)
  {
    if r < round { StartedGrows(d.rounds, r, round - 1); } else { StartedGrows(d.rounds, round, r - 1); }
  }

  lemma NumberIsUsed(d: Delivery, r: nat, k: nat)
    requires NumberingOk(d) && r in d.rounds && 1 <= k <= d.rounds[r].started
    ensures var a := Started(d.rounds, r - 1) + k; a in d.attempts && d.attempts[a].round == r
  {
    var a := Started(d.rounds, r - 1) + k;
    StartedGrows(d.rounds, r, 1 + d.redrives);
    assert AttemptOk(d, a);
    var q := d.attempts[a].round;
    if q < r { StartedGrows(d.rounds, q, r - 1); } else if r < q { StartedGrows(d.rounds, r, q - 1); }
  }
}
