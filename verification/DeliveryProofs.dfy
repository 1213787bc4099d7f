/**
 The delivery protocol keeps one joint invariant over every run, and with it its limits,
 its claims and its bound on status changes.
 */
module DeliveryProofs {
  import opened Prelude
  import opened Deliveries
  import opened DeliveryStore

  /* ----- the invariant ----- */

  ghost predicate RowOk(s: State, o: nat)
    requires o in s.deliveries
  {
    var rowOk := o < s.nextOrdinal && Sound(s.deliveries[o]) && s.deliveries[o].webhook in s.webhooks;
    rowOk
  }

  // Every row is sound, at most 1000 deliveries wait or run, 5000 are retained, and 64 MiB of payload.
  ghost predicate TablesOk(s: State) {
    var tablesOk :=
      && (forall o {:trigger RowOk(s, o)} | o in s.deliveries :: RowOk(s, o))
      && ActiveCount(s) <= MAX_ACTIVE
      && RetainedBytes(s) <= MAX_RETAINED_BYTES
      && |s.deliveries| <= MAX_RETAINED;
    tablesOk
  }

  ghost predicate HoldsRow(s: State, worker: nat)
    requires worker in s.claims
  {
    var c := s.claims[worker];
    var holdsRow := worker < WORKERS && c.ordinal in s.deliveries && Holds(s.deliveries[c.ordinal], c);
    holdsRow
  }

  ghost predicate HeldBy(s: State, worker: nat, o: nat) {
    worker in s.claims && s.claims[worker].ordinal == o
  }

  // Each claim describes its running delivery, no two workers hold one delivery,
  // and while the service is open no running delivery is without its worker.
  ghost predicate ClaimsOk(s: State) {
    var claimsOk :=
      && (forall w {:trigger HoldsRow(s, w)} | w in s.claims :: HoldsRow(s, w))
      && (forall v, w, o | HeldBy(s, v, o) && HeldBy(s, w, o) :: v == w)
      && (s.open ==> forall o | o in s.deliveries && s.deliveries[o].status == Running :: exists w :: HeldBy(s, w, o));
    claimsOk
  }

  ghost predicate Inv(s: State) {
    TablesOk(s) && ClaimsOk(s)
  }

  // What one step does to the rows: survivors evolve, newcomers have fresh ordinals and a full budget, only terminal rows leave.
  ghost predicate StepOk(s: State, t: State) {
    var stepOk :=
      && Inv(t)
      && s.nextOrdinal <= t.nextOrdinal
      && (forall o | o in s.deliveries && o in t.deliveries :: Evolves(s.deliveries[o], t.deliveries[o]))
      && (forall o | o in t.deliveries && o !in s.deliveries :: s.nextOrdinal <= o && Budget(t.deliveries[o]) <= 71)
      && (forall o | o in s.deliveries && o !in t.deliveries :: !IsActive(s.deliveries[o]));
    stepOk
  }

  /* ----- aggregates ----- */

  lemma {:induction false} TotalOfOthers(m: map<nat, Delivery>, k: nat, d: Delivery, upTo: nat, weight: Delivery -> nat)
    ensures upTo <= k ==> Total(m[k := d], upTo, weight) == Total(m, upTo, weight)
    ensures k < upTo ==> Total(m[k := d], upTo, weight) == Total(m, upTo, weight) + weight(d) - (if k in m then weight(m[k]) else 0)
  {
    if upTo > 0 { TotalOfOthers(m, k, d, upTo - 1, weight); }
  }

  lemma {:induction false} TotalWithout(m: map<nat, Delivery>, k: nat, upTo: nat, weight: Delivery -> nat)
    requires k in m
    ensures Total(m - {k}, upTo, weight) == Total(m, upTo, weight) - (if k < upTo then weight(m[k]) else 0)
  {
    if upTo > 0 { TotalWithout(m, k, upTo - 1, weight); }
  }

  lemma {:induction false} TotalIsMonotone(m: map<nat, Delivery>, n: map<nat, Delivery>, upTo: nat, weight: Delivery -> nat)
    requires m.Keys == n.Keys && forall o | o in m :: weight(n[o]) <= weight(m[o])
    ensures Total(n, upTo, weight) <= Total(m, upTo, weight)
  {
    if upTo > 0 {
      assert upTo - 1 in m <==> upTo - 1 in n;
      TotalIsMonotone(m, n, upTo - 1, weight);
    }
  }

  lemma OneLess(m: map<nat, Delivery>, k: nat)
    requires k in m
    ensures (m - {k}).Keys == m.Keys - {k} && |m - {k}| == |m| - 1
  {
    assert (m - {k}).Keys == m.Keys - {k};
    assert |(m - {k}).Keys| == |m - {k}|;
  }

  function KeysBelow(keys: set<nat>, upTo: nat): nat {
    if upTo == 0 then 0 else KeysBelow(keys, upTo - 1) + (if upTo - 1 in keys then 1 else 0)
  }

  lemma {:induction false} KeysAreCounted(keys: set<nat>, upTo: nat)
    requires forall o | o in keys :: o < upTo
    ensures KeysBelow(keys, upTo) == |keys|
  {
    if upTo == 0 {
      assert keys == {};
    } else {
      var rest := keys - {upTo - 1};
      KeysAreCounted(rest, upTo - 1);
      KeysOfOthers(keys, upTo - 1, upTo - 1);
    }
  }

  lemma {:induction false} KeysOfOthers(keys: set<nat>, k: nat, upTo: nat)
    requires upTo <= k
    ensures KeysBelow(keys - {k}, upTo) == KeysBelow(keys, upTo)
  {
    if upTo > 0 { KeysOfOthers(keys, k, upTo - 1); }
  }

  lemma {:induction false} RowsAreKeys(m: map<nat, Delivery>, upTo: nat)
    ensures Total(m, upTo, RowWeight) == KeysBelow(m.Keys, upTo)
  {
    if upTo > 0 { RowsAreKeys(m, upTo - 1); }
  }

  // The sum of ones is the number of rows.
  lemma RowsAreCounted(m: map<nat, Delivery>, upTo: nat)
    requires forall o | o in m :: o < upTo
    ensures Total(m, upTo, RowWeight) == |m|
  {
    RowsAreKeys(m, upTo);
    KeysAreCounted(m.Keys, upTo);
    assert |m.Keys| == |m|;
  }

  /* ----- pruning ----- */

  lemma OldestExists(m: map<nat, Delivery>, p: nat)
    requires p in m && !IsActive(m[p])
    ensures exists o :: IsOldestTerminal(m, o)
    decreases p
  {
    if q :| q in m && !IsActive(m[q]) && q < p {
      OldestExists(m, q);
    } else {
      assert IsOldestTerminal(m, p);
    }
  }

  // Only terminal rows left, the oldest ones first.
  ghost predicate OldestLeft(m: map<nat, Delivery>, kept: map<nat, Delivery>) {
    && kept.Keys <= m.Keys && |kept| <= |m|
    && (forall o | o in kept :: kept[o] == m[o])
    && (forall o | o in m && o !in kept :: !IsActive(m[o]))
    && (forall o, p | o in m && o !in kept && p in kept && !IsActive(kept[p]) :: o < p)
  }

  lemma OldestLeftFirst(m: map<nat, Delivery>, o: nat, kept: map<nat, Delivery>)
    requires IsOldestTerminal(m, o) && OldestLeft(m - {o}, kept)
    ensures OldestLeft(m, kept)
  {
    OneLess(m, o);
    var rest := m - {o};
    assert forall p | p in kept :: p in rest && p != o && kept[p] == rest[p];
    assert forall p | p in m && p !in kept :: p == o || p in rest;
  }

  // Pruning removes terminal rows only, the oldest ones, and either makes room or leaves nothing terminal.
  lemma {:induction false} PrunedKeeps(m: map<nat, Delivery>)
    ensures OldestLeft(m, Pruned(m))
    ensures |Pruned(m)| < MAX_RETAINED || forall o | o in Pruned(m) :: IsActive(Pruned(m)[o])
    decreases |m|
  {
    if |m| >= MAX_RETAINED && exists o :: IsOldestTerminal(m, o) {
      var o :| IsOldestTerminal(m, o) && Pruned(m) == Pruned(m - {o});
      OneLess(m, o);
      PrunedKeeps(m - {o});
      OldestLeftFirst(m, o, Pruned(m));
    } else {
      forall o | o in m && !IsActive(m[o]) { OldestExists(m, o); }
    }
  }

  lemma {:induction false} PrunedTotals(m: map<nat, Delivery>, upTo: nat)
    requires forall o | o in m :: o < upTo
    ensures Total(Pruned(m), upTo, ActiveWeight) == Total(m, upTo, ActiveWeight)
    ensures Total(Pruned(m), upTo, PayloadWeight) <= Total(m, upTo, PayloadWeight)
    decreases |m|
  {
    if |m| >= MAX_RETAINED && exists o :: IsOldestTerminal(m, o) {
      var o :| IsOldestTerminal(m, o) && Pruned(m) == Pruned(m - {o});
      assert (m - {o}).Keys == m.Keys - {o};
      TotalWithout(m, o, upTo, ActiveWeight);
      TotalWithout(m, o, upTo, PayloadWeight);
      PrunedTotals(m - {o}, upTo);
    }
  }

  // Because at most 1000 rows are active, pruning always makes room: the branch with nothing to prune is unreachable.
  lemma PruningMakesRoom(s: State)
    requires TablesOk(s)
    ensures |Pruned(s.deliveries)| < MAX_RETAINED
  {
    var kept := Pruned(s.deliveries);
    PrunedKeeps(s.deliveries);
    if |kept| >= MAX_RETAINED {
      forall o | o in s.deliveries ensures o < s.nextOrdinal { assert RowOk(s, o); }
      RowsAreCounted(kept, s.nextOrdinal);
      PrunedTotals(s.deliveries, s.nextOrdinal);
      AllActive(kept, s.nextOrdinal);
      assert false;
    }
  }

  lemma {:induction false} AllActive(m: map<nat, Delivery>, upTo: nat)
    requires forall o | o in m :: IsActive(m[o])
    ensures Total(m, upTo, ActiveWeight) == Total(m, upTo, RowWeight)
  {
    if upTo > 0 { AllActive(m, upTo - 1); }
  }

  /* ----- steps that change rows in place ----- */

  // A row changes soundly, without becoming active, and without starting or ending to run.
  ghost predicate QuietRow(d: Delivery, e: Delivery) {
    var quiet :=
      && Sound(e) && Evolves(d, e)
      && (IsActive(e) ==> IsActive(d))
      && (d.status == Running || e.status == Running ==> e == d);
    quiet
  }

  lemma EvolvesSelf(d: Delivery)
    ensures Evolves(d, d)
  {
  }

  // Every row evolves soundly and none becomes active: the tables stay sound.
  lemma RowsKeepTables(s: State, t: State)
    requires TablesOk(s)
    requires t.deliveries.Keys == s.deliveries.Keys && t.nextOrdinal == s.nextOrdinal && s.webhooks.Keys <= t.webhooks.Keys
    requires forall o | o in s.deliveries :: Sound(t.deliveries[o]) && Evolves(s.deliveries[o], t.deliveries[o])
    requires forall o | o in s.deliveries :: IsActive(t.deliveries[o]) ==> IsActive(s.deliveries[o])
    ensures TablesOk(t)
  {
    WeightsDoNotGrow(s.deliveries, t.deliveries, s.nextOrdinal);
    assert |t.deliveries| == |t.deliveries.Keys|;
    forall o | o in t.deliveries ensures RowOk(t, o) { assert RowOk(s, o); }
  }

  lemma WeightsDoNotGrow(m: map<nat, Delivery>, n: map<nat, Delivery>, upTo: nat)
    requires m.Keys == n.Keys
    requires forall o | o in m :: Evolves(m[o], n[o]) && (IsActive(n[o]) ==> IsActive(m[o]))
    ensures Total(n, upTo, ActiveWeight) <= Total(m, upTo, ActiveWeight)
    ensures Total(n, upTo, PayloadWeight) <= Total(m, upTo, PayloadWeight)
  {
    TotalIsMonotone(m, n, upTo, ActiveWeight);
    TotalIsMonotone(m, n, upTo, PayloadWeight);
  }

  // The claims do not notice changes to rows that neither were nor become running.
  lemma ClaimsUnmoved(s: State, t: State)
    requires ClaimsOk(s) && t.claims == s.claims && (t.open ==> s.open)
    requires forall o | o in s.deliveries && s.deliveries[o].status == Running :: o in t.deliveries && t.deliveries[o] == s.deliveries[o]
    requires forall o | o in t.deliveries && t.deliveries[o].status == Running :: o in s.deliveries && t.deliveries[o] == s.deliveries[o]
    ensures ClaimsOk(t)
  {
    forall w | w in t.claims ensures HoldsRow(t, w) { assert HoldsRow(s, w); }
    assert forall w, o :: HeldBy(t, w, o) <==> HeldBy(s, w, o);
  }

  lemma QuietStep(s: State, t: State)
    requires Inv(s)
    requires t.deliveries.Keys == s.deliveries.Keys && t.nextOrdinal == s.nextOrdinal && s.webhooks.Keys <= t.webhooks.Keys
    requires t.claims == s.claims && (t.open ==> s.open)
    requires forall o | o in s.deliveries :: QuietRow(s.deliveries[o], t.deliveries[o])
    ensures StepOk(s, t)
  {
    RowsKeepTables(s, t);
    ClaimsUnmoved(s, t);
  }

  lemma CancelledRow(d: Delivery, selected: bool, error: ErrorCode, now: int)
    requires Sound(d)
    ensures QuietRow(d, CancelIf(d, selected, error, now))
  {
    EvolvesSelf(d);
    if d.status == Pending { EndKeeps(d, Cancelled, error, now); }
  }

  lemma CancelledRows(s: State, t: State, selected: set<nat>, error: ErrorCode, now: int)
    requires Inv(s) && t.deliveries == CancelPending(s.deliveries, selected, error, now)
    requires t.nextOrdinal == s.nextOrdinal && s.webhooks.Keys <= t.webhooks.Keys && t.claims == s.claims && t.open == s.open
    ensures StepOk(s, t)
  {
    forall o | o in s.deliveries
      ensures QuietRow(s.deliveries[o], t.deliveries[o])
    {
      assert RowOk(s, o);
      CancelledRow(s.deliveries[o], o in selected, error, now);
    }
    QuietStep(s, t);
  }

  // Nothing but the configuration moves.
  lemma RowsUntouched(s: State, t: State)
    requires Inv(s) && t.deliveries == s.deliveries && t.nextOrdinal == s.nextOrdinal
    requires s.webhooks.Keys <= t.webhooks.Keys && t.claims == s.claims && (t.open ==> s.open)
    ensures StepOk(s, t)
  {
    forall o | o in s.deliveries
      ensures QuietRow(s.deliveries[o], t.deliveries[o])
    {
      assert RowOk(s, o);
      EvolvesSelf(s.deliveries[o]);
    }
    QuietStep(s, t);
  }
}
