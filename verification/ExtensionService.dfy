/**
 The extension service over its tables: configuration rows rebuilt in loops, and pending intents cancelled one by one.
 */
module ExtensionService {
  import opened Prelude
  import opened Extensions

  /* ----- rebuilding rows ----- */

  lemma SlotsGrow(bindings: seq<Slot>, i: nat)
    requires i < |bindings|
    ensures SlotsOf(bindings[..i + 1]) == SlotsOf(bindings[..i]) + {bindings[i]}
  {
    assert bindings[..i + 1] == bindings[..i] + [bindings[i]];
  }

  lemma OriginsGrow(origins: seq<string>, i: nat)
    requires i < |origins|
    ensures OriginsOf(origins[..i + 1]) == OriginsOf(origins[..i]) + {origins[i]}
  {
    assert origins[..i + 1] == origins[..i] + [origins[i]];
  }

  lemma RenamedOneMore<K>(had: map<K, string>, wanted: set<K>, k: K, newIds: map<K, string>)
    requires k in had || k in newIds
    ensures Renamed(had, wanted + {k}, newIds) == Renamed(had, wanted, newIds)[k := if k in had then had[k] else newIds[k]]
  {
  }

  method BindingRows(had: map<Slot, string>, bindings: seq<Slot>, newIds: map<Slot, string>) returns (rows: map<Slot, string>)
    requires forall b | b in bindings && b !in had :: b in newIds
    ensures rows == Renamed(had, SlotsOf(bindings), newIds)
  {
    rows := map[];
    for i := 0 to |bindings|
      invariant rows == Renamed(had, SlotsOf(bindings[..i]), newIds)
    {
      hide Renamed;
      var slot := bindings[i];
      SlotsGrow(bindings, i);
      RenamedOneMore(had, SlotsOf(bindings[..i]), slot, newIds);
      rows := rows[slot := if slot in had then had[slot] else newIds[slot]];
    }
    assert bindings[..|bindings|] == bindings;
  }

  method GrantRows(had: map<string, string>, origins: seq<string>, newIds: map<string, string>) returns (rows: map<string, string>)
    requires forall o | o in origins && o !in had :: o in newIds
    ensures rows == Renamed(had, OriginsOf(origins), newIds)
  {
    rows := map[];
    for i := 0 to |origins|
      invariant rows == Renamed(had, OriginsOf(origins[..i]), newIds)
    {
      hide Renamed;
      var origin := origins[i];
      OriginsGrow(origins, i);
      RenamedOneMore(had, OriginsOf(origins[..i]), origin, newIds);
      rows := rows[origin := if origin in had then had[origin] else newIds[origin]];
    }
    assert origins[..|origins|] == origins;
  }

  method SecretRows(secrets: seq<(string, string)>) returns (rows: map<string, string>)
    ensures rows == SecretMap(secrets)
  {
    rows := map[];
    for i := 0 to |secrets|
      invariant rows == SecretMap(secrets[..i])
    {
      assert secrets[..i + 1][..i] == secrets[..i];
      rows := rows[secrets[i].0 := secrets[i].1];
    }
    assert secrets[..|secrets|] == secrets;
  }

  // Whether the configuration no longer covers what the intent pins: its binding, its secrets in turn, its grants in turn.
  method CheckPins(e: Extension, i: Intent) returns (cancelled: bool)
    ensures cancelled == Invalidated(e, i)
  {
    cancelled := i.binding !in e.bindings.Values;
    var aliases := i.secrets.Keys;
    while aliases != {}
      invariant aliases <= i.secrets.Keys
      invariant cancelled <==> i.binding !in e.bindings.Values
                               || exists alias | alias in i.secrets.Keys - aliases :: alias !in e.secrets || e.secrets[alias] != i.secrets[alias]
      decreases aliases
    {
      var alias :| alias in aliases;
      if alias !in e.secrets || e.secrets[alias] != i.secrets[alias] {
        cancelled := true;
      }
      aliases := aliases - {alias};
    }
    ghost var before := cancelled;
    var grants := i.grants;
    while grants != {}
      invariant grants <= i.grants && (cancelled <==> before || exists g | g in i.grants - grants :: g !in e.grants.Values)
      decreases grants
    {
      var grant :| grant in grants;
      if grant !in e.grants.Values {
        cancelled := true;
      }
      grants := grants - {grant};
    }
  }

  class ExtensionService {
    var extensions: map<string, Extension>
    var intents: map<string, Intent>
    var runs: map<string, Status>
    var before: map<string, Status>
    var secrets: map<string, nat>
    var collections: map<string, bool>
    ghost var ids: set<string>
    var open: bool

    ghost function View(): Project
      reads this
    {
      Project(extensions, intents, runs, before, secrets, collections, ids, open)
    }

    constructor ()
      ensures View() == EMPTY && ProjectInv(View())
    {
      extensions, intents, runs, before := map[], map[], map[], map[];
      secrets, collections, ids, open := map[], map[], {}, false;
      new;
      EmptyIsSound();
    }

    // The guarded updates of one intent and its run.
    method MoveIntent(id: string, from: Status, to: Status)
      requires RunsOk(intents, runs) && id in intents
      modifies this`intents, this`runs
      ensures View() == if old(intents[id].status) == from then Move(old(View()), {id}, to) else old(View())
      ensures RunsOk(intents, runs)
    {
      hide SetStatus, SetRuns;
      MoveKeepsRuns(View(), {id}, to);
      MovedRows(intents, runs, id, to);
      if intents[id].status == from {
        intents := intents[id := intents[id].(status := to)];
        if id in runs && runs[id] == from {
          runs := runs[id := to];
        }
      }
    }

    // The pending intents of the extension that its present rows do not cover, one by one.
    method CancelRemovedPending(extension: string)
      requires RunsOk(intents, runs) && extension in extensions
      modifies this`intents, this`runs
      ensures View() == Move(old(View()), Uncovered(old(View()), extension), Cancelled)
    {
      hide Move, Invalidated, RunsOk, Uncovered;
      ghost var s := View();
      ghost var gone := Uncovered(s, extension);
      var pending := set i | i in intents && intents[i].extension == extension && intents[i].status == Pending;
      assert pending == PendingOf(s, extension);
      hide PendingOf;
      assert gone - pending == {};
      NothingMoves(s, gone - pending, Cancelled);
      while pending != {}
        invariant pending <= PendingOf(s, extension) && RunsOk(intents, runs) && extensions == s.extensions
        invariant View() == Move(s, gone - pending, Cancelled)
        decreases pending
      {
        var id :| id in pending;
        CancelNext(s, extension, gone, pending, id);
        var cancelled := CheckPins(extensions[extension], intents[id]);
        if cancelled {
          MoveIntent(id, Pending, Cancelled);
        }
        pending := pending - {id};
      }
      assert gone - {} == gone;
    }

    // What stands against the replacement, in the order it is looked for.
    method CheckReplacement(extension: string, c: Config) returns (problem: Option<Problem>)
      ensures problem == ReplaceProblem(View(), extension, c)
    {
      hide ValidConfig, SlotsFree;
      if !ValidConfig(c) {
        return Some(Invalid);
      }
      if extension !in extensions {
        return Some(NotFound);
      }
      if !(forall b | b in c.bindings :: b.collection in collections && (collections[b.collection] ==> b.operation == OnCreate)) {
        return Some(Invalid);
      }
      var secretsExist := forall x | x in c.secrets :: x.1 in secrets;
      if extensions[extension].enabled && !secretsExist {
        return Some(Invalid);
      }
      if extensions[extension].enabled {
        var free := EnsureSlotsFree(extension, c.bindings);
        if !free {
          return Some(SlotTaken);
        }
      }
      problem := if secretsExist then None else Some(Conflict);
    }

    // The rows of an extension deleted and written anew; the source gets a revision if it changed.
    method ReplaceConfigurationRows(extension: string, c: Config, newBindings: map<Slot, string>, newGrants: map<string, string>)
      requires extension in extensions && FreshConfig(View(), extension, c, newBindings, newGrants)
      modifies this`extensions, this`ids
      ensures extensions == old(extensions)[extension := Reconfigured(old(extensions[extension]), c, newBindings, newGrants)]
      ensures ids == old(ids) + newBindings.Values + newGrants.Values
    {
      NewIdsCover(View(), extension, c, newBindings, newGrants);
      hide Renamed, SecretMap, FreshIds, SlotsOf, OriginsOf;
      var had := extensions[extension];
      var revision := had.revision;
      var revisions := had.revisions;
      if c.source != had.source {
        revision := revision + 1;
        revisions := revisions[revision := c.source];
      }
      var bindings := BindingRows(had.bindings, c.bindings, newBindings);
      var pins := SecretRows(c.secrets);
      var grants := GrantRows(had.grants, c.origins, newGrants);
      extensions := extensions[extension := Extension(had.enabled, revision, c.source, revisions, bindings, pins, grants)];
      ids := ids + newBindings.Values + newGrants.Values;
    }

    // Rows and intents of one replacement, in one transaction.
    method ReplaceConfiguration(extension: string, c: Config, newBindings: map<Slot, string>, newGrants: map<string, string>)
      returns (problem: Option<Problem>)
      requires ProjectInv(View()) && (extension in extensions ==> FreshConfig(View(), extension, c, newBindings, newGrants))
      modifies this`extensions, this`intents, this`runs, this`ids
      ensures ProjectInv(View()) && View() == Replace(old(View()), extension, c, newBindings, newGrants)
      ensures problem == ReplaceProblem(old(View()), extension, c)
    {
      hide ProjectInv, ReplaceProblem, Reconfigured, FreshConfig, Uncovered, Move, RunsOk;
      ReplaceKeeps(View(), extension, c, newBindings, newGrants);
      KeepsRuns(View());
      problem := CheckReplacement(extension, c);
      if problem.None? {
        ReplaceableConfig(View(), extension, c);
        ReplaceConfigurationRows(extension, c, newBindings, newGrants);
        CancelRemovedPending(extension);
      }
    }

    // Each wanted slot in turn against the other enabled extensions.
    method EnsureSlotsFree(extension: string, bindings: seq<Slot>) returns (free: bool)
      ensures free == SlotsFree(View(), extension, SlotsOf(bindings))
    {
      for i := 0 to |bindings|
        invariant SlotsFree(View(), extension, SlotsOf(bindings[..i]))
      {
        SlotsGrow(bindings, i);
        if exists other | other in extensions :: other != extension && extensions[other].enabled && bindings[i] in extensions[other].bindings {
          assert exists other | other in extensions :: other != extension && Holds(View(), other, bindings[i]);
          assert bindings[i] in SlotsOf(bindings);
          return false;
        }
      }
      assert bindings[..|bindings|] == bindings;
      free := true;
    }

    method EnableExtension(id: string) returns (problem: Option<Problem>)
      requires ProjectInv(View())
      modifies this`extensions
      ensures ProjectInv(View()) && View() == Enable(old(View()), id) && problem == EnableProblem(old(View()), id)
    {
      hide ProjectInv;
      EnableKeeps(View(), id);
      if id !in extensions {
        return Some(NotFound);
      }
      var bindings := extensions[id].bindings.Keys;
      if exists b | b in bindings :: b.collection !in collections || (collections[b.collection] && b.operation != OnCreate) {
        return Some(Invalid);
      }
      if exists other, b | other in extensions && b in bindings ::
          other != id && extensions[other].enabled && b in extensions[other].bindings {
        assert exists other, b | other in extensions && b in bindings :: other != id && Holds(View(), other, b);
        return Some(SlotTaken);
      }
      extensions := extensions[id := extensions[id].(enabled := true)];
      problem := None;
    }

    // The pending intents pinned to the secret, one by one.
    method CancelPendingForSecret(secret: string)
      requires RunsOk(intents, runs)
      modifies this`intents, this`runs
      ensures View() == Move(old(View()), PinnedTo(old(View()), secret), Cancelled) && RunsOk(intents, runs)
    {
      ghost var s := View();
      ghost var pinned := PinnedTo(s, secret);
      var pending := set i | i in intents && intents[i].status == Pending;
      assert pinned - pending == {};
      NothingMoves(s, pinned - pending, Cancelled);
      while pending != {}
        invariant (forall i | i in pending :: i in s.intents && s.intents[i].status == Pending) && RunsOk(intents, runs)
        invariant View() == Move(s, pinned - pending, Cancelled)
        decreases pending
      {
        hide Move, RunsOk;
        var id :| id in pending;
        MovedSoFar(s, pinned - pending, id);
        MoveOneMore(s, pinned - pending, id, Cancelled);
        assert pinned - (pending - {id}) == if id in pinned then pinned - pending + {id} else pinned - pending;
        if secret in intents[id].secrets.Values {
          MoveIntent(id, Pending, Cancelled);
        }
        pending := pending - {id};
      }
      assert pinned - {} == pinned;
    }

    method ReplaceSecretValue(secret: string) returns (found: bool)
      requires ProjectInv(View())
      modifies this`secrets, this`intents, this`runs
      ensures ProjectInv(View()) && View() == ReplaceSecret(old(View()), secret) && found == (secret in old(secrets))
    {
      hide ProjectInv, Move, RunsOk;
      ReplaceSecretKeeps(View(), secret);
      KeepsRuns(View());
      found := secret in secrets;
      if found {
        secrets := secrets[secret := secrets[secret] + 1];
        CancelPendingForSecret(secret);
      }
    }

    // Cancelling what is pinned to the secret, then deleting it; its bindings go with it.
    method RemoveSecret(secret: string) returns (found: bool)
      requires ProjectInv(View())
      modifies this`secrets, this`extensions, this`intents, this`runs
      ensures ProjectInv(View()) && View() == DeleteSecret(old(View()), secret) && found == (secret in old(secrets))
    {
      hide ProjectInv, RunsOk;
      DeleteSecretKeeps(View(), secret);
      KeepsRuns(View());
      found := secret in secrets;
      if found {
        CancelPendingForSecret(secret);
        secrets := secrets - {secret};
        extensions := map id | id in extensions :: WithoutSecret(extensions[id], secret);
      }
    }

    // A pending intent is looked at again before it runs: everything it pins must still be there.
    method StartIntent(id: string) returns (problem: Option<Problem>)
      requires ProjectInv(View())
      modifies this`intents, this`runs
      ensures ProjectInv(View()) && View() == Start(old(View()), id) && problem == StartProblem(old(View()), id)
    {
      hide ProjectInv, Move, RunsOk;
      ActKeeps(View(), StartEvent(id));
      KeepsRuns(View());
      if id !in intents || intents[id].extension !in extensions || intents[id].revision !in extensions[intents[id].extension].revisions {
        return Some(NotFound);
      }
      var i := intents[id];
      var e := extensions[i.extension];
      if i.status != Pending || !e.enabled {
        return Some(Conflict);
      }
      if i.binding !in e.bindings.Values {
        return Some(Conflict);
      }
      if exists alias | alias in i.secrets :: i.secrets[alias] !in secrets {
        return Some(SecretNotAvailable);
      }
      if exists g | g in i.grants :: g !in e.grants.Values {
        return Some(Conflict);
      }
      MoveIntent(id, Pending, Running);
      problem := None;
    }

    method AddExtension(id: string, source: string) returns (problem: Option<Problem>)
      requires ProjectInv(View()) && id !in extensions
      modifies this`extensions
      ensures ProjectInv(View()) && View() == CreateExtension(old(View()), id, source) && (problem.None? <==> !IsBlank(source))
    {
      hide ProjectInv;
      CreateKeeps(View(), id, source);
      if IsBlank(source) {
        return Some(Invalid);
      }
      extensions := extensions[id := Extension(false, 1, source, map[1 := source], map[], map[], map[])];
      problem := None;
    }

    // Disabling cancels what is pending, whatever it pins.
    method DisableExtension(id: string) returns (found: bool)
      requires ProjectInv(View())
      modifies this`extensions, this`intents, this`runs
      ensures ProjectInv(View()) && View() == Disable(old(View()), id) && found == (id in old(extensions))
    {
      hide ProjectInv, RunsOk, Move;
      DisableKeeps(View(), id);
      KeepsRuns(View());
      found := id in extensions;
      if found {
        extensions := extensions[id := extensions[id].(enabled := false)];
        CancelExtension(id);
      }
    }

    method CancelExtension(id: string)
      requires RunsOk(intents, runs)
      modifies this`intents, this`runs
      ensures View() == Move(old(View()), PendingOf(old(View()), id), Cancelled)
    {
      hide RunsOk, SetStatus, SetRuns;
      ghost var s := View();
      var cancelled := map i | i in intents ::
        if intents[i].extension == id && intents[i].status == Pending then intents[i].(status := Cancelled) else intents[i];
      var ended := map i | i in runs ::
        if i in intents && intents[i].extension == id && runs[i] == Pending then Cancelled else runs[i];
      DisabledRows(s, id, cancelled, ended);
      intents, runs := cancelled, ended;
    }

    // The intent of a committed change, pinned to what its extension is configured with now.
    method AppendIntent(id: string, collection: string, operation: RecordOperation, event: string) returns (appended: bool)
      requires ProjectInv(View()) && id !in intents
      modifies this`intents, this`runs
      ensures ProjectInv(View()) && View() == Append(old(View()), id, collection, operation, event)
      ensures appended == (id in intents)
    {
      hide ProjectInv, Append, NewIntent;
      var slot := Slot(collection, operation, AfterCommit);
      var holder := SlotHolder(slot);
      var known := exists i | i in intents :: intents[i].event == event;
      AppendIs(View(), id, collection, operation, event, holder, known);
      appended := holder.Some? && !known;
      if appended {
        intents := intents[id := NewIntent(holder.value, extensions[holder.value], slot, event)];
        runs := runs[id := Pending];
      }
    }

    // The enabled extension that the slot is bound to, if there is one.
    method SlotHolder(slot: Slot) returns (holder: Option<string>)
      ensures holder.None? <==> forall x :: !Holds(View(), x, slot)
      ensures holder.Some? ==> Holds(View(), holder.value, slot)
    {
      if x :| x in extensions && extensions[x].enabled && slot in extensions[x].bindings {
        assert Holds(View(), x, slot);
        holder := Some(x);
      } else {
        holder := None;
      }
    }

    method FinishIntent(id: string, status: Status)
      requires ProjectInv(View()) && id in intents && status != Pending && status != Running
      modifies this`intents, this`runs
      ensures ProjectInv(View()) && View() == Finish(old(View()), id, status)
    {
      hide ProjectInv, Move, RunsOk;
      ActKeeps(View(), FinishEvent(id, status));
      KeepsRuns(View());
      MoveIntent(id, Running, status);
    }

    method FailPendingIntent(id: string)
      requires ProjectInv(View()) && id in intents
      modifies this`intents, this`runs
      ensures ProjectInv(View()) && View() == FailPending(old(View()), id)
    {
      hide ProjectInv, Move, RunsOk;
      ActKeeps(View(), FailPendingEvent(id));
      KeepsRuns(View());
      MoveIntent(id, Pending, Failed);
    }

    // The run of a Before hook, from its start to its end.
    method StartBeforeRun(run: string)
      requires ProjectInv(View()) && run !in before
      modifies this`before
      ensures ProjectInv(View()) && View() == StartBefore(old(View()), run)
    {
      hide ProjectInv;
      ActKeeps(View(), StartBeforeEvent(run));
      before := before[run := Running];
    }

    method FinishBeforeRun(run: string, status: Status)
      requires ProjectInv(View()) && !IsOpen(status)
      modifies this`before
      ensures ProjectInv(View()) && View() == FinishBefore(old(View()), run, status)
    {
      hide ProjectInv;
      ActKeeps(View(), FinishBeforeEvent(run, status));
      if run in before && before[run] == Running {
        before := before[run := status];
      }
    }

    // Startup, in one transaction: the open runs are read, which fails at a run without an intent; then they are interrupted, each
    // with its intent, and then every other open intent.
    method InterruptPending() returns (started: bool)
      requires ProjectInv(View()) && !open
      modifies this`intents, this`runs, this`open
      ensures ProjectInv(View()) && View() == Restart(old(View())) && started == open
      ensures started <==> forall run | run in before :: !IsOpen(before[run])
      ensures started ==> NothingOpen(View())
    {
      hide ProjectInv, RunsOk, Restart, Closed, NothingOpen, IsOpen, Interruption;
      RestartIs(View());
      ghost var s := View();
      if exists run | run in before :: IsOpen(before[run]) {
        return false;
      }
      InterruptRuns();
      InterruptRest(s);
      open := true;
      started := true;
    }

    // Every intent still open, whether or not its run is kept.
    method InterruptRest(ghost s: Project)
      requires RunsOk(s.intents, s.runs) && runs.Keys == s.runs.Keys && intents.Keys == s.intents.Keys
      requires forall i | i in runs :: runs[i] == Interruption(s.runs[i])
      requires forall i | i in intents ::
          intents[i] == s.intents[i] || intents[i] == s.intents[i].(status := Interruption(s.intents[i].status))
      modifies this`intents
      ensures (intents, runs) == (Closed(s).intents, Closed(s).runs)
    {
      hide RunsOk, Closed;
      var rest := map i | i in intents ::
        if IsOpen(intents[i].status) then intents[i].(status := Interrupted) else intents[i];
      InterruptedRows(s, rest, runs);
      intents := rest;
    }

    method InterruptRuns()
      modifies this`intents, this`runs
      ensures runs.Keys == old(runs.Keys) && intents.Keys == old(intents.Keys)
      ensures forall i | i in runs :: runs[i] == Interruption(old(runs)[i])
      ensures forall i | i in intents ::
          intents[i] == old(intents)[i] || intents[i] == old(intents)[i].(status := Interruption(old(intents)[i].status))
    {
      hide Interruption, IsOpen;
      InterruptionIs();
      var open := set i | i in runs && IsOpen(runs[i]);
      while open != {}
        invariant open <= old(runs.Keys) && runs.Keys == old(runs.Keys) && intents.Keys == old(intents.Keys)
        invariant forall i | i in runs :: runs[i] == if i in open then old(runs)[i] else Interruption(old(runs)[i])
        invariant forall i | i in intents ::
            intents[i] == old(intents)[i] || intents[i] == old(intents)[i].(status := Interruption(old(intents)[i].status))
        decreases open
      {
        var id :| id in open;
        runs := runs[id := Interrupted];
        if id in intents && IsOpen(intents[id].status) {
          intents := intents[id := intents[id].(status := Interrupted)];
        }
        open := open - {id};
      }
    }
  }

  lemma InterruptionIs()
    ensures forall status :: Interruption(status) == if IsOpen(status) then Interrupted else status
  {
  }

  // What there is to do at startup, and what comes of it.
  lemma RestartIs(s: Project)
    requires ProjectInv(s) && !s.open
    ensures ProjectInv(Restart(s)) && RunsOk(s.intents, s.runs)
    ensures if exists run | run in s.before :: IsOpen(s.before[run]) then Restart(s) == s
            else Restart(s) == s.(intents := Closed(s).intents, runs := Closed(s).runs, open := true) && NothingOpen(Restart(s))
  {
    KeepsRuns(s);
    hide ProjectInv, RunsOk, Restart, Startup, NothingOpen, IsOpen, Move;
    RestartKeeps(s);
    RestartClosesEverything(s);
    StartupIsExact(s);
    if !HookWasCut(s) {
      BeforeStays(s);
      assert s.(before := InterruptAll(s.before)) == s;
    }
  }

  lemma BeforeStays(s: Project)
    requires !HookWasCut(s)
    ensures InterruptAll(s.before) == s.before
  {
  }

  lemma InterruptedRows(s: Project, intents: map<string, Intent>, runs: map<string, Status>)
    requires RunsOk(s.intents, s.runs) && runs.Keys == s.runs.Keys && intents.Keys == s.intents.Keys
    requires forall i | i in s.runs :: runs[i] == Interruption(s.runs[i])
    requires forall i | i in s.intents :: intents[i] == s.intents[i].(status := Interruption(s.intents[i].status))
    ensures (intents, runs) == (Closed(s).intents, Closed(s).runs)
  {
    assert intents == Closed(s).intents;
    assert runs == Closed(s).runs;
  }

  // Disabling, as the two updates write it.
  lemma DisabledRows(s: Project, id: string, intents: map<string, Intent>, runs: map<string, Status>)
    requires RunsOk(s.intents, s.runs) && runs.Keys == s.runs.Keys && intents.Keys == s.intents.Keys
    requires forall i | i in s.intents ::
        intents[i] == if s.intents[i].extension == id && s.intents[i].status == Pending then s.intents[i].(status := Cancelled) else s.intents[i]
    requires forall i | i in s.runs ::
        runs[i] == if i in s.intents && s.intents[i].extension == id && s.runs[i] == Pending then Cancelled else s.runs[i]
    ensures intents == SetStatus(s.intents, PendingOf(s, id), Cancelled) && runs == SetRuns(s.runs, PendingOf(s, id), Cancelled)
  {
    assert intents == SetStatus(s.intents, PendingOf(s, id), Cancelled);
    assert runs == SetRuns(s.runs, PendingOf(s, id), Cancelled);
  }

  // The intent of a commit is that of the holder of its slot, which is the only one.
  lemma AppendIs(s: Project, id: string, collection: string, operation: RecordOperation, event: string, holder: Option<string>, known: bool)
    requires ProjectInv(s) && id !in s.intents && (known <==> exists i | i in s.intents :: s.intents[i].event == event)
    requires match holder
             case None => forall x :: !Holds(s, x, Slot(collection, operation, AfterCommit))
             case Some(x) => Holds(s, x, Slot(collection, operation, AfterCommit))
    ensures Append(s, id, collection, operation, event) ==
            if holder.None? || known then s
            else
              var intent := NewIntent(holder.value, s.extensions[holder.value], Slot(collection, operation, AfterCommit), event);
              s.(intents := s.intents[id := intent], runs := s.runs[id := Pending])
    ensures ProjectInv(Append(s, id, collection, operation, event))
  {
    hide ProjectInv, NewIntent;
    AppendKeeps(s, id, collection, operation, event);
    HolderIsOnly(s, Slot(collection, operation, AfterCommit));
  }

  // The lookup of a slot has one answer.
  lemma HolderIsOnly(s: Project, slot: Slot)
    requires ProjectInv(s)
    ensures forall x, y | Holds(s, x, slot) && Holds(s, y, slot) :: x == y
  {
  }

  lemma NewIdsCover(s: Project, extension: string, c: Config, newBindings: map<Slot, string>, newGrants: map<string, string>)
    requires extension in s.extensions && FreshConfig(s, extension, c, newBindings, newGrants)
    ensures forall b | b in c.bindings && b !in s.extensions[extension].bindings :: b in newBindings
    ensures forall o | o in c.origins && o !in s.extensions[extension].grants :: o in newGrants
  {
  }

  lemma KeepsRuns(s: Project)
    requires ProjectInv(s)
    ensures RunsOk(s.intents, s.runs)
  {
  }

  // One turn of the cancelling loop.
  lemma CancelNext(s: Project, extension: string, gone: set<string>, pending: set<string>, id: string)
    requires extension in s.extensions && gone == Uncovered(s, extension) && id in pending && pending <= PendingOf(s, extension)
    ensures var t := Move(s, gone - pending, Cancelled);
            && id in t.intents && t.intents[id].status == Pending
            && (if Invalidated(s.extensions[extension], t.intents[id]) then
                  Move(s, gone - (pending - {id}), Cancelled) == Move(t, {id}, Cancelled)
                else Move(s, gone - (pending - {id}), Cancelled) == t)
  {
    MovedSoFar(s, gone - pending, id);
    MoveOneMore(s, gone - pending, id, Cancelled);
    hide Move, Invalidated;
    if id in gone {
      assert gone - (pending - {id}) == gone - pending + {id};
    } else {
      assert gone - (pending - {id}) == gone - pending;
    }
  }

  lemma MovedSoFar(s: Project, moved: set<string>, id: string)
    requires id in s.intents && id !in moved
    ensures id in Move(s, moved, Cancelled).intents && Move(s, moved, Cancelled).intents[id] == s.intents[id]
  {
  }

  lemma MoveOneMore(s: Project, moved: set<string>, id: string, status: Status)
    ensures Move(Move(s, moved, status), {id}, status) == Move(s, moved + {id}, status)
  {
    hide SetStatus, SetRuns;
    StatusOneMore(s.intents, moved, id, status);
    RunsOneMore(s.runs, moved, id, status);
  }

  lemma StatusOneMore(intents: map<string, Intent>, moved: set<string>, id: string, status: Status)
    ensures SetStatus(SetStatus(intents, moved, status), {id}, status) == SetStatus(intents, moved + {id}, status)
  {
  }

  lemma RunsOneMore(runs: map<string, Status>, moved: set<string>, id: string, status: Status)
    ensures SetRuns(SetRuns(runs, moved, status), {id}, status) == SetRuns(runs, moved + {id}, status)
  {
  }

  // The rows of one intent, as two updates write them.
  lemma MovedRows(intents: map<string, Intent>, runs: map<string, Status>, id: string, to: Status)
    requires RunsOk(intents, runs) && id in intents
    ensures SetStatus(intents, {id}, to) == intents[id := intents[id].(status := to)]
    ensures SetRuns(runs, {id}, to) == if id in runs then runs[id := to] else runs
  {
  }
}