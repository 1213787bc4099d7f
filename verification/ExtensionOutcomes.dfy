/**
 What each change of an extension leaves in its rows, its revisions and its intents, written out; and which source an intent runs.
 */
module ExtensionOutcomes {
  import opened Prelude
  import opened Extensions

  /* ----- revisions ----- */

  // Revisions are numbered from one on, and the active one, the last, stores the source.
  ghost predicate RevisionsOk(e: Extension) {
    && (forall r :: r in e.revisions <==> 1 <= r <= e.revision)
    && e.revision in e.revisions && e.revisions[e.revision] == e.source
  }

  // The revision an intent pins is stored.
  ghost predicate PinsRevision(s: Project, i: Intent) {
    i.extension in s.extensions && i.revision in s.extensions[i.extension].revisions
  }

  ghost predicate SourcesOk(s: Project) {
    && (forall x | x in s.extensions :: RevisionsOk(s.extensions[x]))
    && (forall i | i in s.intents :: PinsRevision(s, s.intents[i]))
  }

  // Extensions stay, with every revision they ever had.
  ghost predicate KeepsRevisions(s: Project, t: Project) {
    forall x | x in s.extensions ::
      x in t.extensions && forall r | r in s.extensions[x].revisions ::
        r in t.extensions[x].revisions && t.extensions[x].revisions[r] == s.extensions[x].revisions[r]
  }

  // A replacement that succeeds stores the new source under the active revision, which is a new one exactly if the source has changed;
  // the earlier revisions are as they were.
  lemma ReplacementStoresItsSource(s: Project, extension: string, c: Config, newBindings: map<Slot, string>, newGrants: map<string, string>)
    requires SourcesOk(s) && ReplaceProblem(s, extension, c).None? && extension in s.extensions
    requires FreshConfig(s, extension, c, newBindings, newGrants)
    ensures var t, had := Replace(s, extension, c, newBindings, newGrants), s.extensions[extension];
            && extension in t.extensions
            && var e := t.extensions[extension];
            && e.source == c.source && e.enabled == had.enabled
            && e.revision == had.revision + (if c.source == had.source then 0 else 1)
            && e.revision in e.revisions && e.revisions[e.revision] == c.source
            && (forall r | r in had.revisions :: r in e.revisions && e.revisions[r] == had.revisions[r])
            && (forall r | r in e.revisions :: r in had.revisions || r == e.revision)
            && (forall x | x in s.extensions && x != extension :: x in t.extensions && t.extensions[x] == s.extensions[x])
  {
    hide ReplaceProblem, FreshConfig, Renamed, SecretMap;
    assert RevisionsOk(s.extensions[extension]);
  }

  lemma ReplaceKeepsSources(s: Project, extension: string, c: Config, newBindings: map<Slot, string>, newGrants: map<string, string>)
    requires SourcesOk(s)
    ensures SourcesOk(Replace(s, extension, c, newBindings, newGrants)) && KeepsRevisions(s, Replace(s, extension, c, newBindings, newGrants))
  {
    hide FreshConfig, Reconfigured, ValidConfig, BindingsFit, SecretsExist, SlotsFree, RevisionsOk, PinsRevision, Uncovered, SetStatus, SetRuns;
    var t := Replace(s, extension, c, newBindings, newGrants);
    if t != s {
      ReconfiguredKeeps(s.extensions[extension], c, newBindings, newGrants);
      IntentsStayPinned(s, t);
    }
  }

  lemma ReconfiguredKeeps(had: Extension, c: Config, newBindings: map<Slot, string>, newGrants: map<string, string>)
    requires RevisionsOk(had)
    ensures var e := Reconfigured(had, c, newBindings, newGrants);
            RevisionsOk(e) && forall r | r in had.revisions :: r in e.revisions && e.revisions[r] == had.revisions[r]
  {
    hide Renamed, SecretMap;
  }

  // Intents move in their status only, and what they pin is kept.
  lemma IntentsStayPinned(s: Project, t: Project)
    requires SourcesOk(s) && KeepsRevisions(s, t) && t.intents.Keys == s.intents.Keys
    requires forall i | i in s.intents :: (t.intents[i].extension, t.intents[i].revision) == (s.intents[i].extension, s.intents[i].revision)
    ensures forall i | i in t.intents :: PinsRevision(t, t.intents[i])
  {
    hide RevisionsOk;
    forall i | i in t.intents ensures PinsRevision(t, t.intents[i]) { assert PinsRevision(s, s.intents[i]); }
  }

  // Sources and revisions are as they were.
  ghost predicate SameSources(s: Project, t: Project) {
    && t.extensions.Keys == s.extensions.Keys && t.intents.Keys == s.intents.Keys
    && (forall x | x in s.extensions ::
          (t.extensions[x].revision, t.extensions[x].source, t.extensions[x].revisions)
          == (s.extensions[x].revision, s.extensions[x].source, s.extensions[x].revisions))
    && (forall i | i in s.intents :: (t.intents[i].extension, t.intents[i].revision) == (s.intents[i].extension, s.intents[i].revision))
  }

  lemma SameSourcesStay(s: Project, t: Project)
    requires SourcesOk(s) && SameSources(s, t)
    ensures SourcesOk(t) && KeepsRevisions(s, t)
  {
    assert forall x | x in t.extensions :: RevisionsOk(s.extensions[x]);
    IntentsStayPinned(s, t);
  }

  lemma MoveKeepsSources(s: Project, t: Project, chosen: set<string>, status: Status)
    requires SameSources(s, t)
    ensures SameSources(s, Move(t, chosen, status))
  {
    hide SetStatus, SetRuns;
  }

  lemma SameRows(s: Project, t: Project)
    ensures t.extensions == s.extensions && t.intents == s.intents ==> SameSources(s, t)
  {
  }

  lemma SwitchingKeepsSources(s: Project, extension: string)
    ensures SameSources(s, Enable(s, extension)) && SameSources(s, Disable(s, extension))
  {
    hide BindingsFit, SlotsFree, PendingOf, Move, SameSources;
    SameRows(s, s);
    if extension in s.extensions {
      SwitchedKeepsSources(s, extension, true);
      SwitchedKeepsSources(s, extension, false);
      MoveKeepsSources(s, s.(extensions := s.extensions[extension := s.extensions[extension].(enabled := false)]), PendingOf(s, extension), Cancelled);
    }
  }

  lemma SwitchedKeepsSources(s: Project, extension: string, enabled: bool)
    requires extension in s.extensions
    ensures SameSources(s, s.(extensions := s.extensions[extension := s.extensions[extension].(enabled := enabled)]))
  {
  }

  lemma SecretsKeepSources(s: Project, secret: string)
    ensures SameSources(s, ReplaceSecret(s, secret)) && SameSources(s, DeleteSecret(s, secret))
  {
    hide PinnedTo, Move, SameSources;
    SameRows(s, s);
    if secret in s.secrets {
      SecretRowsKeepSources(s, secret);
      MoveKeepsSources(s, s.(secrets := s.secrets[secret := s.secrets[secret] + 1]), PinnedTo(s, secret), Cancelled);
      MoveKeepsSources(s, s.(secrets := s.secrets - {secret}, extensions := map x | x in s.extensions :: WithoutSecret(s.extensions[x], secret)),
                       PinnedTo(s, secret), Cancelled);
    }
  }

  lemma SecretRowsKeepSources(s: Project, secret: string)
    requires secret in s.secrets
    ensures SameSources(s, s.(secrets := s.secrets[secret := s.secrets[secret] + 1]))
    ensures SameSources(s, s.(secrets := s.secrets - {secret}, extensions := map x | x in s.extensions :: WithoutSecret(s.extensions[x], secret)))
  {
  }

  lemma IntentMovesKeepSources(s: Project, id: string, status: Status)
    ensures SameSources(s, Start(s, id)) && SameSources(s, Finish(s, id, status)) && SameSources(s, FailPending(s, id))
    ensures SameSources(s, Restart(s))
  {
    hide StartProblem, HookWasCut, OpenIntents, Move, SameSources;
    SameRows(s, s);
    MoveKeepsSources(s, s, {id}, Running);
    MoveKeepsSources(s, s, {id}, status);
    MoveKeepsSources(s, s, {id}, Failed);
    MoveKeepsSources(s, s, OpenIntents(s), Interrupted);
    OpeningKeepsSources(s, Move(s, OpenIntents(s), Interrupted));
  }

  lemma OpeningKeepsSources(s: Project, t: Project)
    requires SameSources(s, t)
    ensures SameSources(s, t.(open := true))
  {
  }

  lemma CreationKeepsSources(s: Project, id: string, source: string)
    requires SourcesOk(s)
    ensures SourcesOk(CreateExtension(s, id, source)) && KeepsRevisions(s, CreateExtension(s, id, source))
  {
    hide IsBlank, PinsRevision;
    var t := CreateExtension(s, id, source);
    if t != s {
      assert RevisionsOk(t.extensions[id]);
      hide RevisionsOk;
      IntentsStayPinned(s, t);
    }
  }

  lemma AppendKeepsSources(s: Project, id: string, collection: string, operation: RecordOperation, event: string)
    requires SourcesOk(s)
    ensures var t := Append(s, id, collection, operation, event);
            SourcesOk(t) && KeepsRevisions(s, t)
  {
    hide RevisionsOk;
    var t := Append(s, id, collection, operation, event);
    if t != s {
      assert RevisionsOk(s.extensions[t.intents[id].extension]);
      ActiveIsStored(s.extensions[t.intents[id].extension]);
      assert PinsRevision(t, t.intents[id]);
      forall i | i in s.intents ensures PinsRevision(t, t.intents[i]) { if i != id { assert PinsRevision(s, s.intents[i]); } }
    }
  }

  lemma ActiveIsStored(e: Extension)
    requires RevisionsOk(e)
    ensures e.revision in e.revisions && e.revisions[e.revision] == e.source
  {
  }

  lemma StepKeepsSources(s: Project, e: Event)
    requires SourcesOk(s)
    ensures SourcesOk(Step(s, e)) && KeepsRevisions(s, Step(s, e))
  {
    hide SourcesOk, KeepsRevisions, SameSources, Restart, CreateExtension, Replace, Enable, Disable, ReplaceSecret, DeleteSecret, Append, Start,
      Finish, FailPending;
    var t := Step(s, e);
    SameRows(s, t);
    OneStays(s, t);
    OneStays(s, s);
    SameRows(s, s);
    match e
    case CreateEvent(extension, source) => CreationKeepsSources(s, extension, source);
    case AppendEvent(intent, collection, operation, event) => AppendKeepsSources(s, intent, collection, operation, event);
    case ReplaceEvent(extension, c, newBindings, newGrants) => ReplaceKeepsSources(s, extension, c, newBindings, newGrants);
    case EnableEvent(extension) => SwitchingKeepsSources(s, extension);
    case DisableEvent(extension) => SwitchingKeepsSources(s, extension);
    case ReplaceSecretEvent(secret) => SecretsKeepSources(s, secret);
    case DeleteSecretEvent(secret) => SecretsKeepSources(s, secret);
    case StartEvent(intent) => IntentMovesKeepSources(s, intent, Failed);
    case FinishEvent(intent, status) => IntentMovesKeepSources(s, intent, status);
    case FailPendingEvent(intent) => IntentMovesKeepSources(s, intent, Failed);
    case RestartEvent => IntentMovesKeepSources(s, "", Failed);
    case _ =>
  }

  lemma OneStays(s: Project, t: Project)
    requires SourcesOk(s)
    ensures SameSources(s, t) ==> SourcesOk(t) && KeepsRevisions(s, t)
  {
    if SameSources(s, t) { SameSourcesStay(s, t); }
  }

  lemma {:induction false} RunKeepsSources(s: Project, events: seq<Event>)
    requires SourcesOk(s)
    ensures SourcesOk(Run(s, events)) && KeepsRevisions(s, Run(s, events))
    decreases |events|
  {
    hide SourcesOk, Step;
    if events != [] {
      StepKeepsSources(s, events[0]);
      RunKeepsSources(Step(s, events[0]), events[1..]);
    }
  }

  // In every reachable state the active revision of an extension stores its source, and every intent pins a stored revision.
  lemma ActiveRevisionStoresTheSource(events: seq<Event>)
    ensures var s := Run(EMPTY, events);
            && (forall x | x in s.extensions ::
                  var e := s.extensions[x]; e.revision in e.revisions && e.revisions[e.revision] == e.source)
            && (forall i | i in s.intents ::
                  s.intents[i].extension in s.extensions && s.intents[i].revision in s.extensions[s.intents[i].extension].revisions)
  {
    assert SourcesOk(EMPTY);
    RunKeepsSources(EMPTY, events);
    var s := Run(EMPTY, events);
    hide Run;
    forall x | x in s.extensions { ActiveIsStored(s.extensions[x]); }
    assert forall i | i in s.intents :: PinsRevision(s, s.intents[i]);
  }

  // The source an intent runs is the one it pinned: whatever happens, its revision stores the same text.
  lemma PinnedSourceStays(s: Project, events: seq<Event>, id: string)
    requires SourcesOk(s) && id in s.intents
    ensures var t := Run(s, events);
            && id in t.intents && PinsRevision(s, s.intents[id]) && PinsRevision(t, t.intents[id])
            && t.extensions[t.intents[id].extension].revisions[t.intents[id].revision]
               == s.extensions[s.intents[id].extension].revisions[s.intents[id].revision]
  {
    hide Run, RevisionsOk;
    RunKeepsSources(s, events);
    IntentsOnlyAdvance(s, events, id);
  }

  /* ----- configurations ----- */

  // A configuration is well formed exactly if its source is not blank, it has at most 18 slots and 32 origins, no slot, alias or origin
  // is given twice, and every ID in it has between 1 and 128 bytes.
  lemma ConfigIsValidExactly(c: Config)
    ensures ValidConfig(c) <==>
              && !IsBlank(c.source) && |c.bindings| <= 18 && |c.origins| <= 32
              && |SlotsOf(c.bindings)| == |c.bindings| && |OriginsOf(c.origins)| == |c.origins|
              && |set x | x in c.secrets :: x.0| == |c.secrets|
              && (forall b | b in c.bindings :: 1 <= Utf8Length(b.collection) <= 128) && (forall x | x in c.secrets :: 1 <= Utf8Length(x.1) <= 128)
  {
    DistinctIsCounted(c.bindings, SlotsOf(c.bindings));
    DistinctIsCounted(c.origins, OriginsOf(c.origins));
    AliasesAreCounted(c.secrets);
    hide IsBlank, Utf8Length, SlotsOf, OriginsOf;
    assert (forall b | b in c.bindings :: 1 <= Utf8Length(b.collection) <= 128) <==>
           forall i | 0 <= i < |c.bindings| :: 1 <= Utf8Length(c.bindings[i].collection) <= 128;
    assert (forall x | x in c.secrets :: 1 <= Utf8Length(x.1) <= 128) <==>
           forall i | 0 <= i < |c.secrets| :: 1 <= Utf8Length(c.secrets[i].1) <= 128;
  }

  // As many members as places means that no two places are equal.
  lemma {:induction false} DistinctIsCounted<T>(items: seq<T>, members: set<T>)
    requires members == set x | x in items
    ensures |members| <= |items|
    ensures |members| == |items| <==> forall i, j | 0 <= i < j < |items| :: items[i] != items[j]
  {
    if items != [] {
      var front, last := items[..|items| - 1], items[|items| - 1];
      var fewer := set x | x in front;
      DistinctIsCounted(front, fewer);
      assert members == fewer + {last};
      assert last in fewer <==> exists i :: 0 <= i < |items| - 1 && items[i] == last;
    }
  }

  lemma AliasesAreCounted(secrets: seq<(string, string)>)
    ensures |set x | x in secrets :: x.0| == |secrets| <==> forall i, j | 0 <= i < j < |secrets| :: secrets[i].0 != secrets[j].0
  {
    var aliases := seq(|secrets|, i requires 0 <= i < |secrets| => secrets[i].0);
    DistinctIsCounted(aliases, set x | x in aliases);
    forall x | x in secrets
      ensures x.0 in aliases
    {
      var i :| 0 <= i < |secrets| && secrets[i] == x;
      assert aliases[i] == x.0;
    }
    forall a | a in aliases
      ensures a in set x | x in secrets :: x.0
    {
      var i :| 0 <= i < |aliases| && aliases[i] == a;
      assert secrets[i] in secrets;
    }
    assert (set x | x in aliases) == set x | x in secrets :: x.0;
    assert forall i, j | 0 <= i < j < |secrets| :: aliases[i] != aliases[j] <==> secrets[i].0 != secrets[j].0;
  }

  // Every slot is of an existing collection, and of an Auth collection only for creations.
  ghost predicate SlotsFit(s: Project, slots: set<Slot>) {
    forall b | b in slots :: b.collection in s.collections && (s.collections[b.collection] ==> b.operation == OnCreate)
  }

  // Another enabled extension has one of the slots.
  ghost predicate SlotsClash(s: Project, extension: string, slots: set<Slot>) {
    exists x, b :: b in slots && x in s.extensions && x != extension && s.extensions[x].enabled && b in s.extensions[x].bindings
  }

  // What stands against a replacement, in the order it is looked at: the configuration itself, the extension, its slots, for an enabled one
  // its secrets and then the slots of others, and for any its secrets.
  lemma ReplacementIsRefusedExactly(s: Project, extension: string, c: Config)
    ensures var slots := SlotsOf(c.bindings);
            var known := forall x | x in c.secrets :: x.1 in s.secrets;
            ReplaceProblem(s, extension, c) ==
            if !ValidConfig(c) then Some(Invalid)
            else if extension !in s.extensions then Some(NotFound)
            else if !SlotsFit(s, slots) then Some(Invalid)
            else if !s.extensions[extension].enabled then if known then None else Some(Conflict)
            else if !known then Some(Invalid)
            else if SlotsClash(s, extension, slots) then Some(SlotTaken) else None
  {
    hide ValidConfig, SlotsOf;
  }

  // The rows a replacement leaves: the slots, aliases and origins of the configuration and no others; a slot or an origin that stays keeps
  // its ID, one that is new has the ID drawn for it, and an alias has the secret given for it.
  lemma ReplacementRows(s: Project, extension: string, c: Config, newBindings: map<Slot, string>, newGrants: map<string, string>)
    requires ReplaceProblem(s, extension, c).None? && extension in s.extensions && FreshConfig(s, extension, c, newBindings, newGrants)
    ensures var t, had := Replace(s, extension, c, newBindings, newGrants), s.extensions[extension];
            && extension in t.extensions && t.ids == s.ids + newBindings.Values + newGrants.Values
            && (t.before, t.secrets, t.collections, t.open) == (s.before, s.secrets, s.collections, s.open)
            && var e := t.extensions[extension];
            && (forall b :: b in e.bindings <==> b in c.bindings) && (forall o :: o in e.grants <==> o in c.origins)
            && (forall alias, secret :: alias in e.secrets && e.secrets[alias] == secret <==> (alias, secret) in c.secrets)
            && (forall b | b in e.bindings ::
                  if b in had.bindings then e.bindings[b] == had.bindings[b] else b in newBindings && e.bindings[b] == newBindings[b])
            && (forall o | o in e.grants ::
                  if o in had.grants then e.grants[o] == had.grants[o] else o in newGrants && e.grants[o] == newGrants[o])
  {
    hide Uncovered, SetStatus, SetRuns, BindingsFit, SecretsExist, SlotsFree;
    SecretMapIs(c.secrets);
    hide SecretMap;
  }

  /* ----- turning on and off ----- */

  // An extension is turned on if its slots fit and no other enabled one has them; nothing else of it moves.
  lemma EnablingIsExact(s: Project, id: string)
    ensures EnableProblem(s, id) == Some(NotFound) <==> id !in s.extensions
    ensures id in s.extensions ==>
              var e := s.extensions[id];
              var slots := e.bindings.Keys;
              && EnableProblem(s, id) ==
                 (if !SlotsFit(s, slots) then Some(Invalid) else if SlotsClash(s, id, slots) then Some(SlotTaken) else None)
              && Enable(s, id) ==
                 if !SlotsFit(s, slots) || SlotsClash(s, id, slots) then s
                 else s.(extensions := s.extensions[id := Extension(true, e.revision, e.source, e.revisions, e.bindings, e.secrets, e.grants)])
  {
  }

  // The intent and, while it is kept, its run, moved to a status.
  ghost predicate MovesTo(s: Project, t: Project, id: string, status: Status) {
    && id in s.intents && id in t.intents && t.intents[id] == s.intents[id].(status := status)
    && (id in s.runs ==> id in t.runs && t.runs[id] == status)
  }

  ghost predicate Rests(s: Project, t: Project, id: string) {
    && (id in s.intents <==> id in t.intents) && (id in s.intents ==> t.intents[id] == s.intents[id])
    && (id in s.runs <==> id in t.runs) && (id in s.runs ==> t.runs[id] == s.runs[id])
  }

  lemma MovesExactly(s: Project, t: Project, chosen: set<string>, status: Status, id: string)
    requires (t.intents, t.runs) == (s.intents, s.runs)
    ensures if id in chosen && id in s.intents then MovesTo(s, Move(t, chosen, status), id, status)
            else id in chosen || Rests(s, Move(t, chosen, status), id)
  {
    hide SetStatus, SetRuns;
  }

  // Turning an extension off cancels what is pending of it, and nothing else.
  lemma DisablingIsExact(s: Project, extension: string, id: string)
    requires extension in s.extensions
    ensures var t, e := Disable(s, extension), s.extensions[extension];
            && t == s.(intents := t.intents, runs := t.runs,
                       extensions := s.extensions[extension := Extension(false, e.revision, e.source, e.revisions, e.bindings, e.secrets, e.grants)])
            && if id in s.intents && s.intents[id].extension == extension && s.intents[id].status == Pending
               then MovesTo(s, t, id, Cancelled) else Rests(s, t, id)
  {
    hide Move, MovesTo, Rests;
    var u := s.(extensions := s.extensions[extension := s.extensions[extension].(enabled := false)]);
    MovesExactly(s, u, PendingOf(s, extension), Cancelled, id);
    MoveFrame(u, PendingOf(s, extension), Cancelled);
  }

  lemma MoveFrame(s: Project, chosen: set<string>, status: Status)
    ensures Move(s, chosen, status) == s.(intents := Move(s, chosen, status).intents, runs := Move(s, chosen, status).runs)
  {
  }

  /* ----- secrets ----- */

  // The intent waits, and pins the secret.
  ghost predicate WaitsFor(s: Project, id: string, secret: string) {
    && id in s.intents && s.intents[id].status == Pending
    && exists alias :: alias in s.intents[id].secrets && s.intents[id].secrets[alias] == secret
  }

  // A new value of a secret counts one version, and cancels what waits for it and nothing else.
  lemma NewValueIsExact(s: Project, secret: string, id: string)
    requires secret in s.secrets
    ensures var t := ReplaceSecret(s, secret);
            && t == s.(intents := t.intents, runs := t.runs, secrets := s.secrets[secret := s.secrets[secret] + 1])
            && if WaitsFor(s, id, secret) then MovesTo(s, t, id, Cancelled) else Rests(s, t, id)
  {
    hide Move, MovesTo, Rests;
    var u := s.(secrets := s.secrets[secret := s.secrets[secret] + 1]);
    MovesExactly(s, u, PinnedTo(s, secret), Cancelled, id);
    MoveFrame(u, PinnedTo(s, secret), Cancelled);
    WaitingIsPinned(s, id, secret);
  }

  lemma WaitingIsPinned(s: Project, id: string, secret: string)
    ensures WaitsFor(s, id, secret) <==> id in PinnedTo(s, secret)
    ensures id in PinnedTo(s, secret) ==> id in s.intents
  {
  }

  // A deleted secret leaves every extension, with the aliases it had, and so does what waits for it, and nothing else.
  lemma SecretLeavesExactly(s: Project, secret: string, id: string)
    requires secret in s.secrets
    ensures var t := DeleteSecret(s, secret);
            && t == s.(intents := t.intents, runs := t.runs, secrets := s.secrets - {secret}, extensions := t.extensions)
            && t.extensions.Keys == s.extensions.Keys
            && (forall x | x in s.extensions :: WithoutAliases(s.extensions[x], t.extensions[x], secret))
            && if WaitsFor(s, id, secret) then MovesTo(s, t, id, Cancelled) else Rests(s, t, id)
  {
    hide Move, MovesTo, Rests, WithoutSecret, WithoutAliases, WaitsFor, PinnedTo;
    var u := s.(secrets := s.secrets - {secret}, extensions := map x | x in s.extensions :: WithoutSecret(s.extensions[x], secret));
    MovesExactly(s, u, PinnedTo(s, secret), Cancelled, id);
    MoveFrame(u, PinnedTo(s, secret), Cancelled);
    WaitingIsPinned(s, id, secret);
    forall x | x in s.extensions
      ensures WithoutAliases(s.extensions[x], u.extensions[x], secret)
    {
      AliasesLeave(s.extensions[x], secret);
    }
  }

  ghost predicate WithoutAliases(e: Extension, f: Extension, secret: string) {
    && f == e.(secrets := f.secrets)
    && forall alias :: (alias in f.secrets <==> alias in e.secrets && e.secrets[alias] != secret)
                       && (alias in f.secrets ==> f.secrets[alias] == e.secrets[alias])
  }

  lemma AliasesLeave(e: Extension, secret: string)
    ensures WithoutAliases(e, WithoutSecret(e, secret), secret)
  {
  }

  /* ----- intents ----- */

  // A committed change leaves an intent for the enabled extension that has its slot, unless its event has left one already: it pins the
  // active revision, the ID of the slot, the secrets and the grants of the moment, and waits, with its run.
  lemma AppendingIsExact(s: Project, id: string, collection: string, operation: RecordOperation, event: string, x: string)
    requires ProjectInv(s) && id !in s.intents
    ensures var slot := Slot(collection, operation, AfterCommit);
            var known := exists i :: i in s.intents && s.intents[i].event == event;
            && (known || (forall y :: !Holds(s, y, slot)) ==> Append(s, id, collection, operation, event) == s)
            && (!known && x in s.extensions && s.extensions[x].enabled && slot in s.extensions[x].bindings ==>
                  var e := s.extensions[x];
                  Append(s, id, collection, operation, event) ==
                  s.(intents := s.intents[id := Intent(x, e.revision, e.bindings[slot], slot, event, e.secrets, e.grants.Values, Pending)],
                     runs := s.runs[id := Pending]))
  {
    hide ExtensionOk, Authorised;
    var slot := Slot(collection, operation, AfterCommit);
    assert forall y | Holds(s, x, slot) && Holds(s, y, slot) :: x == y;
    hide ProjectInv;
  }

  // A pending intent starts, and nothing else does.
  lemma StartingIsExact(s: Project, id: string)
    requires ProjectInv(s) && SourcesOk(s)
    ensures id !in s.intents ==> StartProblem(s, id) == Some(NotFound) && Start(s, id) == s
    ensures id in s.intents ==>
              if s.intents[id].status == Pending then StartProblem(s, id) == None && Start(s, id) == Move(s, {id}, Running)
              else StartProblem(s, id) == Some(Conflict) && Start(s, id) == s
  {
    hide ExtensionOk, SlotsDisjoint, RevisionsOk;
    if id in s.intents {
      assert PinsRevision(s, s.intents[id]);
      if s.intents[id].status == Pending { AuthorisedStarts(s, id); }
    }
  }

  // A running intent ends in the status it is given, a pending one may fail, and every other intent stays as it is.
  lemma EndingIsExact(s: Project, id: string, status: Status, other: string)
    requires id in s.intents && status != Pending && status != Running
    ensures if s.intents[id].status == Running then MovesTo(s, Finish(s, id, status), id, status) else Finish(s, id, status) == s
    ensures if s.intents[id].status == Pending then MovesTo(s, FailPending(s, id), id, Failed) else FailPending(s, id) == s
    ensures s.intents[id].status == Pending && StartProblem(s, id).None? ==> MovesTo(s, Start(s, id), id, Running)
    ensures other != id ==> Rests(s, Finish(s, id, status), other) && Rests(s, FailPending(s, id), other) && Rests(s, Start(s, id), other)
  {
    hide SetStatus, SetRuns, StartProblem;
  }

  // A service that starts has interrupted what was pending or running, and nothing else.
  lemma StartupMovesExactly(s: Project, id: string)
    requires !s.open && forall run | run in s.before :: s.before[run] != Pending && s.before[run] != Running
    ensures var t := Restart(s);
            && t == s.(intents := t.intents, runs := t.runs, open := true)
            && if id in s.intents && (s.intents[id].status == Pending || s.intents[id].status == Running)
               then MovesTo(s, t, id, Interrupted) else Rests(s, t, id)
  {
    hide SetStatus, SetRuns;
  }

  /* ----- Before hooks ----- */

  // The run of a Before hook starts as running, and ends once, in the status it is given.
  lemma BeforeRunsAreExact(s: Project, run: string, status: Status)
    requires status != Pending && status != Running
    ensures StartBefore(s, run) == if run in s.before then s else s.(before := s.before[run := Running])
    ensures FinishBefore(s, run, status) ==
            if run in s.before && s.before[run] == Running then s.(before := s.before[run := status]) else s
  {
  }
}
