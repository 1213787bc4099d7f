/**
 What logging in, changing and setting a password, registering and recovering answer and leave in the rows, written out; and that every
 session goes back to a login with the right password.
 */
module AuthOutcomes {
  import opened Prelude
  import opened AppAuth

  // The configuration lets users in by email and password.
  ghost predicate LetsIn(c: AuthCollection) {
    c.enabled && c.sessionDays >= 1 && (c.verification == Off || c.verification == Optional || c.verification == Required)
  }

  /* ----- login ----- */

  // The email and the password are those of the user's credential.
  ghost predicate Presents(s: Auth, user: User, email: string, password: string) {
    user in s.credentials && s.credentials[user].email == email && s.credentials[user].password == password
  }

  // A login is recorded exactly if it presents the email and the password of its user, in a collection that lets users in, and the email is
  // verified where it must be; it remembers the credential and the schema version it saw.
  lemma LoginIsExact(s: Auth, op: nat, user: User, email: string, password: string)
    ensures BeginLogin(s, op, user, email, password) ==
            if op !in s.logins && 1 <= Utf8Length(password) <= 1024 && Presents(s, user, email, password)
               && user.collection in s.collections && LetsIn(s.collections[user.collection])
               && (s.credentials[user].verified || s.collections[user.collection].verification != Required)
            then s.(logins := s.logins[op := LoginFlow(user, email, s.credentials[user], s.collections[user.collection].schema)])
            else s
  {
  }

  // The transaction opens a session exactly if all of that still stands, under the same schema version and the same salt, for a user with a
  // profile; the session ends after the days configured now.
  lemma SessionIsExact(s: Auth, op: nat, session: string, now: int)
    requires op in s.logins && session !in s.sessions
    ensures var f := s.logins[op];
            var ended := s.(logins := s.logins - {op});
            CommitLogin(s, op, session, now) ==
            if f.user.collection in s.collections && s.collections[f.user.collection].schema == f.schema && LetsIn(s.collections[f.user.collection])
               && Presents(s, f.user, f.email, f.seen.password) && s.credentials[f.user].salt == f.seen.salt && f.user in s.profiles
               && (s.credentials[f.user].verified || s.collections[f.user.collection].verification != Required)
            then ended.(sessions := s.sessions[session := Session(f.user, now + 86_400_000_000_000 * s.collections[f.user.collection].sessionDays,
                                                                  false, f.seen.password, f.seen.version)])
            else ended
  {
  }

  /* ----- passwords ----- */

  // The rows after a password is written: the user's credential has it, under the new salt, and counts one version; every session of the
  // user is revoked; no other row moves.
  ghost predicate Rewrites(s: Auth, t: Auth, user: User, email: string, password: string, salt: nat) {
    && user in s.credentials
    && var c := s.credentials[user];
    && t.credentials == s.credentials[user := Credential(email, password, salt, c.verified, c.version + 1)]
    && SessionsRevoked(s, t, user) && t.salts == s.salts + {salt}
    && (t.collections, t.profiles, t.tokens, t.logins, t.callers, t.tokenIds) == (s.collections, s.profiles, s.tokens, s.logins, s.callers, s.tokenIds)
  }

  ghost predicate SessionsRevoked(s: Auth, t: Auth, user: User) {
    && t.sessions.Keys == s.sessions.Keys
    && forall id | id in s.sessions ::
         var x := s.sessions[id];
         t.sessions[id] == if x.user == user then Session(x.user, x.expires, true, x.password, x.version) else x
  }

  // A session that asks for a change is remembered with its user and the new password, if it is live and of the collection.
  lemma AuthenticationIsExact(s: Auth, op: nat, collection: string, session: string, password: string, now: int)
    ensures Authenticate(s, op, collection, session, password, now) ==
            if op !in s.callers && 1 <= Utf8Length(password) <= 1024 && session in s.sessions && !s.sessions[session].revoked
               && now < s.sessions[session].expires && s.sessions[session].user.collection == collection
               && collection in s.collections && s.sessions[session].user in s.profiles
            then s.(callers := s.callers[op := Caller(session, s.sessions[session].user, password)]) else s
  {
  }

  // The present password must be the credential's own.
  lemma CheckedChangeIsExact(s: Auth, op: nat, current: string, salt: nat)
    requires op in s.callers && op !in s.changes && salt !in s.salts
    ensures var caller := s.callers[op];
            var ended := s.(callers := s.callers - {op});
            BeginChange(s, op, current, salt) ==
            if caller.user in s.credentials && 1 <= Utf8Length(current) <= 1024 && s.credentials[caller.user].password == current
            then ended.(changes := s.changes[op := ChangeFlow(caller.session, caller.user, s.credentials[caller.user], caller.password, salt)],
                        salts := s.salts + {salt})
            else ended
  {
  }

  // A change takes effect exactly if its session is live and its credential still has the salt and the password that were checked; then the
  // credential has the new password under the new salt, and its email and verification are as before. Otherwise nothing moves.
  lemma ChangeIsExact(s: Auth, op: nat, now: int)
    requires op in s.changes
    ensures var t, f := CommitChange(s, op, now), s.changes[op];
            && t.changes == s.changes - {op}
            && if f.session in s.sessions && !s.sessions[f.session].revoked && now < s.sessions[f.session].expires && f.user in s.credentials
                  && s.credentials[f.user].salt == f.seen.salt && s.credentials[f.user].password == f.seen.password
               then Rewrites(s, t, f.user, s.credentials[f.user].email, f.password, f.salt)
               else t == s.(changes := s.changes - {op})
  {
  }

  // An administrator sets the password and the email of a user with a profile, under the schema version read, unless another user of the
  // collection has the email. Without a credential the user is given one, verified and in its first version.
  lemma AssignmentIsExact(s: Auth, user: User, email: string, password: string, salt: nat, schema: nat)
    requires salt !in s.salts
    ensures var t := SetPassword(s, user, email, password, salt, schema);
            var taken := exists u :: u in s.credentials && u != user && u.collection == user.collection && s.credentials[u].email == email;
            if 1 <= Utf8Length(password) <= 1024 && user.collection in s.collections && s.collections[user.collection].schema == schema
               && user in s.profiles && !taken
            then
              && t.changes == s.changes
              && if user in s.credentials then Rewrites(s, t, user, email, password, salt)
                 else
                   && t == s.(credentials := s.credentials[user := Credential(email, password, salt, true, 1)], sessions := t.sessions,
                              salts := s.salts + {salt})
                   && SessionsRevoked(s, t, user)
            else t == s
  {
    hide PutPassword, Rewrites, SessionsRevoked;
    PutIsExact(s, user, email, password, salt);
  }

  lemma PutIsExact(s: Auth, user: User, email: string, password: string, salt: nat)
    ensures var t := PutPassword(s, user, email, password, salt);
            && t.changes == s.changes
            && if user in s.credentials then Rewrites(s, t, user, email, password, salt)
               else
                 && t == s.(credentials := s.credentials[user := Credential(email, password, salt, true, 1)], sessions := t.sessions,
                            salts := s.salts + {salt})
                 && SessionsRevoked(s, t, user)
  {
    hide RevokeAll, SessionsRevoked;
    RevokedExactly(s, PutPassword(s, user, email, password, salt), user);
    if user in s.credentials {
      var c := s.credentials[user];
      var later := Credential(email, password, salt, c.verified, c.version + 1);
      assert s.credentials[user := c.(email := email)][user := later] == s.credentials[user := later];
    }
  }

  lemma RevokedExactly(s: Auth, t: Auth, user: User)
    ensures t.sessions == RevokeAll(s.sessions, user) ==> SessionsRevoked(s, t, user)
  {
  }

  /* ----- registering ----- */

  // A new user has a profile and a first credential with the password given, under an email no other user of the collection has. By an
  // administrator it is verified at once; alone it needs a collection open to that, and where the email must be verified a token is
  // issued for it.
  lemma RegistrationIsExact(s: Auth, user: User, email: string, password: string, salt: nat, byAdministrator: bool, token: string, now: int)
    requires salt !in s.salts && user !in s.profiles && user !in s.credentials && token !in s.tokenIds
    ensures var t := Register(s, user, email, password, salt, byAdministrator, token, now);
            var taken := exists u :: u in s.credentials && u != user && u.collection == user.collection && s.credentials[u].email == email;
            if user.collection in s.collections && 1 <= Utf8Length(password) <= 1024 && !taken
               && (byAdministrator || (LetsIn(s.collections[user.collection]) && s.collections[user.collection].selfRegistration))
            then
              var verified := byAdministrator || s.collections[user.collection].verification != Required;
              var added := s.(profiles := s.profiles + {user}, salts := s.salts + {salt},
                              credentials := s.credentials[user := Credential(email, password, salt, verified, 1)]);
              t == if verified then added else Issue(added, token, user, email, EmailVerification, now)
            else t == s
  {
    hide Issue;
  }

  /* ----- recovery ----- */

  // However white space is put around a text that has none at its ends, trimming gives the text.
  lemma {:induction false} TrimmingIsExact(before: string, text: string, after: string)
    requires AllSpace(before) && AllSpace(after) && (text != "" ==> !IsSpace(text[0]) && !IsSpace(text[|text| - 1]))
    ensures TrimSpace(before + text + after) == text
    decreases |before| + |after|
  {
    hide IsSpace, TrimSpace;
    if before != "" {
      LeadingGoes(before[0], before[1..] + text + after);
      assert before + text + after == [before[0]] + (before[1..] + text + after);
      TrimmingIsExact(before[1..], text, after);
    } else if after != "" && text != "" {
      TrailingGoes(text + after[..|after| - 1], after[|after| - 1]);
      assert before + text + after == text + after[..|after| - 1] + [after[|after| - 1]];
      assert text + after[..|after| - 1] == before + text + after[..|after| - 1];
      TrimmingIsExact(before, text, after[..|after| - 1]);
    } else if after != "" {
      LeadingGoes(after[0], after[1..]);
      assert before + text + after == [after[0]] + after[1..] && after[1..] == before + text + after[1..];
      TrimmingIsExact(before, text, after[1..]);
    } else {
      assert before + text + after == text;
      Untrimmed(text);
    }
  }

  lemma Untrimmed(text: string)
    requires text != "" ==> !IsSpace(text[0]) && !IsSpace(text[|text| - 1])
    ensures TrimSpace(text) == text
  {
  }

  lemma LeadingGoes(c: char, rest: string)
    requires IsSpace(c)
    ensures TrimSpace([c] + rest) == TrimSpace(rest)
  {
    hide IsSpace;
    assert ([c] + rest)[1..] == rest;
  }

  lemma TrailingGoes(rest: string, c: char)
    requires rest != "" && !IsSpace(rest[0]) && IsSpace(c)
    ensures TrimSpace(rest + [c]) == TrimSpace(rest)
  {
    hide IsSpace;
    assert (rest + [c])[..|rest|] == rest;
  }

  lemma {:induction false} TrimmedFrom(s: string) returns (before: string, after: string)
    ensures AllSpace(before) && AllSpace(after) && s == before + TrimSpace(s) + after
    decreases |s|
  {
    hide IsSpace, TrimSpace;
    if s != "" && IsSpace(s[0]) {
      LeadingGoes(s[0], s[1..]);
      assert s == [s[0]] + s[1..];
      before, after := TrimmedFrom(s[1..]);
      before := [s[0]] + before;
    } else if s != "" && IsSpace(s[|s| - 1]) {
      TrailingGoes(s[..|s| - 1], s[|s| - 1]);
      assert s == s[..|s| - 1] + [s[|s| - 1]];
      before, after := TrimmedFrom(s[..|s| - 1]);
      after := after + [s[|s| - 1]];
    } else {
      Untrimmed(s);
      before, after := "", "";
    }
  }

  predicate IsToken(token: string) {
    |token| == 36 && (token[..4] == "rst_" || token[..4] == "vfy_") && forall i | 4 <= i < 36 :: IsHex(token[i])
  }

  // A text gives a token exactly if it is one, with white space around it.
  lemma TokensAreRead(text: string, token: string)
    ensures TokenIn(text) == Some(token) <==>
            IsToken(token) && exists before, after :: AllSpace(before) && AllSpace(after) && text == before + token + after
  {
    hide TrimSpace, IsSpace, IsHex;
    if TokenIn(text) == Some(token) {
      var before, after := TrimmedFrom(text);
      assert token == TrimSpace(text);
    }
    if before, after :| IsToken(token) && AllSpace(before) && AllSpace(after) && text == before + token + after {
      TokenHasNoSpace(token);
      TrimmingIsExact(before, token, after);
    }
  }

  lemma TokenHasNoSpace(token: string)
    requires IsToken(token)
    ensures !IsSpace(token[0]) && !IsSpace(token[|token| - 1])
  {
    assert token[0] == token[..4][0] && IsHex(token[35]);
  }

  // A token is issued unless 16 of its purpose and address were issued within the last hour; it stands for half an hour.
  lemma IssueIsExact(s: Auth, id: string, user: User, email: string, purpose: Purpose, now: int)
    ensures var hour := 3_600_000_000_000;
            var recent := set k | k in s.tokens && s.tokens[k].user.collection == user.collection && s.tokens[k].email == email
                                  && s.tokens[k].purpose == purpose && now - hour <= s.tokens[k].created;
            Issue(s, id, user, email, purpose, now) ==
            if |recent| >= 16 then s
            else s.(tokens := Newest(s.tokens)[id := Token(user, email, purpose, now, now + 1_800_000_000_000, false)],
                    tokenIds := s.tokenIds + {id})
  {
    hide Newest;
    assert Recent(s.tokens, user.collection, email, purpose, now - HOUR) ==
           set k | k in s.tokens && s.tokens[k].user.collection == user.collection && s.tokens[k].email == email
                   && s.tokens[k].purpose == purpose && now - 3_600_000_000_000 <= s.tokens[k].created;
    hide Recent;
  }

  // Whom a token is issued to: a user with a credential, for a reset where passwords are on, for an email where emails are verified and this
  // one is not yet.
  lemma IssuingIsExact(s: Auth, id: string, user: User, purpose: Purpose, now: int)
    requires id !in s.tokenIds
    ensures IssueToken(s, id, user, purpose, now) ==
            if user.collection in s.collections && user in s.credentials
               && (if purpose == PasswordReset then s.collections[user.collection].enabled
                   else !s.credentials[user].verified && s.collections[user.collection].verification in {Optional, Required})
            then Issue(s, id, user, s.credentials[user].email, purpose, now) else s
  {
    hide Issue;
  }

  // The rows after a token confirms: every token of the user is used; a reset writes the password, and a verification marks the email.
  lemma ConfirmationIsExact(s: Auth, id: string, collection: string, purpose: Purpose, password: string, salt: nat, now: int)
    requires salt !in s.salts
    ensures var t := Confirm(s, id, collection, purpose, password, salt, now);
            if (purpose == PasswordReset ==> 1 <= Utf8Length(password) <= 1024) && collection in s.collections
               && id in s.tokens && s.tokens[id].user.collection == collection && s.tokens[id].purpose == purpose && !s.tokens[id].used
               && now < s.tokens[id].expires && s.tokens[id].user in s.credentials
            then
              var user := s.tokens[id].user;
              var c := s.credentials[user];
              && t.tokens.Keys == s.tokens.Keys && t.changes == s.changes
              && (forall k | k in s.tokens ::
                    t.tokens[k] == if s.tokens[k].user == user then s.tokens[k].(used := true) else s.tokens[k])
              && if purpose == PasswordReset then Rewrites(s.(tokens := t.tokens), t, user, c.email, password, salt)
                 else t == s.(tokens := t.tokens, credentials := s.credentials[user := Credential(c.email, c.password, c.salt, true, c.version)])
            else t == s
  {
  }

  // Revoking ends one session, or all of a user, and nothing else.
  lemma RevocationIsExact(s: Auth, session: string, user: User)
    ensures Step(s, RevokeEvent(session)) ==
            if session in s.sessions then s.(sessions := s.sessions[session := s.sessions[session].(revoked := true)]) else s
    ensures var t := Step(s, RevokeAllEvent(user)); t == s.(sessions := t.sessions) && SessionsRevoked(s, t, user)
  {
    hide BeginLogin, CommitLogin, Authenticate, BeginChange, CommitChange, SetPassword, Register, IssueToken, Confirm, SessionsRevoked;
    RevokedExactly(s, Step(s, RevokeAllEvent(user)), user);
  }

  /* ----- where sessions come from ----- */

  // The event is a login of the user with an email and a password that are those of the user's credential at that moment.
  ghost predicate IsLogin(events: seq<Event>, i: nat, user: User, password: string)
    requires i < |events|
  {
    && events[i].BeginLoginEvent? && events[i].user == user && events[i].password == password
    && Presents(Run(EMPTY, events[..i]), user, events[i].email, password)
  }

  ghost predicate LoggedIn(events: seq<Event>, n: nat, user: User, password: string)
    requires n <= |events|
  {
    exists i :: 0 <= i < n && IsLogin(events, i, user, password)
  }

  // Every flow and every session goes back to such a login.
  ghost predicate GoesBack(s: Auth, events: seq<Event>, n: nat)
    requires n <= |events|
  {
    && (forall op | op in s.logins :: LoggedIn(events, n, s.logins[op].user, s.logins[op].seen.password))
    && (forall id | id in s.sessions :: LoggedIn(events, n, s.sessions[id].user, s.sessions[id].password))
  }

  // Flows and sessions are among those there were, of the same users under the same passwords.
  ghost predicate AddsNone(s: Auth, t: Auth) {
    && (forall op | op in t.logins :: op in s.logins && t.logins[op] == s.logins[op])
    && (forall id | id in t.sessions ::
          id in s.sessions && (t.sessions[id].user, t.sessions[id].password) == (s.sessions[id].user, s.sessions[id].password))
  }

  // All but the two halves of a login only end sessions.
  lemma OthersAddNone(s: Auth, e: Event)
    requires !e.BeginLoginEvent? && !e.CommitLoginEvent?
    ensures AddsNone(s, Step(s, e))
  {
    hide BeginLogin, CommitLogin, Authenticate, BeginChange, CommitChange, SetPassword, Register, IssueToken, Confirm, AddsNone;
    var t := Step(s, e);
    SameAddsNone(s, t);
    match e
    case AuthenticateEvent(op, collection, session, password, now) => AuthenticationAddsNone(s, op, collection, session, password, now);
    case BeginChangeEvent(op, current, salt) => CheckAddsNone(s, op, current, salt);
    case CommitChangeEvent(op, now) => ChangeAddsNone(s, op, now);
    case SetPasswordEvent(user, email, password, salt, schema) => AssignmentAddsNone(s, user, email, password, salt, schema);
    case RegisterEvent(user, email, password, salt, byAdministrator, token, now) =>
      RegistrationAddsNone(s, user, email, password, salt, byAdministrator, token, now);
    case IssueTokenEvent(token, user, purpose, now) => IssueAddsNone(s, token, user, purpose, now);
    case ConfirmEvent(token, collection, purpose, password, salt, now) => ConfirmationAddsNone(s, token, collection, purpose, password, salt, now);
    case RevokeEvent(session) => RevocationAddsNone(s, session, User("", ""));
    case RevokeAllEvent(user) => RevocationAddsNone(s, "", user);
    case CrashEvent => CrashAddsNone(s);
    case _ =>
  }

  lemma SameAddsNone(s: Auth, t: Auth)
    ensures (t.logins, t.sessions) == (s.logins, s.sessions) ==> AddsNone(s, t)
  {
  }

  lemma AuthenticationAddsNone(s: Auth, op: nat, collection: string, session: string, password: string, now: int)
    ensures AddsNone(s, Authenticate(s, op, collection, session, password, now))
  {
    hide Authenticates, ValidPassword;
  }

  lemma CheckAddsNone(s: Auth, op: nat, current: string, salt: nat)
    ensures AddsNone(s, BeginChange(s, op, current, salt))
  {
    hide ValidPassword, Fresh;
  }

  lemma ChangeAddsNone(s: Auth, op: nat, now: int)
    ensures AddsNone(s, CommitChange(s, op, now))
  {
    hide ChangeStands;
  }

  lemma AssignmentAddsNone(s: Auth, user: User, email: string, password: string, salt: nat, schema: nat)
    ensures AddsNone(s, SetPassword(s, user, email, password, salt, schema))
  {
    hide ValidPassword, EmailTaken;
  }

  lemma RegistrationAddsNone(s: Auth, user: User, email: string, password: string, salt: nat, byAdministrator: bool, token: string, now: int)
    ensures AddsNone(s, Register(s, user, email, password, salt, byAdministrator, token, now))
  {
    hide ValidPassword, EmailTaken, MayRegister, Recent, Newest;
  }

  lemma IssueAddsNone(s: Auth, token: string, user: User, purpose: Purpose, now: int)
    ensures AddsNone(s, IssueToken(s, token, user, purpose, now))
  {
    hide MayIssue, Recent, Newest;
  }

  lemma ConfirmationAddsNone(s: Auth, token: string, collection: string, purpose: Purpose, password: string, salt: nat, now: int)
    ensures AddsNone(s, Confirm(s, token, collection, purpose, password, salt, now))
  {
    hide ValidPassword, BurnAll;
  }

  lemma RevocationAddsNone(s: Auth, session: string, user: User)
    ensures AddsNone(s, Step(s, RevokeEvent(session))) && AddsNone(s, Step(s, RevokeAllEvent(user)))
  {
    hide BeginLogin, CommitLogin, Authenticate, BeginChange, CommitChange, SetPassword, Register, IssueToken, Confirm;
  }

  lemma CrashAddsNone(s: Auth)
    ensures AddsNone(s, s.(logins := map[], callers := map[], changes := map[]))
  {
  }

  lemma {:induction false} RunOneMore(s: Auth, events: seq<Event>, n: nat)
    requires n < |events|
    ensures Run(s, events[..n + 1]) == Step(Run(s, events[..n]), events[n])
    decreases n
  {
    hide Step;
    var more := events[..n + 1];
    if n == 0 {
      assert more[1..] == [] && events[..0] == [];
    } else {
      assert more[1..] == events[1..][..n] && events[..n][1..] == events[1..][..n - 1];
      RunOneMore(Step(s, events[0]), events[1..], n - 1);
    }
  }

  lemma LoginsLast(events: seq<Event>, n: nat, user: User, password: string)
    requires n < |events|
    ensures LoggedIn(events, n, user, password) || IsLogin(events, n, user, password) ==> LoggedIn(events, n + 1, user, password)
  {
    hide IsLogin;
  }

  lemma StepGoesBack(s: Auth, events: seq<Event>, n: nat)
    requires n < |events| && s == Run(EMPTY, events[..n]) && GoesBack(s, events, n)
    ensures GoesBack(Step(s, events[n]), events, n + 1)
  {
    hide Run, LoggedIn, Step;
    forall user, password
      ensures LoggedIn(events, n, user, password) || IsLogin(events, n, user, password) ==> LoggedIn(events, n + 1, user, password)
    {
      LoginsLast(events, n, user, password);
    }
    var e, t := events[n], Step(s, events[n]);
    if e.BeginLoginEvent? {
      LoginIsExact(s, e.op, e.user, e.email, e.password);
      LoginStep(s, e);
      hide BeginLogin;
      if t != s {
        assert IsLogin(events, n, e.user, e.password);
        assert t.logins[e.op].seen.password == e.password;
      }
    } else if e.CommitLoginEvent? {
      CommitStep(s, e);
    } else {
      OthersAddNone(s, e);
    }
  }

  lemma LoginStep(s: Auth, e: Event)
    requires e.BeginLoginEvent?
    ensures Step(s, e) == BeginLogin(s, e.op, e.user, e.email, e.password)
  {
  }

  // A session that is opened is of the flow's user, under the password the flow saw.
  lemma CommitStep(s: Auth, e: Event)
    requires e.CommitLoginEvent?
    ensures var t := Step(s, e);
            && (forall op | op in t.logins :: op in s.logins && t.logins[op] == s.logins[op])
            && (forall id | id in t.sessions ::
                  || (id in s.sessions && t.sessions[id] == s.sessions[id])
                  || (e.op in s.logins && (t.sessions[id].user, t.sessions[id].password) == (s.logins[e.op].user, s.logins[e.op].seen.password)))
  {
    hide LoginStands;
  }

  lemma {:induction false} RunGoesBack(events: seq<Event>, n: nat)
    requires n <= |events|
    ensures GoesBack(Run(EMPTY, events[..n]), events, n)
    decreases n
  {
    hide Step;
    if n > 0 {
      RunGoesBack(events, n - 1);
      RunOneMore(EMPTY, events, n - 1);
      StepGoesBack(Run(EMPTY, events[..n - 1]), events, n - 1);
    } else {
      assert events[..0] == [];
    }
  }

  // Every session there ever is goes back to a login of its user, at a moment when the password it presented was the user's.
  lemma SessionsComeFromLogins(events: seq<Event>, id: string)
    ensures var s := Run(EMPTY, events);
            id in s.sessions ==> exists i :: 0 <= i < |events| && IsLogin(events, i, s.sessions[id].user, s.sessions[id].password)
  {
    hide Run, IsLogin;
    RunGoesBack(events, |events|);
    assert events[..|events|] == events;
  }
}
