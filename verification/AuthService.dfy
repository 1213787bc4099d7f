/**
 The app authentication service over its tables. A login is two calls and a password change three, one for each access to
 the store: what an earlier one found is checked again by the last.
 */
module AuthService {
  import opened Prelude
  import opened AppAuth
  import opened AuthOutcomes

  datatype Problem = Unauthenticated | EmailNotVerified | NotFound | Conflict | Invalid | RegistrationDisabled | TokenInvalid

  // The state if the user's email were verified and the profile there.
  function Completed(s: Auth, user: User): Auth
    requires user in s.credentials
  {
    s.(credentials := s.credentials[user := s.credentials[user].(verified := true)], profiles := s.profiles + {user})
  }

  lemma IssueLeavesUsers(s: Auth, id: string, user: User, email: string, purpose: Purpose, now: int)
    ensures var t := Issue(s, id, user, email, purpose, now); (t.credentials, t.profiles, t.salts) == (s.credentials, s.profiles, s.salts)
  {
  }

  lemma RegisterIs(s: Auth, user: User, email: string, password: string, salt: nat, byAdministrator: bool, token: string, now: int)
    requires Fresh(s, salt) && user !in s.profiles && user !in s.credentials && token !in s.tokenIds
    ensures var r := Register(s, user, email, password, salt, byAdministrator, token, now);
            if user.collection !in s.collections || (!byAdministrator && !MayRegister(s.collections[user.collection]))
               || !ValidPassword(password) || EmailTaken(s, user, email)
            then r == s
            else
              var verified := byAdministrator || s.collections[user.collection].verification != Required;
              var t := s.(profiles := s.profiles + {user}, salts := s.salts + {salt},
                          credentials := s.credentials[user := Credential(email, password, salt, verified, 1)]);
              r == if verified then t else Issue(t, token, user, email, EmailVerification, now)
  {
    hide Fresh, EmailTaken, Issue, ValidPassword;
  }

  lemma ConfirmingSpends(s: Auth, id: string, collection: string, purpose: Purpose, password: string, salt: nat, now: int)
    requires AuthInv(s) && TokenStands(s, id, collection, purpose, now)
    requires purpose == PasswordReset ==> Fresh(s, salt) && ValidPassword(password)
    ensures !Spent(s, id) && Spent(Confirm(s, id, collection, purpose, password, salt, now), id)
  {
    ConfirmingBurns(s, id, collection, purpose, password, salt, now);
  }

  lemma OneMoreToken(tokens: map<string, Token>, id: string, t: Token)
    ensures |tokens[id := t]| <= |tokens| + 1
  {
    assert tokens[id := t].Keys == tokens.Keys + {id};
    assert |tokens[id := t]| == |tokens[id := t].Keys| && |tokens| == |tokens.Keys|;
  }

  class AuthService {
    var collections: map<string, AuthCollection>
    var profiles: set<User>
    var credentials: map<User, Credential>
    var sessions: map<string, Session>
    var tokens: map<string, Token>
    var logins: map<nat, LoginFlow>
    var callers: map<nat, Caller>
    var changes: map<nat, ChangeFlow>
    ghost var salts: set<nat>
    var tokenIds: set<string>

    ghost function View(): Auth
      reads this
    {
      Auth(collections, profiles, credentials, sessions, tokens, logins, callers, changes, salts, tokenIds)
    }

    constructor ()
      ensures View() == EMPTY && AuthInv(View())
    {
      collections, profiles, credentials, sessions, tokens := map[], {}, map[], map[], map[];
      logins, callers, changes, salts, tokenIds := map[], map[], map[], {}, {};
      new;
      EmptyIsSound();
    }

    // The snapshot of a login: what is wrong, in the order the tests are made.
    method CheckLogin(op: nat, user: User, email: string, password: string) returns (problem: Option<Problem>)
      requires AuthInv(View()) && op !in logins
      modifies this`logins
      ensures AuthInv(View()) && View() == BeginLogin(old(View()), op, user, email, password)
      ensures problem.None? <==> op in logins
      ensures problem == Some(NotFound) <==> 1 <= Utf8Length(password) <= 1024 && user.collection !in collections
      ensures problem == Some(Unauthenticated) <==>
              || !(1 <= Utf8Length(password) <= 1024)
              || (user.collection in collections
                  && !(Presents(old(View()), user, email, password) && LetsIn(collections[user.collection])))
      ensures problem == Some(EmailNotVerified) <==>
              && 1 <= Utf8Length(password) <= 1024 && user.collection in collections
              && Presents(old(View()), user, email, password) && LetsIn(collections[user.collection])
              && !credentials[user].verified && collections[user.collection].verification == Required
      ensures problem in {None, Some(NotFound), Some(EmailNotVerified), Some(Unauthenticated)}
    {
      hide AuthInv;
      BeginLoginKeeps(View(), op, user, email, password);
      if !ValidPassword(password) {
        return Some(Unauthenticated);
      }
      if user.collection !in collections {
        return Some(NotFound);
      }
      if user !in credentials || credentials[user].email != email {
        return Some(Unauthenticated);
      }
      var stored := credentials[user];
      var configuration := collections[user.collection];
      if stored.password != password || !configuration.enabled || !ValidConfig(configuration) {
        return Some(Unauthenticated);
      }
      if configuration.verification == Required && !stored.verified {
        return Some(EmailNotVerified);
      }
      logins := logins[op := LoginFlow(user, email, stored, configuration.schema)];
      problem := None;
    }

    // The transaction of a login: everything the snapshot saw is looked at again.
    method OpenSession(op: nat, session: string, now: int) returns (problem: Option<Problem>)
      requires AuthInv(View()) && op in logins && session !in sessions
      modifies this`logins, this`sessions
      ensures AuthInv(View()) && View() == CommitLogin(old(View()), op, session, now)
      ensures problem.None? <==> session in sessions
      ensures problem == Some(NotFound) <==> old(logins[op]).user.collection !in collections
      ensures var f := old(logins[op]);
              problem == Some(Conflict) <==> f.user.collection in collections && collections[f.user.collection].schema != f.schema
      ensures var f := old(logins[op]);
              problem == Some(EmailNotVerified) <==>
                && f.user in credentials && LoginStands(Completed(old(View()), f.user), f)
                && collections[f.user.collection].verification == Required && !credentials[f.user].verified
      ensures problem in {None, Some(NotFound), Some(Conflict), Some(EmailNotVerified), Some(Unauthenticated)}
    {
      hide AuthInv;
      CommitLoginKeeps(View(), op, session, now);
      var f := logins[op];
      logins := logins - {op};
      if f.user.collection !in collections {
        return Some(NotFound);
      }
      var configuration := collections[f.user.collection];
      if configuration.schema != f.schema {
        return Some(Conflict);
      }
      if !configuration.enabled || !ValidConfig(configuration) {
        return Some(Unauthenticated);
      }
      if f.user !in credentials || credentials[f.user].email != f.email || credentials[f.user].salt != f.seen.salt
         || credentials[f.user].password != f.seen.password {
        return Some(Unauthenticated);
      }
      if configuration.verification == Required && !credentials[f.user].verified {
        return Some(EmailNotVerified);
      }
      if f.user !in profiles {
        return Some(Unauthenticated);
      }
      sessions := sessions[session := Session(f.user, now + DAY * configuration.sessionDays, false, f.seen.password, f.seen.version)];
      problem := None;
    }

    // The session that asks for a password change, for one collection.
    method AuthenticateChange(op: nat, collection: string, session: string, password: string, now: int) returns (problem: Option<Problem>)
      requires AuthInv(View()) && op !in callers
      modifies this`callers
      ensures AuthInv(View()) && View() == Authenticate(old(View()), op, collection, session, password, now)
      ensures problem.None? <==> op in callers
      ensures problem == Some(Invalid) <==> !ValidPassword(password)
      ensures problem == Some(NotFound) <==> ValidPassword(password) && collection !in collections
      ensures problem == Some(Unauthenticated) <==>
              && ValidPassword(password) && collection in collections
              && !(Authenticates(old(View()), session, now) && sessions[session].user.collection == collection)
    {
      hide AuthInv;
      CallersDoNotMatter(View(), Authenticate(View(), op, collection, session, password, now).callers);
      if !ValidPassword(password) {
        return Some(Invalid);
      }
      if collection !in collections {
        return Some(NotFound);
      }
      if session !in sessions || sessions[session].revoked || now >= sessions[session].expires || sessions[session].user.collection != collection {
        return Some(Unauthenticated);
      }
      if sessions[session].user !in profiles {
        return Some(Unauthenticated);
      }
      callers := callers[op := Caller(session, sessions[session].user, password)];
      problem := None;
    }

    // The credential of the caller, and the present password against it.
    method CheckChange(op: nat, current: string, salt: nat) returns (problem: Option<Problem>)
      requires AuthInv(View()) && op in callers && op !in changes && Fresh(View(), salt)
      modifies this`callers, this`changes, this`salts
      ensures AuthInv(View()) && View() == BeginChange(old(View()), op, current, salt)
      ensures problem.None? <==> op in changes
      ensures problem.None? <==>
              var user := old(callers[op]).user; user in credentials && ValidPassword(current) && credentials[user].password == current
      ensures problem in {None, Some(Unauthenticated)}
    {
      hide AuthInv;
      BeginChangeKeeps(View(), op, current, salt);
      var caller := callers[op];
      callers := callers - {op};
      if caller.user !in credentials || !ValidPassword(current) || credentials[caller.user].password != current {
        return Some(Unauthenticated);
      }
      changes := changes[op := ChangeFlow(caller.session, caller.user, credentials[caller.user], caller.password, salt)];
      salts := salts + {salt};
      problem := None;
    }

    // The update of a credential and the revocation of its sessions, inside a transaction.
    method Overwrite(user: User, password: string, salt: nat)
      requires user in credentials
      modifies this`credentials, this`sessions, this`salts
      ensures View() == WritePassword(old(View()), user, password, salt) && salts == old(salts) + {salt}
    {
      var c := credentials[user];
      credentials := credentials[user := c.(password := password, salt := salt, version := c.version + 1)];
      sessions := map id | id in sessions :: if sessions[id].user == user then sessions[id].(revoked := true) else sessions[id];
      salts := salts + {salt};
    }

    // The transaction of a password change: the session still lives, and the credential is the one that was checked.
    method ChangePassword(op: nat, now: int) returns (problem: Option<Problem>)
      requires AuthInv(View()) && op in changes
      modifies this`changes, this`credentials, this`sessions, this`salts
      ensures AuthInv(View()) && View() == CommitChange(old(View()), op, now)
      ensures problem.None? <==> ChangeStands(old(View()), old(changes[op]), now)
      ensures problem in {None, Some(Unauthenticated)}
    {
      hide AuthInv;
      CommitChangeKeeps(View(), op, now);
      var f := changes[op];
      changes := changes - {op};
      if f.session !in sessions || sessions[f.session].revoked || now >= sessions[f.session].expires {
        return Some(Unauthenticated);
      }
      if f.user !in credentials || credentials[f.user].salt != f.seen.salt || credentials[f.user].password != f.seen.password {
        return Some(Unauthenticated);
      }
      Overwrite(f.user, f.password, f.salt);
      problem := None;
    }

    // A password set by an administrator; the email was looked up under the schema version given.
    method AssignPassword(user: User, email: string, password: string, salt: nat, schema: nat) returns (problem: Option<Problem>)
      requires AuthInv(View()) && Fresh(View(), salt)
      modifies this`credentials, this`sessions, this`salts
      ensures AuthInv(View()) && View() == SetPassword(old(View()), user, email, password, salt, schema)
      ensures problem.None? <==> salt in salts
      ensures problem == Some(Invalid) <==> !ValidPassword(password)
      ensures problem == Some(NotFound) <==>
              && ValidPassword(password)
              && (user.collection in collections ==> collections[user.collection].schema == schema && user !in profiles)
      ensures problem == Some(Conflict) <==>
              && ValidPassword(password) && user.collection in collections
              && (collections[user.collection].schema == schema ==> user in profiles && EmailTaken(old(View()), user, email))
      ensures problem in {None, Some(Invalid), Some(NotFound), Some(Conflict)}
    {
      hide AuthInv, WritePassword, EmailTaken, RevokeAll;
      SetPasswordKeeps(View(), user, email, password, salt, schema);
      if !ValidPassword(password) {
        return Some(Invalid);
      }
      if user.collection !in collections {
        return Some(NotFound);
      }
      if collections[user.collection].schema != schema {
        return Some(Conflict);
      }
      if user !in profiles {
        return Some(NotFound);
      }
      var taken := EmailInUse(user, email);
      if taken {
        return Some(Conflict);
      }
      if user in credentials {
        credentials := credentials[user := credentials[user].(email := email)];
        Overwrite(user, password, salt);
      } else {
        credentials := credentials[user := Credential(email, password, salt, true, 1)];
        sessions := RevokeAll(sessions, user);
        salts := salts + {salt};
      }
      problem := None;
    }

    // Confirming a recovery token, for a new password or for an email address. A text that is no token is refused first.
    method ConfirmRecovery(text: string, collection: string, purpose: Purpose, password: string, salt: nat, now: int)
      returns (problem: Option<Problem>)
      requires AuthInv(View()) && Fresh(View(), salt)
      modifies this`credentials, this`sessions, this`tokens, this`salts
      ensures AuthInv(View())
      ensures match TokenIn(text)
              case None => View() == old(View()) && problem == Some(TokenInvalid)
              case Some(id) =>
                && View() == Confirm(old(View()), id, collection, purpose, password, salt, now)
                && (problem.None? <==> Spent(View(), id) && !Spent(old(View()), id))
                && (problem == Some(NotFound) <==> collection !in collections)
                && (problem == Some(Invalid) <==> collection in collections && purpose == PasswordReset && !ValidPassword(password))
                && (problem == Some(TokenInvalid) <==>
                      && collection in collections && (purpose == PasswordReset ==> ValidPassword(password))
                      && !TokenStands(old(View()), id, collection, purpose, now))
      ensures problem in {None, Some(NotFound), Some(Invalid), Some(TokenInvalid)}
    {
      hide TokenIn;
      var token := TokenIn(text);
      if token.None? {
        return Some(TokenInvalid);
      }
      problem := ConfirmToken(token.value, collection, purpose, password, salt, now);
    }

    method ConfirmToken(id: string, collection: string, purpose: Purpose, password: string, salt: nat, now: int) returns (problem: Option<Problem>)
      requires AuthInv(View()) && Fresh(View(), salt)
      modifies this`credentials, this`sessions, this`tokens, this`salts
      ensures AuthInv(View()) && View() == Confirm(old(View()), id, collection, purpose, password, salt, now)
      ensures problem.None? <==> Spent(View(), id) && !Spent(old(View()), id)
      ensures problem == Some(NotFound) <==> collection !in collections
      ensures problem == Some(Invalid) <==> collection in collections && purpose == PasswordReset && !ValidPassword(password)
      ensures problem == Some(TokenInvalid) <==>
              && collection in collections && (purpose == PasswordReset ==> ValidPassword(password))
              && !TokenStands(old(View()), id, collection, purpose, now)
      ensures problem in {None, Some(NotFound), Some(Invalid), Some(TokenInvalid)}
    {
      ghost var before := View();
      assert tokens.Keys <= tokenIds;
      hide AuthInv, Confirmed;
      ConfirmKeeps(View(), id, collection, purpose, password, salt, now);
      if collection !in collections {
        return Some(NotFound);
      }
      if purpose == PasswordReset && !ValidPassword(password) {
        return Some(Invalid);
      }
      if id !in tokens || tokens[id].user.collection != collection || tokens[id].purpose != purpose || tokens[id].used || now >= tokens[id].expires {
        return Some(TokenInvalid);
      }
      var user := tokens[id].user;
      if user !in credentials {
        return Some(TokenInvalid);
      }
      ConfirmingSpends(before, id, collection, purpose, password, salt, now);
      Redeem(user, purpose, password, salt);
      problem := None;
    }

    // What a confirmation does to its user.
    method Redeem(user: User, purpose: Purpose, password: string, salt: nat)
      requires user in credentials
      modifies this`credentials, this`sessions, this`tokens, this`salts
      ensures View() == Confirmed(old(View()), user, purpose, password, salt)
    {
      if purpose == PasswordReset {
        Overwrite(user, password, salt);
      } else {
        credentials := credentials[user := credentials[user].(verified := true)];
      }
      tokens := BurnAll(tokens, user);
    }

    // The insertion of a token, if there is still one to be had this hour, after the pruning of the oldest.
    method InsertToken(id: string, user: User, email: string, purpose: Purpose, now: int)
      modifies this`tokens, this`tokenIds
      ensures View() == Issue(old(View()), id, user, email, purpose, now)
    {
      var recent := Recent(tokens, user.collection, email, purpose, now - HOUR);
      if |recent| >= HOURLY_LIMIT {
        return;
      }
      tokens := Newest(tokens);
      tokens := tokens[id := Token(user, email, purpose, now, now + TOKEN_LIFETIME, false)];
      tokenIds := tokenIds + {id};
    }

    // A profile and its credential in one transaction, by an administrator or by the user alone.
    method RegisterUser(user: User, email: string, password: string, salt: nat, byAdministrator: bool, token: string, now: int)
      returns (problem: Option<Problem>)
      requires AuthInv(View()) && Fresh(View(), salt) && user !in profiles && user !in credentials && token !in tokenIds
      modifies this`profiles, this`credentials, this`salts, this`tokens, this`tokenIds
      ensures AuthInv(View()) && View() == Register(old(View()), user, email, password, salt, byAdministrator, token, now)
      ensures problem.None? <==> user in credentials
      ensures problem == Some(NotFound) <==> user.collection !in collections
      ensures problem == Some(RegistrationDisabled) <==>
              user.collection in collections && !byAdministrator && !MayRegister(collections[user.collection])
      ensures problem == Some(Invalid) <==>
              && user.collection in collections && (byAdministrator || MayRegister(collections[user.collection]))
              && !ValidPassword(password)
      ensures problem in {None, Some(NotFound), Some(RegistrationDisabled), Some(Invalid), Some(Conflict)}
    {
      hide AuthInv, Issue, EmailTaken, Register, Fresh;
      RegisterIs(View(), user, email, password, salt, byAdministrator, token, now);
      RegisterKeeps(View(), user, email, password, salt, byAdministrator, token, now);
      problem := RegistrationProblem(user, email, password, byAdministrator);
      if problem.Some? {
        return;
      }
      var verified := byAdministrator || collections[user.collection].verification != Required;
      InsertUser(user, email, password, salt, verified);
      if !verified {
        IssueLeavesUsers(View(), token, user, email, EmailVerification, now);
        InsertToken(token, user, email, EmailVerification, now);
      }
    }

    // What stands against a new profile, in the order it is looked at.
    method RegistrationProblem(user: User, email: string, password: string, byAdministrator: bool) returns (problem: Option<Problem>)
      ensures problem == Some(NotFound) <==> user.collection !in collections
      ensures problem == Some(RegistrationDisabled) <==>
              user.collection in collections && !byAdministrator && !MayRegister(collections[user.collection])
      ensures problem == Some(Invalid) <==>
              && user.collection in collections && (byAdministrator || MayRegister(collections[user.collection]))
              && !ValidPassword(password)
      ensures problem == Some(Conflict) <==>
              && user.collection in collections && (byAdministrator || MayRegister(collections[user.collection]))
              && ValidPassword(password) && EmailTaken(View(), user, email)
      ensures problem in {None, Some(NotFound), Some(RegistrationDisabled), Some(Invalid), Some(Conflict)}
    {
      if user.collection !in collections {
        return Some(NotFound);
      }
      var configuration := collections[user.collection];
      if !byAdministrator && (!ValidConfig(configuration) || !configuration.enabled || !configuration.selfRegistration) {
        return Some(RegistrationDisabled);
      }
      if !ValidPassword(password) {
        return Some(Invalid);
      }
      var taken := EmailInUse(user, email);
      problem := if taken then Some(Conflict) else None;
    }

    method EmailInUse(user: User, email: string) returns (taken: bool)
      ensures taken == EmailTaken(View(), user, email)
    {
      taken := exists u | u in credentials :: u != user && u.collection == user.collection && credentials[u].email == email;
    }

    method InsertUser(user: User, email: string, password: string, salt: nat, verified: bool)
      modifies this`profiles, this`credentials, this`salts
      ensures View() == old(View()).(profiles := old(profiles) + {user}, salts := old(salts) + {salt},
                                     credentials := old(credentials)[user := Credential(email, password, salt, verified, 1)])
    {
      profiles := profiles + {user};
      credentials := credentials[user := Credential(email, password, salt, verified, 1)];
      salts := salts + {salt};
    }

    // A token for a credential that may use it; whoever asks is told nothing either way.
    method IssueRecoveryToken(id: string, user: User, purpose: Purpose, now: int)
      requires AuthInv(View()) && id !in tokenIds
      modifies this`tokens, this`tokenIds
      ensures AuthInv(View()) && View() == IssueToken(old(View()), id, user, purpose, now)
      ensures id in tokens <==>
              && MayIssue(old(View()), user, purpose)
              && |Recent(old(tokens), user.collection, credentials[user].email, purpose, now - HOUR)| < HOURLY_LIMIT
      ensures |old(tokens)| <= MAX_TOKENS + 1 ==> |tokens| <= MAX_TOKENS + 1
    {
      assert id !in tokens;
      hide AuthInv;
      IssueTokenKeeps(View(), id, user, purpose, now);
      if user.collection !in collections || user !in credentials {
        return;
      }
      var mode := collections[user.collection].verification;
      if purpose == EmailVerification && ((mode != Optional && mode != Required) || credentials[user].verified) {
        return;
      }
      if purpose == PasswordReset && !collections[user.collection].enabled {
        return;
      }
      PruningKeepsTheNewest(tokens);
      OneMoreToken(Newest(tokens), id, Token(user, credentials[user].email, purpose, now, now + TOKEN_LIFETIME, false));
      hide Newest, Recent;
      InsertToken(id, user, credentials[user].email, purpose, now);
    }

    method RevokeSession(id: string) returns (found: bool)
      requires AuthInv(View())
      modifies this`sessions
      ensures AuthInv(View()) && View() == Step(old(View()), RevokeEvent(id)) && found == (id in old(sessions))
    {
      StepKeeps(View(), RevokeEvent(id));
      hide AuthInv;
      found := id in sessions;
      if found {
        sessions := sessions[id := sessions[id].(revoked := true)];
      }
    }
  }
}
