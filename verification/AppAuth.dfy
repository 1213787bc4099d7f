/**
 App credentials and sessions. Login and password change read a snapshot, then check it again in a transaction,
 against each other and against the other ways to set a password. A derived key is the password and its salt.
 */
module AppAuth {
  import opened Prelude

  const HOUR := 3_600_000_000_000
  const DAY := 24 * HOUR
  const TOKEN_LIFETIME := 30 * 60_000_000_000
  const MAX_TOKENS := 1024
  const HOURLY_LIMIT := 16

  datatype Verification = Off | Optional | Required | Unsupported

  datatype AuthCollection = AuthCollection(enabled: bool, selfRegistration: bool, sessionDays: int, verification: Verification, schema: nat)

  datatype User = User(collection: string, record: string)

  // The version counts the passwords of the user; the tables hold the rest.
  datatype Credential = Credential(email: string, password: string, salt: nat, verified: bool, version: nat)

  // Beside its row, a session remembers the password and version it was issued under.
  datatype Session = Session(user: User, expires: int, revoked: bool, password: string, version: nat)

  datatype Purpose = PasswordReset | EmailVerification

  datatype Token = Token(user: User, email: string, purpose: Purpose, created: int, expires: int, used: bool)

  // A login between its snapshot and its transaction; a password change once its session has been looked up, and once
  // its credential has been read.
  datatype LoginFlow = LoginFlow(user: User, email: string, seen: Credential, schema: nat)

  datatype Caller = Caller(session: string, user: User, password: string)

  datatype ChangeFlow = ChangeFlow(session: string, user: User, seen: Credential, password: string, salt: nat)

  // Salts are taken to be fresh: `salts` holds those drawn so far.
  datatype Auth = Auth(collections: map<string, AuthCollection>, profiles: set<User>, credentials: map<User, Credential>,
                       sessions: map<string, Session>, tokens: map<string, Token>, logins: map<nat, LoginFlow>,
                       callers: map<nat, Caller>, changes: map<nat, ChangeFlow>, salts: set<nat>, tokenIds: set<string>)

  const EMPTY := Auth(map[], {}, map[], map[], map[], map[], map[], map[], {}, {})

  predicate ValidConfig(c: AuthCollection) {
    1 <= c.sessionDays && c.verification != Unsupported
  }

  predicate ValidPassword(password: string) {
    1 <= Utf8Length(password) <= 1024
  }

  predicate Fresh(s: Auth, salt: nat) {
    salt !in s.salts
  }

  // Every session of the user is revoked.
  function RevokeAll(sessions: map<string, Session>, user: User): (r: map<string, Session>)
    ensures r.Keys == sessions.Keys
    ensures forall id | id in sessions :: r[id] == if sessions[id].user == user then sessions[id].(revoked := true) else sessions[id]
  {
    map id | id in sessions :: if sessions[id].user == user then sessions[id].(revoked := true) else sessions[id]
  }

  function BurnAll(tokens: map<string, Token>, user: User): (r: map<string, Token>)
    ensures r.Keys == tokens.Keys
    ensures forall id | id in tokens :: r[id] == if tokens[id].user == user then tokens[id].(used := true) else tokens[id]
  {
    map id | id in tokens :: if tokens[id].user == user then tokens[id].(used := true) else tokens[id]
  }

  predicate EmailTaken(s: Auth, user: User, email: string) {
    exists u | u in s.credentials :: u != user && u.collection == user.collection && s.credentials[u].email == email
  }

  // The session authenticates its user now.
  predicate Authenticates(s: Auth, id: string, now: int) {
    && id in s.sessions && !s.sessions[id].revoked && now < s.sessions[id].expires
    && s.sessions[id].user.collection in s.collections && s.sessions[id].user in s.profiles
  }

  /* ----- login ----- */

  // The snapshot: the credential found by email matches the password, and the configuration lets its user in.
  predicate MayLogin(s: Auth, user: User, email: string, password: string) {
    && ValidPassword(password)
    && user.collection in s.collections && user in s.credentials && s.credentials[user].email == email
    && s.credentials[user].password == password
    && s.collections[user.collection].enabled && ValidConfig(s.collections[user.collection])
    && (s.collections[user.collection].verification == Required ==> s.credentials[user].verified)
  }

  function BeginLogin(s: Auth, op: nat, user: User, email: string, password: string): Auth {
    if op in s.logins || !MayLogin(s, user, email, password) then s
    else s.(logins := s.logins[op := LoginFlow(user, email, s.credentials[user], s.collections[user.collection].schema)])
  }

  // The transaction looks again: same collection, same configuration rules, same credential, and the profile is there.
  predicate LoginStands(s: Auth, f: LoginFlow) {
    && f.user.collection in s.collections && s.collections[f.user.collection].schema == f.schema
    && s.collections[f.user.collection].enabled && ValidConfig(s.collections[f.user.collection])
    && f.user in s.credentials && s.credentials[f.user].email == f.email
    && (s.credentials[f.user].salt, s.credentials[f.user].password) == (f.seen.salt, f.seen.password)
    && (s.collections[f.user.collection].verification == Required ==> s.credentials[f.user].verified)
    && f.user in s.profiles
  }

  function CommitLogin(s: Auth, op: nat, session: string, now: int): Auth {
    if op !in s.logins || session in s.sessions then s
    else
      var f := s.logins[op];
      var ended := s.(logins := s.logins - {op});
      if !LoginStands(s, f) then ended
      else
        var expires := now + DAY * s.collections[f.user.collection].sessionDays;
        ended.(sessions := s.sessions[session := Session(f.user, expires, false, f.seen.password, f.seen.version)])
  }

  /* ----- setting passwords ----- */

  // A new password for an existing credential ends every session of the user.
  function WritePassword(s: Auth, user: User, password: string, salt: nat): Auth
    requires user in s.credentials
  {
    var c := s.credentials[user];
    s.(credentials := s.credentials[user := c.(password := password, salt := salt, version := c.version + 1)],
       sessions := RevokeAll(s.sessions, user), salts := s.salts + {salt})
  }

  // The session is looked up first, for a collection, and the new password is well formed.
  function Authenticate(s: Auth, op: nat, collection: string, session: string, password: string, now: int): Auth {
    if op in s.callers || !ValidPassword(password) || !Authenticates(s, session, now) || s.sessions[session].user.collection != collection
    then s
    else s.(callers := s.callers[op := Caller(session, s.sessions[session].user, password)])
  }

  // Then the credential is read and the present password checked against it; the salt is drawn.
  function BeginChange(s: Auth, op: nat, current: string, salt: nat): Auth {
    if op !in s.callers || op in s.changes || !Fresh(s, salt) then s
    else
      var caller := s.callers[op];
      var ended := s.(callers := s.callers - {op});
      if caller.user !in s.credentials || !ValidPassword(current) || s.credentials[caller.user].password != current then ended
      else
        ended.(changes := s.changes[op := ChangeFlow(caller.session, caller.user, s.credentials[caller.user], caller.password, salt)],
               salts := s.salts + {salt})
  }

  predicate ChangeStands(s: Auth, f: ChangeFlow, now: int) {
    && f.session in s.sessions && !s.sessions[f.session].revoked && now < s.sessions[f.session].expires
    && f.user in s.credentials && (s.credentials[f.user].salt, s.credentials[f.user].password) == (f.seen.salt, f.seen.password)
  }

  function CommitChange(s: Auth, op: nat, now: int): Auth {
    if op !in s.changes then s
    else
      var f := s.changes[op];
      var ended := s.(changes := s.changes - {op});
      if ChangeStands(s, f, now) then WritePassword(ended, f.user, f.password, f.salt) else ended
  }

  // An administrator's password: for a user with a profile, creating the credential if there is none. The schema is the
  // version under which the email was looked up.
  function SetPassword(s: Auth, user: User, email: string, password: string, salt: nat, schema: nat): Auth {
    if !Fresh(s, salt) || !ValidPassword(password) || user.collection !in s.collections || s.collections[user.collection].schema != schema
       || user !in s.profiles || EmailTaken(s, user, email) then s
    else PutPassword(s, user, email, password, salt)
  }

  function PutPassword(s: Auth, user: User, email: string, password: string, salt: nat): Auth {
    if user in s.credentials then
      WritePassword(s.(credentials := s.credentials[user := s.credentials[user].(email := email)]), user, password, salt)
    else
      s.(credentials := s.credentials[user := Credential(email, password, salt, true, 1)], sessions := RevokeAll(s.sessions, user),
         salts := s.salts + {salt})
  }

  predicate MayRegister(c: AuthCollection) {
    ValidConfig(c) && c.enabled && c.selfRegistration
  }

  // A new profile with its credential. Who registers alone needs the collection's leave, and where the email must be
  // verified is sent a token for it in the same transaction.
  function Register(s: Auth, user: User, email: string, password: string, salt: nat, byAdministrator: bool, token: string, now: int): Auth {
    if !Fresh(s, salt) || !ValidPassword(password) || user.collection !in s.collections || user in s.profiles || user in s.credentials
       || token in s.tokenIds || EmailTaken(s, user, email) then s
    else
      var c := s.collections[user.collection];
      if !byAdministrator && !MayRegister(c) then s
      else
        var verified := byAdministrator || c.verification != Required;
        var t := s.(profiles := s.profiles + {user}, salts := s.salts + {salt},
                    credentials := s.credentials[user := Credential(email, password, salt, verified, 1)]);
        if verified then t else Issue(t, token, user, email, EmailVerification, now)
  }

  /* ----- recovery ----- */

  // A mode that is neither optional nor required counts as off.
  predicate Verifies(c: AuthCollection) {
    c.verification == Optional || c.verification == Required
  }

  predicate IsRecent(t: Token, collection: string, email: string, purpose: Purpose, since: int) {
    t.user.collection == collection && t.email == email && t.purpose == purpose && since <= t.created
  }

  function Recent(tokens: map<string, Token>, collection: string, email: string, purpose: Purpose, since: int): set<string> {
    set id | id in tokens && IsRecent(tokens[id], collection, email, purpose, since)
  }

  // The order of the rows, the newest last.
  predicate Older(tokens: map<string, Token>, a: string, b: string)
    requires a in tokens && b in tokens
  {
    tokens[a].created < tokens[b].created || (tokens[a].created == tokens[b].created && TextBefore(a, b))
  }

  function Newer(tokens: map<string, Token>, id: string): set<string>
    requires id in tokens
  {
    set k | k in tokens && Older(tokens, id, k)
  }

  // All but the newest rows leave.
  function Newest(tokens: map<string, Token>): map<string, Token> {
    map id | id in tokens && |Newer(tokens, id)| < MAX_TOKENS :: tokens[id]
  }

  // One more token, unless there have been enough in the past hour.
  function Issue(s: Auth, id: string, user: User, email: string, purpose: Purpose, now: int): Auth {
    if |Recent(s.tokens, user.collection, email, purpose, now - HOUR)| >= HOURLY_LIMIT then s
    else s.(tokens := Newest(s.tokens)[id := Token(user, email, purpose, now, now + TOKEN_LIFETIME, false)], tokenIds := s.tokenIds + {id})
  }

  predicate MayIssue(s: Auth, user: User, purpose: Purpose) {
    && user.collection in s.collections && user in s.credentials
    && (purpose == EmailVerification ==> Verifies(s.collections[user.collection]) && !s.credentials[user].verified)
    && (purpose == PasswordReset ==> s.collections[user.collection].enabled)
  }

  function IssueToken(s: Auth, id: string, user: User, purpose: Purpose, now: int): Auth {
    if id in s.tokenIds || !MayIssue(s, user, purpose) then s
    else Issue(s, id, user, s.credentials[user].email, purpose, now)
  }

  // The token in a text: a prefix and 32 hexadecimal digits, with white space around them. It stands for its hash, by which
  // its row is found.
  function TokenIn(text: string): Option<string> {
    var trimmed := TrimSpace(text);
    if |trimmed| == 36 && ("rst_" <= trimmed || "vfy_" <= trimmed) && forall i | 4 <= i < 36 :: IsHex(trimmed[i]) then Some(trimmed) else None
  }

  // A token confirms what it was issued for, unused and in time.
  predicate TokenStands(s: Auth, id: string, collection: string, purpose: Purpose, now: int) {
    && collection in s.collections
    && id in s.tokens && s.tokens[id].user.collection == collection && s.tokens[id].purpose == purpose
    && !s.tokens[id].used && now < s.tokens[id].expires && s.tokens[id].user in s.credentials
  }

  // Confirming burns every token of the user; a reset sets the password.
  function Confirmed(s: Auth, user: User, purpose: Purpose, password: string, salt: nat): Auth
    requires user in s.credentials
  {
    var burnt := s.(tokens := BurnAll(s.tokens, user));
    match purpose
    case PasswordReset => WritePassword(burnt, user, password, salt)
    case EmailVerification => burnt.(credentials := s.credentials[user := s.credentials[user].(verified := true)])
  }

  function Confirm(s: Auth, id: string, collection: string, purpose: Purpose, password: string, salt: nat, now: int): Auth {
    if (purpose == PasswordReset && (!Fresh(s, salt) || !ValidPassword(password))) || !TokenStands(s, id, collection, purpose, now) then s
    else Confirmed(s, s.tokens[id].user, purpose, password, salt)
  }

  /* ----- steps and runs ----- */

  datatype Event =
    | BeginLoginEvent(op: nat, user: User, email: string, password: string)
    | CommitLoginEvent(op: nat, session: string, now: int)
    | AuthenticateEvent(op: nat, collection: string, session: string, password: string, now: int)
    | BeginChangeEvent(op: nat, current: string, salt: nat)
    | CommitChangeEvent(op: nat, now: int)
    | SetPasswordEvent(user: User, email: string, password: string, salt: nat, schema: nat)
    | RegisterEvent(user: User, email: string, password: string, salt: nat, byAdministrator: bool, token: string, now: int)
    | IssueTokenEvent(token: string, user: User, purpose: Purpose, now: int)
    | ConfirmEvent(token: string, collection: string, purpose: Purpose, password: string, salt: nat, now: int)
    | RevokeEvent(session: string)
    | RevokeAllEvent(user: User)
    | ConfigureEvent(collection: string, configuration: AuthCollection)
    | CreateProfileEvent(user: User)
    | DeleteProfileEvent(user: User)
    | CrashEvent

  function Step(s: Auth, e: Event): Auth {
    match e
    case BeginLoginEvent(op, user, email, password) => BeginLogin(s, op, user, email, password)
    case CommitLoginEvent(op, session, now) => CommitLogin(s, op, session, now)
    case AuthenticateEvent(op, collection, session, password, now) => Authenticate(s, op, collection, session, password, now)
    case BeginChangeEvent(op, current, salt) => BeginChange(s, op, current, salt)
    case CommitChangeEvent(op, now) => CommitChange(s, op, now)
    case SetPasswordEvent(user, email, password, salt, schema) => SetPassword(s, user, email, password, salt, schema)
    case RegisterEvent(user, email, password, salt, byAdministrator, token, now) =>
      Register(s, user, email, password, salt, byAdministrator, token, now)
    case IssueTokenEvent(token, user, purpose, now) => IssueToken(s, token, user, purpose, now)
    case ConfirmEvent(token, collection, purpose, password, salt, now) => Confirm(s, token, collection, purpose, password, salt, now)
    case RevokeEvent(session) =>
      if session in s.sessions then s.(sessions := s.sessions[session := s.sessions[session].(revoked := true)]) else s
    case RevokeAllEvent(user) => s.(sessions := RevokeAll(s.sessions, user))
    case ConfigureEvent(collection, configuration) => s.(collections := s.collections[collection := configuration])
    case CreateProfileEvent(user) => s.(profiles := s.profiles + {user})
    case DeleteProfileEvent(user) => s.(profiles := s.profiles - {user})
    case CrashEvent => s.(logins := map[], callers := map[], changes := map[])
  }

  function Run(s: Auth, events: seq<Event>): Auth
    decreases |events|
  {
    if events == [] then s else Run(Step(s, events[0]), events[1..])
  }

  /* ----- the invariant ----- */

  // A live session was issued under its user's present password, in its present version.
  ghost predicate SessionsOk(credentials: map<User, Credential>, sessions: map<string, Session>) {
    forall id | id in sessions && !sessions[id].revoked ::
      var x := sessions[id];
      x.user in credentials && x.version == credentials[x.user].version && x.password == credentials[x.user].password
  }

  // What a flow saw is the present credential exactly when the salt still is.
  ghost predicate SeenOk(credentials: map<User, Credential>, salts: set<nat>, user: User, seen: Credential) {
    && user in credentials && seen.salt in salts && seen.version <= credentials[user].version
    && (seen.salt == credentials[user].salt <==> seen.version == credentials[user].version)
    && (seen.salt == credentials[user].salt ==> seen.password == credentials[user].password)
  }

  ghost predicate LoginsOk(credentials: map<User, Credential>, salts: set<nat>, logins: map<nat, LoginFlow>) {
    forall op | op in logins :: SeenOk(credentials, salts, logins[op].user, logins[op].seen)
  }

  ghost predicate ChangesOk(credentials: map<User, Credential>, salts: set<nat>, changes: map<nat, ChangeFlow>) {
    forall op | op in changes :: SeenOk(credentials, salts, changes[op].user, changes[op].seen)
  }

  // No credential and no flow has the salt.
  ghost predicate Unseen(credentials: map<User, Credential>, logins: map<nat, LoginFlow>, changes: map<nat, ChangeFlow>, salt: nat) {
    && (forall u | u in credentials :: credentials[u].salt != salt)
    && (forall op | op in logins :: logins[op].seen.salt != salt)
    && (forall op | op in changes :: changes[op].seen.salt != salt)
  }

  // The salts of pending changes are theirs alone.
  ghost predicate ReservedOk(credentials: map<User, Credential>, logins: map<nat, LoginFlow>, changes: map<nat, ChangeFlow>, salts: set<nat>) {
    && (forall op | op in changes :: changes[op].salt in salts && Unseen(credentials, logins, changes, changes[op].salt))
    && (forall o, p | o in changes && p in changes && o != p :: changes[o].salt != changes[p].salt)
  }

  ghost predicate CredentialsOk(credentials: map<User, Credential>, salts: set<nat>) {
    && (forall u | u in credentials :: credentials[u].salt in salts)
    && (forall u, v | u in credentials && v in credentials && u != v && u.collection == v.collection ::
          credentials[u].email != credentials[v].email)
  }

  ghost predicate AuthInv(s: Auth) {
    var sound :=
      && SessionsOk(s.credentials, s.sessions)
      && CredentialsOk(s.credentials, s.salts)
      && LoginsOk(s.credentials, s.salts, s.logins) && ChangesOk(s.credentials, s.salts, s.changes)
      && ReservedOk(s.credentials, s.logins, s.changes, s.salts)
      && s.tokens.Keys <= s.tokenIds;
    sound
  }

  // A salt that no credential, flow or pending change has.
  ghost predicate Available(s: Auth, salt: nat) {
    && Unseen(s.credentials, s.logins, s.changes, salt)
    && forall op | op in s.changes :: s.changes[op].salt != salt
  }

  lemma FreshIsAvailable(s: Auth, salt: nat)
    requires AuthInv(s) && Fresh(s, salt)
    ensures Available(s, salt)
  {
    forall op | op in s.logins
      ensures s.logins[op].seen.salt != salt
    {
      assert SeenOk(s.credentials, s.salts, s.logins[op].user, s.logins[op].seen);
    }
    forall op | op in s.changes
      ensures s.changes[op].seen.salt != salt
    {
      assert SeenOk(s.credentials, s.salts, s.changes[op].user, s.changes[op].seen);
    }
  }

  // A new password under an unused salt keeps everything: old sessions are revoked, and flows begun before become stale.
  lemma WriteKeeps(s: Auth, user: User, password: string, salt: nat)
    requires AuthInv(s) && user in s.credentials && Available(s, salt)
    ensures AuthInv(WritePassword(s, user, password, salt))
  {
    var c := s.credentials[user].(password := password, salt := salt, version := s.credentials[user].version + 1);
    hide SessionsOk, CredentialsOk, LoginsOk, ChangesOk, ReservedOk, Available, RevokeAll;
    assert WritePassword(s, user, password, salt) ==
           s.(credentials := s.credentials[user := c], sessions := RevokeAll(s.sessions, user), salts := s.salts + {c.salt});
    hide WritePassword;
    WrittenRow(s, user, c);
    WrittenFlows(s, user, c);
    ReservedStays(s, user, c);
  }

  lemma WrittenRow(s: Auth, user: User, c: Credential)
    requires SessionsOk(s.credentials, s.sessions) && CredentialsOk(s.credentials, s.salts)
    requires user in s.credentials && c.email == s.credentials[user].email
    ensures SessionsOk(s.credentials[user := c], RevokeAll(s.sessions, user)) && CredentialsOk(s.credentials[user := c], s.salts + {c.salt})
  {
  }

  lemma WrittenFlows(s: Auth, user: User, c: Credential)
    requires LoginsOk(s.credentials, s.salts, s.logins) && ChangesOk(s.credentials, s.salts, s.changes) && Available(s, c.salt)
    requires user in s.credentials && c.version == s.credentials[user].version + 1
    ensures LoginsOk(s.credentials[user := c], s.salts + {c.salt}, s.logins)
    ensures ChangesOk(s.credentials[user := c], s.salts + {c.salt}, s.changes)
  {
    hide SeenOk;
    forall op | op in s.logins
      ensures SeenOk(s.credentials[user := c], s.salts + {c.salt}, s.logins[op].user, s.logins[op].seen)
    {
      SeenGoesStale(s.credentials, s.salts, user, c, s.logins[op].user, s.logins[op].seen);
    }
    forall op | op in s.changes
      ensures SeenOk(s.credentials[user := c], s.salts + {c.salt}, s.changes[op].user, s.changes[op].seen)
    {
      SeenGoesStale(s.credentials, s.salts, user, c, s.changes[op].user, s.changes[op].seen);
    }
  }

  lemma SeenGoesStale(credentials: map<User, Credential>, salts: set<nat>, user: User, c: Credential, other: User, seen: Credential)
    requires SeenOk(credentials, salts, other, seen) && seen.salt != c.salt
    requires user in credentials && c.version == credentials[user].version + 1
    ensures SeenOk(credentials[user := c], salts + {c.salt}, other, seen)
  {
  }

  lemma BeginLoginKeeps(s: Auth, op: nat, user: User, email: string, password: string)
    requires AuthInv(s)
    ensures AuthInv(BeginLogin(s, op, user, email, password))
  {
    hide AuthInv;
    var t := BeginLogin(s, op, user, email, password);
    if t != s { LoginRecorded(s, op, t.logins[op]); }
  }

  lemma LoginRecorded(s: Auth, op: nat, f: LoginFlow)
    requires AuthInv(s) && op !in s.logins && f.user in s.credentials && f.seen == s.credentials[f.user]
    ensures AuthInv(s.(logins := s.logins[op := f]))
  {
    hide SessionsOk, ChangesOk;
    assert SeenOk(s.credentials, s.salts, f.user, f.seen);
    hide SeenOk;
    var logins := s.logins[op := f];
    forall o | o in s.changes
      ensures Unseen(s.credentials, logins, s.changes, s.changes[o].salt)
    {
      assert Unseen(s.credentials, s.logins, s.changes, s.changes[o].salt);
    }
  }

  lemma LoginEndedKeeps(s: Auth, op: nat)
    requires AuthInv(s) && op in s.logins
    ensures AuthInv(s.(logins := s.logins - {op}))
  {
    hide SessionsOk, CredentialsOk, ChangesOk;
    var t := s.(logins := s.logins - {op});
    forall o | o in t.changes
      ensures Unseen(t.credentials, t.logins, t.changes, t.changes[o].salt)
    {
      assert Unseen(s.credentials, s.logins, s.changes, s.changes[o].salt);
    }
  }

  // A login that stands issues its session under the present version.
  lemma CommitLoginKeeps(s: Auth, op: nat, session: string, now: int)
    requires AuthInv(s)
    ensures AuthInv(CommitLogin(s, op, session, now))
  {
    hide CredentialsOk, ChangesOk, ReservedOk;
    if op in s.logins {
      LoginEndedKeeps(s, op);
      assert SeenOk(s.credentials, s.salts, s.logins[op].user, s.logins[op].seen);
    }
  }

  lemma SaltDrawn(s: Auth, salt: nat)
    requires AuthInv(s)
    ensures AuthInv(s.(salts := s.salts + {salt}))
  {
    hide SessionsOk;
    var t := s.(salts := s.salts + {salt});
    forall o | o in t.changes
      ensures Unseen(t.credentials, t.logins, t.changes, t.changes[o].salt)
      ensures SeenOk(t.credentials, t.salts, t.changes[o].user, t.changes[o].seen)
    {
      assert Unseen(s.credentials, s.logins, s.changes, s.changes[o].salt);
      assert SeenOk(s.credentials, s.salts, s.changes[o].user, s.changes[o].seen);
    }
    forall o | o in t.logins
      ensures SeenOk(t.credentials, t.salts, t.logins[o].user, t.logins[o].seen)
    {
      assert SeenOk(s.credentials, s.salts, s.logins[o].user, s.logins[o].seen);
    }
  }

  lemma ChangeRecorded(s: Auth, op: nat, f: ChangeFlow)
    requires AuthInv(s) && op !in s.changes && f.salt in s.salts && Available(s, f.salt)
    requires f.user in s.credentials && f.seen == s.credentials[f.user]
    ensures AuthInv(s.(changes := s.changes[op := f]))
  {
    hide SessionsOk, LoginsOk, ReservedOk, Unseen;
    RecordedReserved(s, op, f);
    assert SeenOk(s.credentials, s.salts, f.user, f.seen);
  }

  lemma RecordedReserved(s: Auth, op: nat, f: ChangeFlow)
    requires AuthInv(s) && op !in s.changes && f.salt in s.salts && Available(s, f.salt)
    requires f.user in s.credentials && f.seen == s.credentials[f.user]
    ensures ReservedOk(s.credentials, s.logins, s.changes[op := f], s.salts)
  {
    hide SessionsOk, LoginsOk, ChangesOk, CredentialsOk;
    var changes := s.changes[op := f];
    forall o | o in changes
      ensures Unseen(s.credentials, s.logins, changes, changes[o].salt)
    {
      if o != op { assert Unseen(s.credentials, s.logins, s.changes, s.changes[o].salt); }
    }
  }

  lemma BeginChangeKeeps(s: Auth, op: nat, current: string, salt: nat)
    requires AuthInv(s)
    ensures AuthInv(BeginChange(s, op, current, salt))
  {
    hide AuthInv;
    var t := BeginChange(s, op, current, salt);
    CallersDoNotMatter(s, t.callers);
    if t.changes != s.changes {
      FreshIsAvailable(s, salt);
      SaltDrawn(s, salt);
      ChangeRecorded(s.(salts := s.salts + {salt}), op, t.changes[op]);
      CallersDoNotMatter(s.(salts := t.salts, changes := t.changes), t.callers);
    }
  }

  lemma CallersDoNotMatter(s: Auth, callers: map<nat, Caller>)
    requires AuthInv(s)
    ensures AuthInv(s.(callers := callers))
  {
  }

  lemma TokensDoNotMatter(s: Auth, tokens: map<string, Token>, tokenIds: set<string>)
    requires AuthInv(s) && tokens.Keys <= tokenIds
    ensures AuthInv(s.(tokens := tokens, tokenIds := tokenIds))
  {
  }

  lemma IssueKeeps(s: Auth, id: string, user: User, email: string, purpose: Purpose, now: int)
    requires AuthInv(s)
    ensures AuthInv(Issue(s, id, user, email, purpose, now))
  {
    var t := Issue(s, id, user, email, purpose, now);
    assert t.tokens.Keys <= t.tokenIds;
    hide AuthInv;
    TokensDoNotMatter(s, t.tokens, t.tokenIds);
  }

  lemma EndedKeeps(s: Auth, op: nat)
    requires AuthInv(s) && op in s.changes
    ensures var ended := s.(changes := s.changes - {op}); AuthInv(ended) && Available(ended, s.changes[op].salt)
  {
    hide SessionsOk, CredentialsOk;
    var ended := s.(changes := s.changes - {op});
    assert Unseen(s.credentials, s.logins, s.changes, s.changes[op].salt);
    forall o | o in ended.changes
      ensures Unseen(ended.credentials, ended.logins, ended.changes, ended.changes[o].salt)
      ensures SeenOk(ended.credentials, ended.salts, ended.changes[o].user, ended.changes[o].seen)
    {
      assert Unseen(s.credentials, s.logins, s.changes, s.changes[o].salt);
      assert SeenOk(s.credentials, s.salts, s.changes[o].user, s.changes[o].seen);
    }
  }

  lemma CommitChangeKeeps(s: Auth, op: nat, now: int)
    requires AuthInv(s)
    ensures AuthInv(CommitChange(s, op, now))
  {
    hide AuthInv, Available;
    if op in s.changes {
      EndedKeeps(s, op);
      if ChangeStands(s, s.changes[op], now) {
        WriteKeeps(s.(changes := s.changes - {op}), s.changes[op].user, s.changes[op].password, s.changes[op].salt);
      }
    }
  }

  // A credential row is added, or its email changes; the caller has checked the email.
  lemma CredentialKeeps(s: Auth, user: User, c: Credential)
    requires AuthInv(s) && !EmailTaken(s, user, c.email)
    requires user in s.credentials ==>
        var had := s.credentials[user]; (c.salt, c.password, c.version) == (had.salt, had.password, had.version)
    requires user !in s.credentials ==> Available(s, c.salt)
    ensures AuthInv(s.(credentials := s.credentials[user := c], salts := s.salts + {c.salt}))
  {
    hide SessionsOk, CredentialsOk, LoginsOk, ChangesOk, ReservedOk, EmailTaken, Available;
    CredentialRow(s, user, c);
    FlowsStay(s, user, c);
    ReservedStays(s, user, c);
  }

  lemma CredentialRow(s: Auth, user: User, c: Credential)
    requires SessionsOk(s.credentials, s.sessions) && CredentialsOk(s.credentials, s.salts) && !EmailTaken(s, user, c.email)
    requires user in s.credentials ==>
        var had := s.credentials[user]; (c.salt, c.password, c.version) == (had.salt, had.password, had.version)
    ensures SessionsOk(s.credentials[user := c], s.sessions) && CredentialsOk(s.credentials[user := c], s.salts + {c.salt})
  {
  }

  lemma FlowsStay(s: Auth, user: User, c: Credential)
    requires LoginsOk(s.credentials, s.salts, s.logins) && ChangesOk(s.credentials, s.salts, s.changes)
    requires user in s.credentials ==>
        var had := s.credentials[user]; (c.salt, c.password, c.version) == (had.salt, had.password, had.version)
    ensures LoginsOk(s.credentials[user := c], s.salts + {c.salt}, s.logins)
    ensures ChangesOk(s.credentials[user := c], s.salts + {c.salt}, s.changes)
  {
    hide SeenOk;
    forall op | op in s.logins
      ensures SeenOk(s.credentials[user := c], s.salts + {c.salt}, s.logins[op].user, s.logins[op].seen)
    {
      SeenStays(s.credentials, s.salts, user, c, s.logins[op].user, s.logins[op].seen);
    }
    forall op | op in s.changes
      ensures SeenOk(s.credentials[user := c], s.salts + {c.salt}, s.changes[op].user, s.changes[op].seen)
    {
      SeenStays(s.credentials, s.salts, user, c, s.changes[op].user, s.changes[op].seen);
    }
  }

  // A credential written under an unused salt, or under its own, leaves the salts of pending changes theirs.
  lemma ReservedStays(s: Auth, user: User, c: Credential)
    requires ReservedOk(s.credentials, s.logins, s.changes, s.salts)
    requires (user in s.credentials && c.salt == s.credentials[user].salt) || Available(s, c.salt)
    ensures ReservedOk(s.credentials[user := c], s.logins, s.changes, s.salts + {c.salt})
  {
    forall op | op in s.changes
      ensures Unseen(s.credentials[user := c], s.logins, s.changes, s.changes[op].salt)
    {
      assert Unseen(s.credentials, s.logins, s.changes, s.changes[op].salt);
    }
  }

  lemma SeenStays(credentials: map<User, Credential>, salts: set<nat>, user: User, c: Credential, other: User, seen: Credential)
    requires SeenOk(credentials, salts, other, seen)
    requires user in credentials ==>
        var had := credentials[user]; (c.salt, c.password, c.version) == (had.salt, had.password, had.version)
    ensures SeenOk(credentials[user := c], salts + {c.salt}, other, seen)
  {
  }

  lemma SetPasswordKeeps(s: Auth, user: User, email: string, password: string, salt: nat, schema: nat)
    requires AuthInv(s)
    ensures AuthInv(SetPassword(s, user, email, password, salt, schema))
  {
    hide AuthInv, Available, EmailTaken, PutPassword;
    if SetPassword(s, user, email, password, salt, schema) != s {
      FreshIsAvailable(s, salt);
      PutPasswordKeeps(s, user, email, password, salt);
    }
  }

  lemma PutPasswordKeeps(s: Auth, user: User, email: string, password: string, salt: nat)
    requires AuthInv(s) && Available(s, salt) && !EmailTaken(s, user, email)
    ensures AuthInv(PutPassword(s, user, email, password, salt))
  {
    hide AuthInv, Available, EmailTaken, WritePassword;
    if user in s.credentials {
      EmailMoves(s, user, email, salt);
      WriteKeeps(s.(credentials := s.credentials[user := s.credentials[user].(email := email)]), user, password, salt);
    } else {
      var c := Credential(email, password, salt, true, 1);
      CredentialKeeps(s, user, c);
      RevokedKeeps(s.(credentials := s.credentials[user := c], salts := s.salts + {salt}), user);
    }
  }

  lemma EmailMoves(s: Auth, user: User, email: string, salt: nat)
    requires AuthInv(s) && user in s.credentials && !EmailTaken(s, user, email) && Available(s, salt)
    ensures var t := s.(credentials := s.credentials[user := s.credentials[user].(email := email)]); AuthInv(t) && Available(t, salt)
  {
    hide SessionsOk, LoginsOk, ChangesOk, ReservedOk, EmailTaken;
    var c := s.credentials[user].(email := email);
    CredentialKeeps(s, user, c);
    assert c.salt in s.salts;
    assert s.salts + {c.salt} == s.salts;
  }

  lemma RevokedKeeps(s: Auth, user: User)
    requires AuthInv(s)
    ensures AuthInv(s.(sessions := RevokeAll(s.sessions, user)))
  {
  }

  lemma RegisterKeeps(s: Auth, user: User, email: string, password: string, salt: nat, byAdministrator: bool, token: string, now: int)
    requires AuthInv(s)
    ensures AuthInv(Register(s, user, email, password, salt, byAdministrator, token, now))
  {
    hide AuthInv, Available, EmailTaken, Issue;
    var t := Register(s, user, email, password, salt, byAdministrator, token, now);
    if t != s {
      FreshIsAvailable(s, salt);
      var c := Credential(email, password, salt, byAdministrator || s.collections[user.collection].verification != Required, 1);
      CredentialKeeps(s, user, c);
      var created := s.(credentials := s.credentials[user := c], salts := s.salts + {salt});
      ProfilesDoNotMatter(created, s.profiles + {user});
      IssueKeeps(created.(profiles := s.profiles + {user}), token, user, email, EmailVerification, now);
    }
  }

  lemma ProfilesDoNotMatter(s: Auth, profiles: set<User>)
    requires AuthInv(s)
    ensures AuthInv(s.(profiles := profiles))
  {
  }

  lemma ConfirmKeeps(s: Auth, id: string, collection: string, purpose: Purpose, password: string, salt: nat, now: int)
    requires AuthInv(s)
    ensures AuthInv(Confirm(s, id, collection, purpose, password, salt, now))
  {
    hide SessionsOk, LoginsOk, ChangesOk, ReservedOk, CredentialsOk;
    if TokenStands(s, id, collection, purpose, now) {
      var user := s.tokens[id].user;
      var burnt := s.(tokens := BurnAll(s.tokens, user));
      match purpose
      case PasswordReset =>
        if Fresh(s, salt) {
          FreshIsAvailable(s, salt);
          WriteKeeps(burnt, user, password, salt);
        }
      case EmailVerification => VerifiedKeeps(burnt, user);
    }
  }

  lemma VerifiedKeeps(s: Auth, user: User)
    requires AuthInv(s) && user in s.credentials
    ensures AuthInv(s.(credentials := s.credentials[user := s.credentials[user].(verified := true)]))
  {
    var c := s.credentials[user].(verified := true);
    CredentialKeeps(s, user, c);
    assert s.salts + {c.salt} == s.salts;
  }

  lemma IssueTokenKeeps(s: Auth, id: string, user: User, purpose: Purpose, now: int)
    requires AuthInv(s)
    ensures AuthInv(IssueToken(s, id, user, purpose, now))
  {
    hide AuthInv, Issue;
    if MayIssue(s, user, purpose) { IssueKeeps(s, id, user, s.credentials[user].email, purpose, now); }
  }

  lemma StepKeeps(s: Auth, e: Event)
    requires AuthInv(s)
    ensures AuthInv(Step(s, e))
  {
    hide AuthInv, BeginLogin, CommitLogin, Authenticate, BeginChange, CommitChange, SetPassword, Register, IssueToken, Confirm;
    match e
    case BeginLoginEvent(op, user, email, password) => BeginLoginKeeps(s, op, user, email, password);
    case CommitLoginEvent(op, session, now) => CommitLoginKeeps(s, op, session, now);
    case BeginChangeEvent(op, current, salt) => BeginChangeKeeps(s, op, current, salt);
    case CommitChangeEvent(op, now) => CommitChangeKeeps(s, op, now);
    case SetPasswordEvent(user, email, password, salt, schema) => SetPasswordKeeps(s, user, email, password, salt, schema);
    case RegisterEvent(user, email, password, salt, byAdministrator, token, now) =>
      RegisterKeeps(s, user, email, password, salt, byAdministrator, token, now);
    case IssueTokenEvent(token, user, purpose, now) => IssueTokenKeeps(s, token, user, purpose, now);
    case ConfirmEvent(token, collection, purpose, password, salt, now) => ConfirmKeeps(s, token, collection, purpose, password, salt, now);
    case RevokeAllEvent(user) => RevokedKeeps(s, user);
    case CrashEvent => CrashKeeps(s);
    case _ => SmallStepsKeep(s, e);
  }

  lemma SmallStepsKeep(s: Auth, e: Event)
    requires AuthInv(s)
    requires e.AuthenticateEvent? || e.RevokeEvent? || e.ConfigureEvent? || e.CreateProfileEvent? || e.DeleteProfileEvent?
    ensures AuthInv(Step(s, e))
  {
    hide Authenticates, ValidPassword, LoginsOk, ChangesOk, ReservedOk, CredentialsOk, BeginLogin, CommitLogin, BeginChange, CommitChange,
      SetPassword, Register, IssueToken, Confirm;
  }

  lemma CrashKeeps(s: Auth)
    requires AuthInv(s)
    ensures AuthInv(Step(s, CrashEvent))
  {
  }

  lemma {:induction false} RunKeeps(s: Auth, events: seq<Event>)
    requires AuthInv(s)
    ensures AuthInv(Run(s, events))
    decreases |events|
  {
    hide AuthInv, Step;
    if events != [] {
      StepKeeps(s, events[0]);
      RunKeeps(Step(s, events[0]), events[1..]);
    }
  }

  lemma EmptyIsSound()
    ensures AuthInv(EMPTY)
  {
  }

  // In every reachable state a session that is not revoked was issued to someone who presented the user's present password,
  // under its present version: no interleaving of logins with changes, settings and resets leaves a live one from before.
  lemma EveryLiveSessionIsCurrent(events: seq<Event>, id: string)
    ensures var s := Run(EMPTY, events);
            id in s.sessions && !s.sessions[id].revoked ==>
              && s.sessions[id].user in s.credentials
              && s.sessions[id].version == s.credentials[s.sessions[id].user].version
              && s.sessions[id].password == s.credentials[s.sessions[id].user].password
  {
    hide Step, LoginsOk, ChangesOk, ReservedOk, CredentialsOk;
    EmptyIsSound();
    RunKeeps(EMPTY, events);
  }

  /* ----- stale flows ----- */

  ghost predicate Outdated(s: Auth, user: User, seen: Credential) {
    user in s.credentials && seen.version < s.credentials[user].version
  }

  // The credential stays, and its version only grows.
  ghost predicate Grown(s: Auth, t: Auth, user: User) {
    user in s.credentials ==> user in t.credentials && s.credentials[user].version <= t.credentials[user].version
  }

  lemma VersionsGrow(s: Auth, e: Event, user: User)
    ensures Grown(s, Step(s, e), user)
  {
    hide CommitChange, SetPassword, Register, Confirm, BeginLogin, CommitLogin, Authenticate, BeginChange, IssueToken;
    match e
    case SetPasswordEvent(u, email, password, salt, schema) => SetPasswordGrows(s, u, email, password, salt, schema, user);
    case RegisterEvent(u, email, password, salt, byAdministrator, token, now) =>
      RegisterGrows(s, u, email, password, salt, byAdministrator, token, now, user);
    case ConfirmEvent(token, collection, purpose, password, salt, now) => ConfirmGrows(s, token, collection, purpose, password, salt, now, user);
    case CommitChangeEvent(op, now) => CommitChangeGrows(s, op, now, user);
    case _ => CredentialsStay(s, e);
  }

  lemma SetPasswordGrows(s: Auth, u: User, email: string, password: string, salt: nat, schema: nat, user: User)
    ensures Grown(s, SetPassword(s, u, email, password, salt, schema), user)
  {
    hide EmailTaken, RevokeAll, ValidPassword;
  }

  lemma RegisterGrows(s: Auth, u: User, email: string, password: string, salt: nat, byAdministrator: bool, token: string, now: int, user: User)
    ensures Grown(s, Register(s, u, email, password, salt, byAdministrator, token, now), user)
  {
    hide EmailTaken, ValidPassword, Newest, Recent;
  }

  lemma ConfirmGrows(s: Auth, id: string, collection: string, purpose: Purpose, password: string, salt: nat, now: int, user: User)
    ensures Grown(s, Confirm(s, id, collection, purpose, password, salt, now), user)
  {
    hide RevokeAll, BurnAll, ValidPassword;
  }

  lemma CommitChangeGrows(s: Auth, op: nat, now: int, user: User)
    ensures Grown(s, CommitChange(s, op, now), user)
  {
    hide RevokeAll;
  }

  lemma CredentialsStay(s: Auth, e: Event)
    requires !(e.SetPasswordEvent? || e.RegisterEvent? || e.ConfirmEvent? || e.CommitChangeEvent?)
    ensures Step(s, e).credentials == s.credentials
  {
    hide BeginLogin, CommitLogin, Authenticate, BeginChange, IssueToken, CommitChange, SetPassword, Register, Confirm;
    match e
    case BeginLoginEvent(op, user, email, password) => BeginLoginOnly(s, op, user, email, password);
    case CommitLoginEvent(op, session, now) => CommitLoginOnly(s, op, session, now);
    case AuthenticateEvent(op, collection, session, password, now) => AuthenticateOnly(s, op, collection, session, password, now);
    case BeginChangeEvent(op, current, salt) => BeginChangeOnly(s, op, current, salt);
    case IssueTokenEvent(token, user, purpose, now) => TokensOnly(s, token, user, purpose, now);
    case _ =>
  }

  // Credentials and tokens are as they were.
  ghost predicate Untouched(s: Auth, t: Auth) {
    t.credentials == s.credentials && t.tokens == s.tokens && t.tokenIds == s.tokenIds
  }

  lemma BeginLoginOnly(s: Auth, op: nat, user: User, email: string, password: string)
    ensures Untouched(s, BeginLogin(s, op, user, email, password))
  {
    hide MayLogin;
  }

  lemma CommitLoginOnly(s: Auth, op: nat, session: string, now: int)
    ensures Untouched(s, CommitLogin(s, op, session, now))
  {
    hide LoginStands;
    if op in s.logins && session !in s.sessions {
      var ended := s.(logins := s.logins - {op});
      assert Untouched(s, ended);
    }
  }

  lemma AuthenticateOnly(s: Auth, op: nat, collection: string, session: string, password: string, now: int)
    ensures Untouched(s, Authenticate(s, op, collection, session, password, now))
  {
    hide Authenticates, ValidPassword;
  }

  lemma BeginChangeOnly(s: Auth, op: nat, current: string, salt: nat)
    ensures Untouched(s, BeginChange(s, op, current, salt))
  {
    hide ValidPassword, Fresh;
  }

  lemma TokensOnly(s: Auth, id: string, user: User, purpose: Purpose, now: int)
    ensures IssueToken(s, id, user, purpose, now).credentials == s.credentials
  {
    hide Newest, Recent, MayIssue;
  }

  lemma {:induction false} OutdatedForever(s: Auth, events: seq<Event>, user: User, seen: Credential)
    requires Outdated(s, user, seen)
    ensures Outdated(Run(s, events), user, seen)
    decreases |events|
  {
    hide Step;
    if events != [] {
      VersionsGrow(s, events[0], user);
      OutdatedForever(Step(s, events[0]), events[1..], user, seen);
    }
  }

  // A flow that saw an older version changes nothing: no session opens, no password changes.
  lemma OutdatedFlowsFail(s: Auth, op: nat, session: string, now: int)
    requires AuthInv(s)
    ensures op in s.logins && Outdated(s, s.logins[op].user, s.logins[op].seen) ==>
              CommitLogin(s, op, session, now).sessions == s.sessions
    ensures op in s.changes && Outdated(s, s.changes[op].user, s.changes[op].seen) ==>
              (CommitChange(s, op, now).credentials, CommitChange(s, op, now).sessions) == (s.credentials, s.sessions)
  {
    hide SessionsOk, ReservedOk, CredentialsOk;
    if op in s.logins { assert SeenOk(s.credentials, s.salts, s.logins[op].user, s.logins[op].seen); }
    if op in s.changes { assert SeenOk(s.credentials, s.salts, s.changes[op].user, s.changes[op].seen); }
  }

  // Once a step sets the user's password, a login that checked the one before never opens a session, whatever happens in between.
  lemma OldLoginsNeverSucceed(s: Auth, e: Event, events: seq<Event>, op: nat, session: string, now: int)
    requires AuthInv(s) && op in s.logins
    ensures var user := s.logins[op].user;
            var (t, u) := (Step(s, e), Run(Step(s, e), events));
            user in s.credentials && user in t.credentials
            && (s.credentials[user].version < t.credentials[user].version && op in u.logins && u.logins[op] == s.logins[op] ==>
                  CommitLogin(u, op, session, now).sessions == u.sessions)
  {
    hide Step, SessionsOk, ReservedOk, CredentialsOk, CommitLogin;
    var user := s.logins[op].user;
    assert SeenOk(s.credentials, s.salts, user, s.logins[op].seen);
    VersionsGrow(s, e, user);
    if s.credentials[user].version < Step(s, e).credentials[user].version {
      StepKeeps(s, e);
      RunKeeps(Step(s, e), events);
      OutdatedForever(Step(s, e), events, user, s.logins[op].seen);
      OutdatedFlowsFail(Run(Step(s, e), events), op, session, now);
    }
  }

  // Of two password changes that saw the same credential at most one takes effect.
  lemma OneChangePerSnapshot(s: Auth, first: nat, second: nat, now: int, events: seq<Event>, later: int)
    requires AuthInv(s) && first in s.changes && second in s.changes && first != second
    requires s.changes[first].user == s.changes[second].user && s.changes[first].seen == s.changes[second].seen
    requires ChangeStands(s, s.changes[first], now)
    ensures var t := Run(CommitChange(s, first, now), events);
            second in t.changes && t.changes[second] == s.changes[second] ==>
              (CommitChange(t, second, later).credentials, CommitChange(t, second, later).sessions) == (t.credentials, t.sessions)
  {
    hide Run, SessionsOk, ReservedOk, CredentialsOk;
    assert SeenOk(s.credentials, s.salts, s.changes[first].user, s.changes[first].seen);
    CommitChangeKeeps(s, first, now);
    var t := CommitChange(s, first, now);
    RunKeeps(t, events);
    OutdatedForever(t, events, s.changes[second].user, s.changes[second].seen);
    OutdatedFlowsFail(Run(t, events), second, "", later);
  }

  /* ----- recovery tokens ----- */

  predicate Spent(s: Auth, id: string) {
    id in s.tokenIds && (id in s.tokens ==> s.tokens[id].used)
  }

  // A confirmation burns its token and every other one of the user; a reset leaves no session of the user alive.
  lemma ConfirmingBurns(s: Auth, id: string, collection: string, purpose: Purpose, password: string, salt: nat, now: int)
    requires AuthInv(s) && TokenStands(s, id, collection, purpose, now)
    requires purpose == PasswordReset ==> Fresh(s, salt) && ValidPassword(password)
    ensures var t := Confirm(s, id, collection, purpose, password, salt, now);
            var user := s.tokens[id].user;
            && (forall k | k in t.tokens && t.tokens[k].user == user :: t.tokens[k].used)
            && Spent(t, id)
            && (purpose == PasswordReset ==>
                  && t.credentials[user].password == password && s.credentials[user].version < t.credentials[user].version
                  && forall k | k in t.sessions && t.sessions[k].user == user :: t.sessions[k].revoked)
            && (purpose == EmailVerification ==> t.credentials[user].verified && t.sessions == s.sessions)
  {
    hide SessionsOk, LoginsOk, ChangesOk, ReservedOk, CredentialsOk;
  }

  lemma SpentStays(s: Auth, e: Event, id: string)
    requires Spent(s, id)
    ensures Spent(Step(s, e), id)
  {
    hide BeginLogin, CommitLogin, BeginChange, CommitChange, SetPassword, BurnAll, Issue, WritePassword, EmailTaken;
    match e
    case IssueTokenEvent(token, user, purpose, now) =>
      if MayIssue(s, user, purpose) && token !in s.tokenIds { SpentPastIssue(s, token, user, s.credentials[user].email, purpose, now, id); }
    case RegisterEvent(user, email, password, salt, byAdministrator, token, now) =>
      hide Step;
      RegisterSpends(s, user, email, password, salt, byAdministrator, token, now, id);
    case ConfirmEvent(token, collection, purpose, password, salt, now) =>
      hide Step;
      ConfirmSpends(s, token, collection, purpose, password, salt, now, id);
    case _ => TokensStay(s, e);
  }

  lemma SpentPastIssue(s: Auth, token: string, user: User, email: string, purpose: Purpose, now: int, id: string)
    requires Spent(s, id) && token !in s.tokenIds
    ensures Spent(Issue(s, token, user, email, purpose, now), id)
  {
  }

  lemma RegisterSpends(s: Auth, user: User, email: string, password: string, salt: nat, byAdministrator: bool, token: string, now: int, id: string)
    requires Spent(s, id)
    ensures Spent(Step(s, RegisterEvent(user, email, password, salt, byAdministrator, token, now)), id)
  {
    hide Issue, EmailTaken, ValidPassword;
    if token !in s.tokenIds && user.collection in s.collections {
      var c := Credential(email, password, salt, byAdministrator || s.collections[user.collection].verification != Required, 1);
      var t := s.(profiles := s.profiles + {user}, salts := s.salts + {salt}, credentials := s.credentials[user := c]);
      SpentPastIssue(t, token, user, email, EmailVerification, now, id);
    }
  }

  lemma ConfirmSpends(s: Auth, token: string, collection: string, purpose: Purpose, password: string, salt: nat, now: int, id: string)
    requires Spent(s, id)
    ensures Spent(Step(s, ConfirmEvent(token, collection, purpose, password, salt, now)), id)
  {
    hide RevokeAll, ValidPassword;
  }

  lemma TokensStay(s: Auth, e: Event)
    requires !(e.IssueTokenEvent? || e.RegisterEvent? || e.ConfirmEvent?)
    ensures (Step(s, e).tokens, Step(s, e).tokenIds) == (s.tokens, s.tokenIds)
  {
    hide BeginLogin, CommitLogin, Authenticate, BeginChange, CommitChange, SetPassword, Register, RevokeAll, Confirm, IssueToken;
    match e
    case BeginLoginEvent(op, user, email, password) => BeginLoginOnly(s, op, user, email, password);
    case CommitLoginEvent(op, session, now) => CommitLoginOnly(s, op, session, now);
    case AuthenticateEvent(op, collection, session, password, now) => AuthenticateOnly(s, op, collection, session, password, now);
    case BeginChangeEvent(op, current, salt) => BeginChangeOnly(s, op, current, salt);
    case CommitChangeEvent(op, now) => PasswordsOnly(s, op, now);
    case SetPasswordEvent(user, email, password, salt, schema) => AssignedPasswordsOnly(s, user, email, password, salt, schema);
    case _ =>
  }

  lemma PasswordsOnly(s: Auth, op: nat, now: int)
    ensures (CommitChange(s, op, now).tokens, CommitChange(s, op, now).tokenIds) == (s.tokens, s.tokenIds)
  {
    hide ChangeStands, RevokeAll;
  }

  lemma AssignedPasswordsOnly(s: Auth, user: User, email: string, password: string, salt: nat, schema: nat)
    ensures var t := SetPassword(s, user, email, password, salt, schema); (t.tokens, t.tokenIds) == (s.tokens, s.tokenIds)
  {
    hide EmailTaken, RevokeAll, ValidPassword;
  }

  // How often the token confirms something over the run.
  function Confirmations(s: Auth, events: seq<Event>, id: string): nat
    decreases |events|
  {
    if events == [] then 0
    else
      var e := events[0];
      (if e.ConfirmEvent? && e.token == id && Step(s, e) != s then 1 else 0) + Confirmations(Step(s, e), events[1..], id)
  }

  lemma {:induction false} SpentNeverConfirms(s: Auth, events: seq<Event>, id: string)
    requires Spent(s, id)
    ensures Confirmations(s, events, id) == 0
    decreases |events|
  {
    if events != [] {
      SpentStays(s, events[0], id);
      SpentNeverConfirms(Step(s, events[0]), events[1..], id);
    }
  }

  // Every recovery token works at most once.
  lemma {:induction false} TokensAreSingleUse(s: Auth, events: seq<Event>, id: string)
    requires AuthInv(s)
    ensures Confirmations(s, events, id) <= 1
    decreases |events|
  {
    hide AuthInv;
    if events != [] {
      var e := events[0];
      StepKeeps(s, e);
      if e.ConfirmEvent? && e.token == id && Step(s, e) != s {
        ConfirmingBurns(s, id, e.collection, e.purpose, e.password, e.salt, e.now);
        SpentNeverConfirms(Step(s, e), events[1..], id);
      } else {
        TokensAreSingleUse(Step(s, e), events[1..], id);
      }
    }
  }

  /* ----- how many tokens are kept ----- */

  // Pruning keeps the 1024 newest rows: every row that leaves is older than every row that stays, none leaves if there are no
  // more than 1024, and otherwise 1024 stay.
  lemma PruningKeepsTheNewest(tokens: map<string, Token>)
    ensures forall gone, kept | gone in tokens && gone !in Newest(tokens) && kept in Newest(tokens) :: Older(tokens, gone, kept)
    ensures |Newest(tokens)| == if |tokens| <= MAX_TOKENS then |tokens| else MAX_TOKENS
    ensures |tokens| <= MAX_TOKENS ==> Newest(tokens) == tokens
  {
    forall gone, kept | gone in tokens && gone !in Newest(tokens) && kept in Newest(tokens)
      ensures Older(tokens, gone, kept)
    {
      GoneIsOlder(tokens, gone, kept);
    }
    AtMostTheLimit(tokens);
    AllStayBelowTheLimit(tokens);
    if |tokens| > MAX_TOKENS { TheLimitStays(tokens); }
  }

  // Of two rows the older one has more rows newer than it.
  lemma FewerAreNewer(tokens: map<string, Token>, a: string, b: string)
    requires a in tokens && b in tokens && Older(tokens, a, b)
    ensures |Newer(tokens, b)| < |Newer(tokens, a)|
  {
    forall k | k in Newer(tokens, b)
      ensures k in Newer(tokens, a)
    {
      TextOrder(a, b, k);
    }
    TextBeforeIsStrict(b);
    SubsetIsSmaller(Newer(tokens, b) + {b}, Newer(tokens, a));
    assert |Newer(tokens, b) + {b}| == |Newer(tokens, b)| + 1;
  }

  lemma GoneIsOlder(tokens: map<string, Token>, gone: string, kept: string)
    requires gone in tokens && gone !in Newest(tokens) && kept in Newest(tokens)
    ensures Older(tokens, gone, kept)
  {
    TextOrder(gone, kept, gone);
    if !Older(tokens, gone, kept) {
      assert Older(tokens, kept, gone);
      FewerAreNewer(tokens, kept, gone);
    }
  }

  lemma AtMostTheLimit(tokens: map<string, Token>)
    ensures |Newest(tokens)| <= MAX_TOKENS
  {
    var kept := Newest(tokens);
    assert |kept| == |kept.Keys|;
    if kept.Keys != {} {
      var oldest := OldestOf(tokens, kept.Keys);
      SubsetIsSmaller(kept.Keys - {oldest}, Newer(tokens, oldest));
      assert |kept.Keys - {oldest}| == |kept.Keys| - 1;
    }
  }

  lemma AllStayBelowTheLimit(tokens: map<string, Token>)
    ensures |tokens| <= MAX_TOKENS ==> Newest(tokens) == tokens
  {
    assert |tokens| == |tokens.Keys|;
    forall id | id in tokens
      ensures |Newer(tokens, id)| < |tokens|
    {
      TextBeforeIsStrict(id);
      SubsetIsSmaller(Newer(tokens, id), tokens.Keys - {id});
    }
  }

  // The newest row that leaves has 1024 newer ones, which all stay.
  lemma TheLimitStays(tokens: map<string, Token>)
    requires |tokens| > MAX_TOKENS
    ensures |Newest(tokens)| >= MAX_TOKENS
  {
    var kept := Newest(tokens);
    assert |kept| == |kept.Keys| && |tokens| == |tokens.Keys|;
    AtMostTheLimit(tokens);
    if tokens.Keys - kept.Keys == {} {
      forall k | k in tokens.Keys
        ensures k in kept.Keys
      {
        assert k !in tokens.Keys - kept.Keys;
      }
      SubsetIsSmaller(tokens.Keys, kept.Keys);
    }
    var newest := NewestOf(tokens, tokens.Keys - kept.Keys);
    forall k | k in Newer(tokens, newest)
      ensures k in kept
    {
      TextOrder(k, newest, k);
      TextBeforeIsStrict(k);
      assert k in tokens.Keys - kept.Keys && k != newest ==> Older(tokens, k, newest);
    }
    SubsetIsSmaller(Newer(tokens, newest), kept.Keys);
  }

  lemma {:induction false} NewestOf(tokens: map<string, Token>, ids: set<string>) returns (newest: string)
    requires ids <= tokens.Keys && ids != {}
    ensures newest in ids && forall k | k in ids && k != newest :: Older(tokens, k, newest)
    decreases ids
  {
    var k :| k in ids;
    newest := k;
    if ids != {k} {
      var last := NewestOf(tokens, ids - {k});
      TextOrder(k, last, k);
      if Older(tokens, last, k) {
        forall l | l in ids && l != k
          ensures Older(tokens, l, k)
        {
          assert l != last ==> Older(tokens, l, last);
          TextOrder(l, last, k);
        }
      } else {
        newest := last;
      }
    }
  }

  lemma {:induction false} OldestOf(tokens: map<string, Token>, ids: set<string>) returns (oldest: string)
    requires ids <= tokens.Keys && ids != {}
    ensures oldest in ids && forall k | k in ids && k != oldest :: Older(tokens, oldest, k)
    decreases ids
  {
    var k :| k in ids;
    oldest := k;
    if ids != {k} {
      var first := OldestOf(tokens, ids - {k});
      TextOrder(k, first, k);
      if Older(tokens, k, first) {
        forall l | l in ids && l != k
          ensures Older(tokens, k, l)
        {
          assert l != first ==> Older(tokens, first, l);
          TextOrder(k, first, l);
        }
      } else {
        oldest := first;
      }
    }
  }

  // The kept tokens of one kind that were issued in an hour.
  function IssuedIn(tokens: map<string, Token>, collection: string, email: string, purpose: Purpose, since: int): set<string> {
    set id | id in tokens && IsRecent(tokens[id], collection, email, purpose, since) && tokens[id].created <= since + HOUR
  }

  ghost predicate TokensOk(tokens: map<string, Token>) {
    && |tokens| <= MAX_TOKENS + 1
    && forall collection, email, purpose, since :: |IssuedIn(tokens, collection, email, purpose, since)| <= HOURLY_LIMIT
  }

  // Tokens leave, or are used; what stays was issued when it was.
  lemma FewerTokensOk(tokens: map<string, Token>, fewer: map<string, Token>)
    requires TokensOk(tokens) && fewer.Keys <= tokens.Keys
    requires forall id | id in fewer :: fewer[id].(used := true) == tokens[id].(used := true)
    ensures TokensOk(fewer)
  {
    SubsetIsSmaller(fewer.Keys, tokens.Keys);
    assert |fewer| == |fewer.Keys| && |tokens| == |tokens.Keys|;
    forall collection, email, purpose, since
      ensures |IssuedIn(fewer, collection, email, purpose, since)| <= HOURLY_LIMIT
    {
      SubsetIsSmaller(IssuedIn(fewer, collection, email, purpose, since), IssuedIn(tokens, collection, email, purpose, since));
    }
  }

  // The tokens of any hour that has the new one in it were counted when it was issued, whatever the clock has done.
  lemma AddedTokenOk(tokens: map<string, Token>, id: string, t: Token)
    requires TokensOk(tokens) && |tokens| <= MAX_TOKENS && id !in tokens
    requires |Recent(tokens, t.user.collection, t.email, t.purpose, t.created - HOUR)| < HOURLY_LIMIT
    ensures TokensOk(tokens[id := t])
  {
    hide IssuedIn, Recent;
    var added := tokens[id := t];
    assert added.Keys == tokens.Keys + {id} && |added| == |added.Keys| && |tokens| == |tokens.Keys|;
    forall collection, email, purpose, since
      ensures |IssuedIn(added, collection, email, purpose, since)| <= HOURLY_LIMIT
    {
      AddedWindow(tokens, id, t, collection, email, purpose, since);
    }
  }

  lemma AddedWindow(tokens: map<string, Token>, id: string, t: Token, collection: string, email: string, purpose: Purpose, since: int)
    requires id !in tokens && |IssuedIn(tokens, collection, email, purpose, since)| <= HOURLY_LIMIT
    requires |Recent(tokens, t.user.collection, t.email, t.purpose, t.created - HOUR)| < HOURLY_LIMIT
    ensures |IssuedIn(tokens[id := t], collection, email, purpose, since)| <= HOURLY_LIMIT
  {
    var issued := IssuedIn(tokens[id := t], collection, email, purpose, since);
    if id in issued {
      var recent := Recent(tokens, t.user.collection, t.email, t.purpose, t.created - HOUR);
      assert issued - {id} <= recent;
      SubsetIsSmaller(issued - {id}, recent);
      assert issued == (issued - {id}) + {id};
    } else {
      assert issued == IssuedIn(tokens, collection, email, purpose, since);
    }
  }

  lemma NewestAreSome(tokens: map<string, Token>, collection: string, email: string, purpose: Purpose, since: int)
    ensures var kept := Newest(tokens);
            && kept.Keys <= tokens.Keys && (forall id | id in kept :: kept[id] == tokens[id])
            && |Recent(kept, collection, email, purpose, since)| <= |Recent(tokens, collection, email, purpose, since)|
  {
    SubsetIsSmaller(Recent(Newest(tokens), collection, email, purpose, since), Recent(tokens, collection, email, purpose, since));
  }

  lemma NewestOk(tokens: map<string, Token>)
    requires TokensOk(tokens)
    ensures TokensOk(Newest(tokens)) && |Newest(tokens)| <= MAX_TOKENS
  {
    hide TokensOk;
    FewerTokensOk(tokens, Newest(tokens));
    AtMostTheLimit(tokens);
  }

  lemma IssueKeepsLimits(s: Auth, id: string, user: User, email: string, purpose: Purpose, now: int)
    requires TokensOk(s.tokens) && id !in s.tokens
    ensures TokensOk(Issue(s, id, user, email, purpose, now).tokens)
  {
    hide TokensOk, Newest, Recent;
    var kept := Newest(s.tokens);
    NewestAreSome(s.tokens, user.collection, email, purpose, now - HOUR);
    NewestOk(s.tokens);
    if |Recent(s.tokens, user.collection, email, purpose, now - HOUR)| < HOURLY_LIMIT {
      AddedTokenOk(kept, id, Token(user, email, purpose, now, now + TOKEN_LIFETIME, false));
    }
  }

  // A token that was never issued is not kept.
  ghost predicate TokensInv(s: Auth) {
    var ok := s.tokens.Keys <= s.tokenIds && TokensOk(s.tokens);
    ok
  }

  lemma StepKeepsLimits(s: Auth, e: Event)
    requires TokensInv(s)
    ensures TokensInv(Step(s, e))
  {
    hide TokensOk, BeginLogin, CommitLogin, Authenticate, BeginChange, CommitChange, SetPassword, BurnAll, Issue, WritePassword, EmailTaken;
    match e
    case IssueTokenEvent(token, user, purpose, now) =>
      if MayIssue(s, user, purpose) && token !in s.tokenIds {
        IssueKeepsIds(s, token, user, s.credentials[user].email, purpose, now);
      }
    case RegisterEvent(user, email, password, salt, byAdministrator, token, now) =>
      hide Step;
      RegisterKeepsLimits(s, user, email, password, salt, byAdministrator, token, now);
    case ConfirmEvent(token, collection, purpose, password, salt, now) =>
      if TokenStands(s, token, collection, purpose, now) {
        FewerTokensOk(s.tokens, BurnAll(s.tokens, s.tokens[token].user));
        hide Step;
        ConfirmedTokens(s, token, collection, purpose, password, salt, now);
      }
    case _ => TokensStay(s, e);
  }

  lemma IssueKeepsIds(s: Auth, id: string, user: User, email: string, purpose: Purpose, now: int)
    requires TokensInv(s) && id !in s.tokens
    ensures TokensInv(Issue(s, id, user, email, purpose, now))
  {
    IssueKeepsLimits(s, id, user, email, purpose, now);
    hide TokensOk, Recent;
  }

  lemma ConfirmedTokens(s: Auth, id: string, collection: string, purpose: Purpose, password: string, salt: nat, now: int)
    requires TokenStands(s, id, collection, purpose, now)
    ensures var t := Step(s, ConfirmEvent(id, collection, purpose, password, salt, now));
            t.tokenIds == s.tokenIds && (t.tokens == s.tokens || t.tokens == BurnAll(s.tokens, s.tokens[id].user))
  {
    hide RevokeAll, BurnAll;
  }

  lemma RegisterKeepsLimits(s: Auth, user: User, email: string, password: string, salt: nat, byAdministrator: bool, token: string, now: int)
    requires TokensInv(s)
    ensures TokensInv(Step(s, RegisterEvent(user, email, password, salt, byAdministrator, token, now)))
  {
    hide TokensOk, Issue, EmailTaken;
    if token !in s.tokenIds && user.collection in s.collections {
      var c := Credential(email, password, salt, byAdministrator || s.collections[user.collection].verification != Required, 1);
      var t := s.(profiles := s.profiles + {user}, salts := s.salts + {salt}, credentials := s.credentials[user := c]);
      IssueKeepsIds(t, token, user, email, EmailVerification, now);
    }
  }

  lemma {:induction false} RunKeepsLimits(s: Auth, events: seq<Event>)
    requires TokensInv(s)
    ensures TokensInv(Run(s, events))
    decreases |events|
  {
    hide TokensInv, Step;
    if events != [] {
      StepKeepsLimits(s, events[0]);
      RunKeepsLimits(Step(s, events[0]), events[1..]);
    }
  }

  // In every reachable state at most 1025 tokens are kept, and of those kept no more than 16 of one purpose and address were
  // issued in any one hour.
  lemma TokensAreLimited(events: seq<Event>, collection: string, email: string, purpose: Purpose, since: int)
    ensures var s := Run(EMPTY, events);
            |s.tokens| <= MAX_TOKENS + 1 && |IssuedIn(s.tokens, collection, email, purpose, since)| <= HOURLY_LIMIT
  {
    assert forall c, m, p, i :: IssuedIn(EMPTY.tokens, c, m, p, i) == {};
    RunKeepsLimits(EMPTY, events);
  }
}
