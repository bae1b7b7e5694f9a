/**
  When each account request is accepted, in the words of the tables, and what it then means over
  runs: which password logs in, which token opens a session, which reset token can be redeemed.
 */
module AccountLaws {
  import opened Common
  import opened Text
  import opened Accounts
  import opened AccountProofs
  import opened AccountRuns

  // ── When requests are accepted ───────────────────────────────────────

  /** The user with the address may log in with the password. */
  ghost predicate MayLogIn(db: Db, c: Config, tenant: Id, email: string, password: string, u: Id) {
    && u in db.users && db.users[u].tenant == tenant && Lower(db.users[u].email) == Lower(email)
    && !db.users[u].disabled && db.users[u].password.Some? && c.matches(password, db.users[u].password.value)
  }

  /** A login is accepted exactly for an active user's own password, and opens one session of that user. */
  lemma LoginIff(db: Db, c: Config, tenant: Id, email: string, password: string, tokenHash: string, now: Time, u: Id)
    requires EmailsUnique(db.users)
    ensures Handle(db, c, Login(tenant, email, password, tokenHash), now).Ok? <==>
            exists v :: MayLogIn(db, c, tenant, email, password, v)
    ensures MayLogIn(db, c, tenant, email, password, u) ==>
              Handle(db, c, Login(tenant, email, password, tokenHash), now)
              == Ok(db.(sessions := db.sessions[db.nextId :=
                          Session(u, tokenHash, !db.users[u].mfaRequired, now + c.sessionLifetime, false)],
                        nextId := db.nextId + 1))
  {
    hide EmailsUnique, Lower;
    forall v, w | v in db.users && w in db.users && HasEmail(db.users[v], tenant, email) && HasEmail(db.users[w], tenant, email)
      ensures v == w
    {
      EmailIsUnique(db, tenant, email, v, w);
    }
    if v :| MayLogIn(db, c, tenant, email, password, v) {
      assert HasEmail(db.users[v], tenant, email);
    }
    if MayLogIn(db, c, tenant, email, password, u) {
      assert HasEmail(db.users[u], tenant, email);
    }
    if Handle(db, c, Login(tenant, email, password, tokenHash), now).Ok? {
      var v :| v in db.users && HasEmail(db.users[v], tenant, email);
      assert MayLogIn(db, c, tenant, email, password, v);
    }
  }

  /** The bearer's token names an unrevoked, unexpired session of an active user, and fits it. */
  ghost predicate Opens(db: Db, c: Config, bearer: Bearer, now: Time, s: Id) {
    && bearer.Some? && bearer.value.id == s && s in db.sessions && db.sessions[s].user in db.users
    && !db.sessions[s].revoked && now <= db.sessions[s].expires && !db.users[db.sessions[s].user].disabled
    && c.matches(bearer.value.secret, db.sessions[s].tokenHash)
  }

  lemma ResolveIff(db: Db, c: Config, bearer: Bearer, now: Time, s: Id)
    ensures Resolve(db, c, bearer, now) == Ok(s) <==> Opens(db, c, bearer, now, s)
  {
  }

  /** A reset is redeemed with a strong new password and a fitting token, unused and in time. */
  lemma RedeemIff(db: Db, c: Config, token: Bearer, newPassword: string, newHash: string, now: Time)
    requires IdsFresh(db)
    ensures Handle(db, c, ConfirmReset(token, newPassword, newHash), now).Ok? <==>
            && c.strong(newPassword) && token.Some? && token.value.id in db.resets
            && !db.resets[token.value.id].used && now <= db.resets[token.value.id].expires
            && c.matches(token.value.secret, db.resets[token.value.id].tokenHash)
  {
    hide Redeem;
  }

  /** Whoever holds a session changes the password with the current one and a strong new one. */
  lemma SetPasswordIff(db: Db, c: Config, bearer: Bearer, current: string, newPassword: string, newHash: string, now: Time)
    ensures Handle(db, c, SetPassword(bearer, current, newPassword, newHash), now).Ok? <==>
            exists s :: Opens(db, c, bearer, now, s) && c.strong(newPassword)
                        && db.users[db.sessions[s].user].password.Some?
                        && c.matches(current, db.users[db.sessions[s].user].password.value)
  {
    if Resolve(db, c, bearer, now).Ok? { ResolveIff(db, c, bearer, now, Resolve(db, c, bearer, now).value); }
    if s :| Opens(db, c, bearer, now, s) { ResolveIff(db, c, bearer, now, s); }
    hide Opens, Resolve, RevokeOthers, SetHash;
  }

  /** A factor of the user that the code fits: a confirmed TOTP or a backup code, unrevoked. */
  ghost predicate Fits(db: Db, c: Config, u: Id, code: string, now: Time, f: Id) {
    && f in db.factors && db.factors[f].user == u && !db.factors[f].revoked
    && match db.factors[f].kind
       case Totp => db.factors[f].confirmed && c.totp(db.factors[f].secret, code, now)
       case BackupCode => c.matches(code, db.factors[f].secret)
  }

  /**
    On an unverified session of a user held to MFA, a verification goes through exactly if the
    code fits one of the user's factors. It verifies that session alone, and revokes that factor
    alone if it is a backup code and none if it is not.
   */
  lemma VerifyIff(db: Db, c: Config, bearer: Bearer, code: string, scanned: Option<Id>, now: Time, s: Id)
    requires Opens(db, c, bearer, now, s) && IsScan(db, c, db.sessions[s].user, code, scanned)
    ensures Handle(db, c, TotpVerify(bearer, code, scanned), now).Ok? <==>
            db.sessions[s].mfaVerified
            || (db.users[db.sessions[s].user].mfaRequired && exists f :: Fits(db, c, db.sessions[s].user, code, now, f))
    ensures Consumed(db, c, TotpVerify(bearer, code, scanned), now).Some? ==>
              var f := Consumed(db, c, TotpVerify(bearer, code, scanned), now).value;
              && Fits(db, c, db.sessions[s].user, code, now, f)
              && Handle(db, c, TotpVerify(bearer, code, scanned), now)
                 == Ok(db.(sessions := db.sessions[s := db.sessions[s].(mfaVerified := true)],
                           factors := if db.factors[f].kind == BackupCode
                                      then db.factors[f := db.factors[f].(revoked := true)] else db.factors))
  {
    ResolveIff(db, c, bearer, now, s);
    var u := db.sessions[s].user;
    AcceptedIs(db, c, u, code, scanned, now);
    forall f ensures Fits(db, c, u, code, now, f) <==>
      (EnrolledTotp(db.factors, u, f) && c.totp(db.factors[f].secret, code, now)) || Accounts.Opens(db, c, u, code, f)
    {
    }
    AcceptedTotpFits(db, c, u, code, scanned, now);
    hide Opens, Resolve, Accepts, IsScan, Fits, EnrolledTotp, Accounts.Opens;
  }

  lemma AcceptedTotpFits(db: Db, c: Config, u: Id, code: string, scanned: Option<Id>, now: Time)
    requires IsScan(db, c, u, code, scanned)
    ensures var f := Accepts(db, c, u, code, scanned, now);
            f.Some? ==> (EnrolledTotp(db.factors, u, f.value) && c.totp(db.factors[f.value].secret, code, now))
                        || Accounts.Opens(db, c, u, code, f.value)
  {
  }

  /** Setting up needs a session of a user without an unrevoked TOTP, and adds a pending one with the given secret. */
  lemma SetupIff(db: Db, c: Config, bearer: Bearer, secret: string, now: Time, s: Id)
    requires Opens(db, c, bearer, now, s)
    ensures Handle(db, c, TotpSetup(bearer, secret), now).Ok? <==>
            !exists f :: f in db.factors && db.factors[f].user == db.sessions[s].user
                         && db.factors[f].kind == Totp && !db.factors[f].revoked
    ensures Handle(db, c, TotpSetup(bearer, secret), now).Ok? ==>
              Handle(db, c, TotpSetup(bearer, secret), now).value
              == db.(factors := db.factors[db.nextId := Factor(db.sessions[s].user, Totp, false, secret, false)],
                     nextId := db.nextId + 1)
  {
    ResolveIff(db, c, bearer, now, s);
    hide Opens, Resolve;
    var u := db.sessions[s].user;
    if f :| f in db.factors && db.factors[f].user == u && db.factors[f].kind == Totp && !db.factors[f].revoked {
      assert ActiveTotp(db.factors, u, f);
    }
  }

  /** One unrevoked row for each backup code, from the given id on. */
  ghost predicate BackupsAre(factors: map<Id, Factor>, u: Id, base: Id, backups: seq<string>) {
    forall k: nat :: k < |backups| ==> BackupIs(factors, u, base + k, backups[k])
  }

  predicate BackupIs(factors: map<Id, Factor>, u: Id, f: Id, secret: string) {
    f in factors && factors[f] == Factor(u, BackupCode, true, secret, false)
  }

  /** Confirming needs the user's own pending TOTP and a code that fits it; it enrols, with the backup codes given. */
  lemma ConfirmIff(db: Db, c: Config, bearer: Bearer, f: Id, code: string, backups: seq<string>, now: Time, s: Id)
    requires IdsFresh(db) && Opens(db, c, bearer, now, s)
    ensures Handle(db, c, TotpConfirm(bearer, f, code, backups), now).Ok? <==>
            && f in db.factors && db.factors[f].user == db.sessions[s].user && db.factors[f].kind == Totp
            && !db.factors[f].revoked && !db.factors[f].confirmed && c.totp(db.factors[f].secret, code, now)
    ensures Handle(db, c, TotpConfirm(bearer, f, code, backups), now).Ok? ==>
              var db' := Handle(db, c, TotpConfirm(bearer, f, code, backups), now).value;
              var u := db.sessions[s].user;
              && db'.users == db.users[u := db.users[u].(mfaEnrolled := true)]
              && f in db'.factors && db'.factors[f] == db.factors[f].(confirmed := true)
              && (forall g :: g in db.factors && g != f ==> g in db'.factors && db'.factors[g] == db.factors[g])
              && (forall g :: g in db'.factors && g !in db.factors ==> db.nextId <= g < db.nextId + |backups|)
              && BackupsAre(db'.factors, u, db.nextId, backups)
  {
    ResolveIff(db, c, bearer, now, s);
    hide Opens, Resolve;
    var u := db.sessions[s].user;
    if Handle(db, c, TotpConfirm(bearer, f, code, backups), now).Ok? {
      var db' := Handle(db, c, TotpConfirm(bearer, f, code, backups), now).value;
      assert db' == Enrol(db, u, f, backups);
      BackupsStored(db.factors[f := db.factors[f].(confirmed := true)], u, db.nextId, backups);
    }
    hide BackupRows;
  }

  lemma BackupsStored(factors: map<Id, Factor>, u: Id, base: Id, backups: seq<string>)
    ensures BackupsAre(factors + BackupRows(u, base, backups), u, base, backups)
  {
    forall k: nat | k < |backups| ensures BackupIs(factors + BackupRows(u, base, backups), u, base + k, backups[k]) {
      BackupRowAt(u, base, backups, k);
    }
    hide BackupRows, BackupIs;
  }

  lemma {:induction false} BackupRowAt(u: Id, base: Id, backups: seq<string>, k: nat)
    requires k < |backups|
    ensures base + k in BackupRows(u, base, backups) && BackupRows(u, base, backups)[base + k] == Factor(u, BackupCode, true, backups[k], false)
  {
    if k < |backups| - 1 { BackupRowAt(u, base, backups[..|backups| - 1], k); }
  }

  /** A factor is revoked by its own user alone, and no other factor with it. */
  lemma RevokeIff(db: Db, c: Config, bearer: Bearer, f: Id, now: Time, s: Id)
    requires Opens(db, c, bearer, now, s)
    ensures Handle(db, c, RevokeFactor(bearer, f), now).Ok? <==>
            f in db.factors && db.factors[f].user == db.sessions[s].user && !db.factors[f].revoked
    ensures Handle(db, c, RevokeFactor(bearer, f), now).Ok? ==>
              Handle(db, c, RevokeFactor(bearer, f), now).value.factors == db.factors[f := db.factors[f].(revoked := true)]
  {
    ResolveIff(db, c, bearer, now, s);
    hide Opens, Resolve, EnrolledTotp;
  }

  /** Without a session that opens, every request of a logged-in user is refused. */
  lemma NoSessionNoRequest(db: Db, c: Config, req: Request, now: Time)
    requires NeedsSession(req) && forall s :: !Opens(db, c, req.bearer, now, s)
    ensures Handle(db, c, req, now) == Err(Unauthorized)
  {
    hide HandleOwn;
    if Resolve(db, c, req.bearer, now).Ok? { ResolveIff(db, c, req.bearer, now, Resolve(db, c, req.bearer, now).value); }
    hide Opens, Resolve;
  }

  /** The administrator's requests: whom they touch, when, and what becomes of the row. */
  lemma AdminIff(db: Db, c: Config, tenant: Id, u: Id, role: Role, now: Time)
    ensures var mine := u in db.users && db.users[u].tenant == tenant;
            && (Handle(db, c, UpdateUser(tenant, u, Some(role)), now).Ok? <==> mine)
            && (Handle(db, c, EnableUser(tenant, u), now).Ok? <==> mine && db.users[u].disabled)
            && (Handle(db, c, DisableUser(tenant, u), now).Ok? <==>
                  && mine && !db.users[u].disabled
                  && (db.users[u].role == AccountOwner ==>
                        exists v :: v in db.users && v != u && db.users[v].tenant == tenant
                                    && db.users[v].role == AccountOwner && !db.users[v].disabled))
            && (Handle(db, c, IssueReset(tenant, u, "x"), now).Ok? <==> mine && !db.users[u].disabled)
    ensures Handle(db, c, UpdateUser(tenant, u, Some(role)), now).Ok? ==>
              Handle(db, c, UpdateUser(tenant, u, Some(role)), now).value.users
              == db.users[u := db.users[u].(role := role, mfaRequired := db.users[u].mfaRequired || role == AccountOwner || role == Editor)]
    ensures Handle(db, c, DisableUser(tenant, u), now).Ok? ==>
              Handle(db, c, DisableUser(tenant, u), now).value == db.(users := db.users[u := db.users[u].(disabled := true)])
  {
    if v :| v in db.users && v != u && db.users[v].tenant == tenant && db.users[v].role == AccountOwner && !db.users[v].disabled {
      assert v in OtherOwners(db, tenant, u);
    }
    if OtherOwners(db, tenant, u) != {} {
      var v :| v in OtherOwners(db, tenant, u);
    }
  }

  /** A user is made for a live tenant and a free address, without a password, held to MFA unless a viewer. */
  lemma CreateIff(db: Db, c: Config, tenant: Id, email: string, role: Role, standing: Standing, now: Time)
    ensures Handle(db, c, CreateUser(tenant, email, role, standing), now).Ok? <==>
            standing == LiveTenant
            && !exists u :: u in db.users && db.users[u].tenant == tenant && Lower(db.users[u].email) == Lower(email)
    ensures Handle(db, c, CreateUser(tenant, email, role, standing), now).Ok? ==>
              Handle(db, c, CreateUser(tenant, email, role, standing), now).value
              == db.(users := db.users[db.nextId :=
                       User(tenant, email, role, None, role == AccountOwner || role == Editor, false, false)],
                     nextId := db.nextId + 1)
  {
    hide Lower;
    if u :| u in db.users && db.users[u].tenant == tenant && Lower(db.users[u].email) == Lower(email) {
      assert HasEmail(db.users[u], tenant, email);
    }
  }

  /** The error of each refused request of a logged-in user whose session opens. */
  lemma OwnRefusals(db: Db, c: Config, req: Request, now: Time, s: Id)
    requires NeedsSession(req) && Opens(db, c, req.bearer, now, s) && Handle(db, c, req, now).Err?
    requires req.TotpVerify? ==> IsScan(db, c, db.sessions[s].user, req.code, req.scanned)
    ensures var e, user := Handle(db, c, req, now).error, db.sessions[s].user;
            match req
            case TotpSetup(_, _) => e == Conflict
            case TotpConfirm(_, f, _, _) =>
              e == if !(f in db.factors && db.factors[f].user == user && db.factors[f].kind == Totp && !db.factors[f].revoked)
                   then NotFound else if db.factors[f].confirmed then Conflict else BadRequest
            case RevokeFactor(_, _) => e == NotFound
            case TotpVerify(_, _, _) => e == if db.users[user].mfaRequired then BadRequest else Conflict
            case SetPassword(_, _, newPassword, _) =>
              e == if !c.strong(newPassword) then BadRequest
                   else if db.users[user].password.None? then Conflict else Unauthorized
            case _ => false
  {
    ResolveIff(db, c, req.bearer, now, s);
    hide Opens, Resolve, Accepts, IsScan, EnrolledTotp, AddTotp, Enrol, DropAndUnenrol, Accounts.Opens;
  }

  /** The error of each other refused request. */
  lemma OtherRefusals(db: Db, c: Config, req: Request, now: Time)
    requires !NeedsSession(req) && Handle(db, c, req, now).Err?
    ensures var e := Handle(db, c, req, now).error;
            match req
            case Login(_, _, _, _) => e == Unauthorized
            case ConfirmReset(_, _, _) => e == BadRequest
            case IssueReset(_, _, _) => e == NotFound
            case CreateUser(_, _, _, standing) => e == if standing == NoTenant then NotFound else Conflict
            case UpdateUser(_, _, _) => e == NotFound
            case DisableUser(tenant, u) => e == if u in db.users && db.users[u].tenant == tenant then Conflict else NotFound
            case EnableUser(tenant, u) => e == if u in db.users && db.users[u].tenant == tenant then Conflict else NotFound
            case _ => false
  {
    hide HasEmail, HandleOwn, OtherOwners, Resolve;
  }

  // ── What one call does to rows that exist ────────────────────────────

  ghost predicate Accepted(db: Db, c: Config, call: Call) { Handle(db, c, call.req, call.now).Ok? }

  /** The accepted call comes from a session of this user. */
  ghost predicate CalledBy(db: Db, c: Config, call: Call, u: Id) {
    NeedsSession(call.req) && exists s :: Opens(db, c, call.req.bearer, call.now, s) && db.sessions[s].user == u
  }

  /** The hash that an accepted call sets for the user: a change of password, or a reset of that user's. */
  ghost function SetsPassword(db: Db, c: Config, call: Call, u: Id): Option<string> {
    if !Accepted(db, c, call) then None
    else match call.req
      case SetPassword(_, _, _, newHash) => if CalledBy(db, c, call, u) then Some(newHash) else None
      case ConfirmReset(token, _, newHash) =>
        if token.Some? && token.value.id in db.resets && db.resets[token.value.id].user == u then Some(newHash) else None
      case _ => None
  }

  /** An accepted call that ends the session: its own logout, or one that ends the user's sessions. */
  ghost predicate Ends(db: Db, c: Config, call: Call, s: Id)
    requires s in db.sessions
  {
    Accepted(db, c, call) && match call.req
      case Logout(bearer) => Opens(db, c, bearer, call.now, s)
      case LogoutAll(_) => CalledBy(db, c, call, db.sessions[s].user)
      case SetPassword(bearer, _, _, _) =>
        CalledBy(db, c, call, db.sessions[s].user) && !Opens(db, c, bearer, call.now, s)
      case ConfirmReset(token, _, _) =>
        token.Some? && token.value.id in db.resets && db.resets[token.value.id].user == db.sessions[s].user
      case _ => false
  }

  /** An accepted call that uses the reset up: its redemption, or a new one issued to the same user. */
  ghost predicate UsesUp(db: Db, c: Config, call: Call, r: Id)
    requires r in db.resets
  {
    Accepted(db, c, call) && match call.req
      case ConfirmReset(token, _, _) => token.Some? && token.value.id == r
      case IssueReset(_, user, _) => user == db.resets[r].user
      case _ => false
  }

  /** Whether an accepted call disables or enables the user. */
  ghost function Switches(db: Db, c: Config, call: Call, u: Id): Option<bool> {
    if Accepted(db, c, call) && call.req.DisableUser? && call.req.user == u then Some(true)
    else if Accepted(db, c, call) && call.req.EnableUser? && call.req.user == u then Some(false)
    else None
  }

  lemma CallerIs(db: Db, c: Config, call: Call, s: Id)
    requires NeedsSession(call.req) && Resolve(db, c, call.req.bearer, call.now) == Ok(s)
    ensures Opens(db, c, call.req.bearer, call.now, s)
    ensures forall t :: Opens(db, c, call.req.bearer, call.now, t) ==> t == s
    ensures forall u :: CalledBy(db, c, call, u) <==> u == db.sessions[s].user
  {
    ResolveIff(db, c, call.req.bearer, call.now, s);
    hide Resolve;
  }

  lemma AcceptedHasCaller(db: Db, c: Config, call: Call) returns (s: Id)
    requires NeedsSession(call.req) && Accepted(db, c, call)
    ensures Resolve(db, c, call.req.bearer, call.now) == Ok(s)
    ensures s in db.sessions && db.sessions[s].user in db.users
    ensures Handle(db, c, call.req, call.now) == HandleOwn(db, c, call.req, s, call.now)
  {
    hide HandleOwn;
    s := Resolve(db, c, call.req.bearer, call.now).value;
  }

  /** A user's password changes by nothing else. */
  lemma PasswordStep(db: Db, c: Config, call: Call, u: Id)
    requires IdsFresh(db) && u in db.users
    ensures u in Next(db, c, call).users
    ensures Next(db, c, call).users[u].password
            == if SetsPassword(db, c, call, u).Some? then SetsPassword(db, c, call, u) else db.users[u].password
  {
    hide HasEmail, OtherOwners, Accepts, IsScan, ActiveTotp, EnrolledTotp, CalledBy, Opens, Resolve;
    if NeedsSession(call.req) && Accepted(db, c, call) {
      var s := AcceptedHasCaller(db, c, call);
      CallerIs(db, c, call, s);
    }
  }

  /** A user is disabled and enabled by nothing else. */
  lemma DisabledStep(db: Db, c: Config, call: Call, u: Id)
    requires IdsFresh(db) && u in db.users
    ensures u in Next(db, c, call).users
    ensures Next(db, c, call).users[u].disabled
            == if Switches(db, c, call, u).Some? then Switches(db, c, call, u).value else db.users[u].disabled
  {
    hide HasEmail, OtherOwners, Accepts, IsScan, ActiveTotp, EnrolledTotp, Resolve;
    if NeedsSession(call.req) && Accepted(db, c, call) {
      var s := AcceptedHasCaller(db, c, call);
    }
  }

  /** A session ends by nothing else. */
  lemma SessionStep(db: Db, c: Config, call: Call, s: Id)
    requires IdsFresh(db) && s in db.sessions
    ensures s in Next(db, c, call).sessions
    ensures Next(db, c, call).sessions[s].revoked <==> db.sessions[s].revoked || Ends(db, c, call, s)
  {
    hide HasEmail, OtherOwners, Accepts, IsScan, ActiveTotp, EnrolledTotp, CalledBy, Opens, Resolve;
    if NeedsSession(call.req) && Accepted(db, c, call) {
      var mine := AcceptedHasCaller(db, c, call);
      CallerIs(db, c, call, mine);
    }
  }

  /** A reset is used up by nothing else. */
  lemma ResetStep(db: Db, c: Config, call: Call, r: Id)
    requires IdsFresh(db) && r in db.resets
    ensures r in Next(db, c, call).resets
    ensures Next(db, c, call).resets[r].used <==> db.resets[r].used || UsesUp(db, c, call, r)
  {
    hide HasEmail, OtherOwners, Accepts, IsScan, ActiveTotp, EnrolledTotp, Resolve;
    if NeedsSession(call.req) && Accepted(db, c, call) {
      var mine := AcceptedHasCaller(db, c, call);
    }
  }

  /** New users start without a password, active. */
  lemma NewUsers(db: Db, c: Config, call: Call, u: Id)
    requires IdsFresh(db) && u !in db.users && u in Next(db, c, call).users
    ensures Next(db, c, call).users[u].password == None && !Next(db, c, call).users[u].disabled
  {
    hide HasEmail, OtherOwners, Accepts, IsScan, ActiveTotp, EnrolledTotp, Resolve;
    if NeedsSession(call.req) && Accepted(db, c, call) {
      var mine := AcceptedHasCaller(db, c, call);
    }
  }

  /** Nobody sets the password of a user who is not there, or disables that user. */
  lemma NothingForNobody(db: Db, c: Config, call: Call, u: Id)
    requires IdsFresh(db) && u !in db.users
    ensures SetsPassword(db, c, call, u) == None && Switches(db, c, call, u) == None
  {
    hide HasEmail, OtherOwners, Accepts, IsScan, HandleOwn;
  }

  // ── Over runs ────────────────────────────────────────────────────────

  /** The hash set last for the user by the first n calls. */
  ghost function LastSet(c: Config, calls: seq<Call>, n: nat, u: Id): Option<string>
    requires n <= |calls|
  {
    if n == 0 then None
    else
      var last := SetsPassword(Before(c, calls, n - 1), c, calls[n - 1], u);
      if last.Some? then last else LastSet(c, calls, n - 1, u)
  }

  /** Whether the last of the first n calls to switch the user disabled it. */
  ghost predicate LastDisabled(c: Config, calls: seq<Call>, n: nat, u: Id)
    requires n <= |calls|
  {
    n > 0 &&
    var last := Switches(Before(c, calls, n - 1), c, calls[n - 1], u);
    if last.Some? then last.value else LastDisabled(c, calls, n - 1, u)
  }

  /** After any run a user's password is the one set last, and the user is disabled if the last switch was to disable. */
  lemma {:induction false} UsersAreAsLastSet(c: Config, calls: seq<Call>, n: nat, u: Id)
    requires n <= |calls|
    ensures u in Before(c, calls, n).users ==>
              && Before(c, calls, n).users[u].password == LastSet(c, calls, n, u)
              && (Before(c, calls, n).users[u].disabled <==> LastDisabled(c, calls, n, u))
    ensures u !in Before(c, calls, n).users ==> LastSet(c, calls, n, u) == None && !LastDisabled(c, calls, n, u)
    decreases n
  {
    if n > 0 {
      hide Before, Next, SetsPassword, Switches, IdsFresh;
      var db := Before(c, calls, n - 1);
      UsersAreAsLastSet(c, calls, n - 1, u);
      BeforeStep(c, calls, n - 1);
      BeforeKeepsInv(c, calls, n - 1);
      if u in db.users {
        PasswordStep(db, c, calls[n - 1], u);
        DisabledStep(db, c, calls[n - 1], u);
      } else {
        NothingForNobody(db, c, calls[n - 1], u);
        if u in Next(db, c, calls[n - 1]).users { NewUsers(db, c, calls[n - 1], u); }
      }
    }
  }

  lemma BeforeKeepsInv(c: Config, calls: seq<Call>, n: nat)
    requires n <= |calls|
    ensures Inv(Before(c, calls, n)) && IdsFresh(Before(c, calls, n)) && EmailsUnique(Before(c, calls, n).users)
  {
    RunKeepsInv(c, calls[..n]);
  }

  /**
    After any run, a login is accepted exactly for a user of that address who was not left disabled,
    with a password that fits the hash last set for that user.
   */
  lemma LoginAsLastSet(c: Config, calls: seq<Call>, tenant: Id, email: string, password: string, tokenHash: string, now: Time)
    ensures var db := Before(c, calls, |calls|);
            Handle(db, c, Login(tenant, email, password, tokenHash), now).Ok? <==>
            exists u :: u in db.users && db.users[u].tenant == tenant && Lower(db.users[u].email) == Lower(email)
                        && !LastDisabled(c, calls, |calls|, u)
                        && LastSet(c, calls, |calls|, u).Some? && c.matches(password, LastSet(c, calls, |calls|, u).value)
  {
    var n := |calls|;
    var db := Before(c, calls, n);
    BeforeKeepsInv(c, calls, n);
    LoginIff(db, c, tenant, email, password, tokenHash, now, 0);
    hide Before, Handle, LastDisabled, LastSet, Lower, Inv, IdsFresh, EmailsUnique;
    if u :| MayLogIn(db, c, tenant, email, password, u) {
      UsersAreAsLastSet(c, calls, n, u);
    }
    if u :| u in db.users && db.users[u].tenant == tenant && Lower(db.users[u].email) == Lower(email)
            && !LastDisabled(c, calls, n, u) && LastSet(c, calls, n, u).Some?
            && c.matches(password, LastSet(c, calls, n, u).value) {
      UsersAreAsLastSet(c, calls, n, u);
      assert MayLogIn(db, c, tenant, email, password, u);
    }
  }

  /** No call from i on, short of j, sets the user's password. */
  ghost predicate NoNewPassword(c: Config, calls: seq<Call>, i: nat, j: nat, u: Id)
    requires j <= |calls|
  {
    forall k :: i <= k < j ==> SetsPassword(Before(c, calls, k), c, calls[k], u) == None
  }

  lemma {:induction false} LastSetStays(c: Config, calls: seq<Call>, i: nat, j: nat, u: Id)
    requires i <= j <= |calls| && NoNewPassword(c, calls, i, j, u)
    ensures LastSet(c, calls, j, u) == LastSet(c, calls, i, u)
    decreases j
  {
    if i < j {
      hide Before, SetsPassword;
      LastSetStays(c, calls, i, j - 1, u);
    }
  }

  /**
    From the call that sets a user's password until the next that does, an active user logs in
    exactly with what fits the new hash.
   */
  lemma NewPasswordLogsIn(c: Config, calls: seq<Call>, i: nat, j: nat, u: Id, password: string, tokenHash: string, now: Time)
    requires i < j <= |calls|
    requires SetsPassword(Before(c, calls, i), c, calls[i], u).Some? && NoNewPassword(c, calls, i + 1, j, u)
    requires u in Before(c, calls, j).users && !Before(c, calls, j).users[u].disabled
    ensures var db := Before(c, calls, j);
            Handle(db, c, Login(db.users[u].tenant, db.users[u].email, password, tokenHash), now).Ok?
            <==> c.matches(password, SetsPassword(Before(c, calls, i), c, calls[i], u).value)
  {
    var db := Before(c, calls, j);
    var hash := SetsPassword(Before(c, calls, i), c, calls[i], u);
    LastSetStays(c, calls, i + 1, j, u);
    UsersAreAsLastSet(c, calls, j, u);
    assert db.users[u].password == hash;
    BeforeKeepsInv(c, calls, j);
    var tenant, email := db.users[u].tenant, db.users[u].email;
    LoginIff(db, c, tenant, email, password, tokenHash, now, u);
    hide Before, Handle, SetsPassword, LastDisabled, LastSet, Lower, Inv, IdsFresh, NoNewPassword;
    if v :| MayLogIn(db, c, tenant, email, password, v) {
      EmailIsUnique(db, tenant, email, u, v);
    }
  }

  /** A call from i on, short of j, ends the session. */
  ghost predicate EndedBetween(c: Config, calls: seq<Call>, i: nat, j: nat, s: Id)
    requires j <= |calls|
  {
    exists k :: i <= k < j && s in Before(c, calls, k).sessions && Ends(Before(c, calls, k), c, calls[k], s)
  }

  lemma {:induction false} RevokedIffEnded(c: Config, calls: seq<Call>, i: nat, j: nat, s: Id)
    requires i <= j <= |calls| && s in Before(c, calls, i).sessions
    ensures s in Before(c, calls, j).sessions
    ensures Before(c, calls, j).sessions[s].revoked <==>
            Before(c, calls, i).sessions[s].revoked || EndedBetween(c, calls, i, j, s)
    decreases j
  {
    hide Before, Next, Ends, IdsFresh;
    if i < j {
      RevokedIffEnded(c, calls, i, j - 1, s);
      BeforeStep(c, calls, j - 1);
      BeforeKeepsInv(c, calls, j - 1);
      SessionStep(Before(c, calls, j - 1), c, calls[j - 1], s);
    }
  }

  /**
    The session of an accepted login opens later exactly for the secret behind its hash, within its
    lifetime, while its user is active and no logout, change of password or reset has ended it.
   */
  lemma SessionOpensIff(c: Config, calls: seq<Call>, i: nat, j: nat, u: Id, secret: string, now: Time)
    requires i < j <= |calls| && calls[i].req.Login?
    requires MayLogIn(Before(c, calls, i), c, calls[i].req.tenant, calls[i].req.email, calls[i].req.password, u)
    ensures var s := Before(c, calls, i).nextId;
            Resolve(Before(c, calls, j), c, Some(Token(s, secret)), now) == Ok(s) <==>
            && c.matches(secret, calls[i].req.tokenHash) && now <= calls[i].now + c.sessionLifetime
            && !LastDisabled(c, calls, j, u) && !EndedBetween(c, calls, i + 1, j, s)
  {
    var before, db, req := Before(c, calls, i), Before(c, calls, j), calls[i].req;
    var s := before.nextId;
    BeforeKeepsInv(c, calls, i);
    LoginIff(before, c, req.tenant, req.email, req.password, req.tokenHash, calls[i].now, u);
    BeforeStep(c, calls, i);
    BeforeGrows(c, calls, i, j);
    BeforeGrows(c, calls, i + 1, j);
    RevokedIffEnded(c, calls, i + 1, j, s);
    UsersAreAsLastSet(c, calls, j, u);
    ResolveIff(db, c, Some(Token(s, secret)), now, s);
    hide Before, Handle, Resolve, LastDisabled, LastSet, EndedBetween, Lower, Inv, IdsFresh, EmailsUnique;
  }

  /** A call from i on, short of j, redeems the reset or issues the user another. */
  ghost predicate UsedBetween(c: Config, calls: seq<Call>, i: nat, j: nat, r: Id)
    requires j <= |calls|
  {
    exists k :: i <= k < j && r in Before(c, calls, k).resets && UsesUp(Before(c, calls, k), c, calls[k], r)
  }

  lemma {:induction false} UsedIffUsedUp(c: Config, calls: seq<Call>, i: nat, j: nat, r: Id)
    requires i <= j <= |calls| && r in Before(c, calls, i).resets
    ensures r in Before(c, calls, j).resets
    ensures Before(c, calls, j).resets[r].used <==>
            Before(c, calls, i).resets[r].used || UsedBetween(c, calls, i, j, r)
    decreases j
  {
    hide Before, Next, UsesUp, IdsFresh;
    if i < j {
      UsedIffUsedUp(c, calls, i, j - 1, r);
      BeforeStep(c, calls, j - 1);
      BeforeKeepsInv(c, calls, j - 1);
      ResetStep(Before(c, calls, j - 1), c, calls[j - 1], r);
    }
  }

  /** An accepted issue makes one unused reset of that user, for the hash given, living as long as the settings say. */
  lemma IssueMakes(db: Db, c: Config, tenant: Id, u: Id, tokenHash: string, now: Time)
    requires IdsFresh(db) && Handle(db, c, IssueReset(tenant, u, tokenHash), now).Ok?
    ensures var db' := Handle(db, c, IssueReset(tenant, u, tokenHash), now).value;
            && db.nextId in db'.resets && db'.resets[db.nextId] == Reset(u, tokenHash, now + c.resetLifetime, false)
            && db'.resets.Keys == db.resets.Keys + {db.nextId}
  {
  }

  /**
    An issued reset can be redeemed later exactly with a strong password and the secret behind its
    hash, within its lifetime, until it is redeemed or the user is issued another.
   */
  lemma ResetRedeemableIff(
    c: Config, calls: seq<Call>, i: nat, j: nat, secret: string, newPassword: string, newHash: string, now: Time)
    requires i < j <= |calls| && calls[i].req.IssueReset? && Accepted(Before(c, calls, i), c, calls[i])
    ensures var r := Before(c, calls, i).nextId;
            Handle(Before(c, calls, j), c, ConfirmReset(Some(Token(r, secret)), newPassword, newHash), now).Ok? <==>
            && c.strong(newPassword) && c.matches(secret, calls[i].req.tokenHash)
            && now <= calls[i].now + c.resetLifetime && !UsedBetween(c, calls, i + 1, j, r)
  {
    var before, db, req := Before(c, calls, i), Before(c, calls, j), calls[i].req;
    var r := before.nextId;
    BeforeKeepsInv(c, calls, i);
    BeforeKeepsInv(c, calls, j);
    IssueMakes(before, c, req.tenant, req.user, req.tokenHash, calls[i].now);
    BeforeStep(c, calls, i);
    BeforeGrows(c, calls, i + 1, j);
    UsedIffUsedUp(c, calls, i + 1, j, r);
    RedeemIff(db, c, Some(Token(r, secret)), newPassword, newHash, now);
    hide Before, Handle, UsedBetween, Inv, IdsFresh;
  }

  // ── Roles ────────────────────────────────────────────────────────────

  /** Owners and editors are held to MFA. */
  ghost predicate WritersNeedMfa(db: Db) {
    forall u :: u in db.users ==> (db.users[u].role == AccountOwner || db.users[u].role == Editor ==> db.users[u].mfaRequired)
  }

  lemma WritersNeedMfaStep(db: Db, c: Config, call: Call)
    requires IdsFresh(db) && WritersNeedMfa(db)
    ensures WritersNeedMfa(Next(db, c, call))
  {
    hide HandleOwn, Handle, IdsFresh, WritersNeedMfa, Resolve;
    if Accepted(db, c, call) {
      if NeedsSession(call.req) {
        OwnKeepsWriters(db, c, call);
      } else {
        OthersKeepWriters(db, c, call);
      }
    }
  }

  lemma OwnKeepsWriters(db: Db, c: Config, call: Call)
    requires IdsFresh(db) && WritersNeedMfa(db) && NeedsSession(call.req) && Accepted(db, c, call)
    ensures WritersNeedMfa(Handle(db, c, call.req, call.now).value)
  {
    var s := AcceptedHasCaller(db, c, call);
    hide HandleOwn, Handle, Resolve, IdsFresh;
    OwnKeepsRoles(db, c, call.req, s, call.now);
    OwnGrows(db, c, call.req, s, call.now);
  }

  lemma OthersKeepWriters(db: Db, c: Config, call: Call)
    requires IdsFresh(db) && WritersNeedMfa(db) && !NeedsSession(call.req) && Accepted(db, c, call)
    ensures WritersNeedMfa(Handle(db, c, call.req, call.now).value)
  {
    hide HasEmail, OtherOwners, HandleOwn, Resolve;
  }

  /** After any run, owners and editors are held to MFA. */
  lemma {:induction false} WritersAlwaysNeedMfa(c: Config, calls: seq<Call>)
    ensures WritersNeedMfa(Run(c, calls))
  {
    hide Next, WritersNeedMfa, IdsFresh;
    if calls != [] {
      var earlier := calls[..|calls| - 1];
      WritersAlwaysNeedMfa(c, earlier);
      RunKeepsInv(c, earlier);
      WritersNeedMfaStep(Run(c, earlier), c, calls[|calls| - 1]);
    } else {
      NobodyNeedsMfa();
    }
  }

  lemma NobodyNeedsMfa()
    ensures WritersNeedMfa(EMPTY)
  {
  }

}
