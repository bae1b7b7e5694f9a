/** Users, sessions, second factors and password resets: the tables and what each request does to them. */
module Accounts {
  import opened Common
  import opened Text

  datatype Role = AccountOwner | Editor | Viewer

  datatype User = User(
    tenant: Id, email: string, role: Role, password: Option<string>,
    mfaRequired: bool, mfaEnrolled: bool, disabled: bool)

  datatype Session = Session(user: Id, tokenHash: string, mfaVerified: bool, expires: Time, revoked: bool)

  datatype FactorType = Totp | BackupCode

  /** `confirmed` is false while factor_label is 'pending_setup'. */
  datatype Factor = Factor(user: Id, kind: FactorType, confirmed: bool, secret: string, revoked: bool)

  datatype Reset = Reset(user: Id, tokenHash: string, expires: Time, used: bool)

  datatype Db = Db(
    users: map<Id, User>, sessions: map<Id, Session>, factors: map<Id, Factor>, resets: map<Id, Reset>, nextId: Id)

  const EMPTY := Db(map[], map[], map[], map[], 0)

  /** bcrypt.checkpw, verify_totp and check_strength, and the lifetimes from the settings. */
  datatype Config = Config(
    matches: (string, string) -> bool, totp: (string, string, Time) -> bool, strong: string -> bool,
    sessionLifetime: Time, resetLifetime: Time)

  /** `<id>.<secret>`; a token that does not parse is None. */
  datatype Token = Token(id: Id, secret: string)

  type Bearer = Option<Token>

  /** What the lookup of a tenant finds; tenants are kept elsewhere. */
  datatype Standing = NoTenant | DeletedTenant | LiveTenant

  /** Hashes and secrets that a handler draws at random are part of the request. */
  datatype Request =
    | Login(tenant: Id, email: string, password: string, tokenHash: string)
    | TotpSetup(bearer: Bearer, secret: string)
    | TotpConfirm(bearer: Bearer, factor: Id, code: string, backups: seq<string>)
    | RevokeFactor(bearer: Bearer, factor: Id)
    | TotpVerify(bearer: Bearer, code: string, scanned: Option<Id>) // the backup row that the scan met first
    | SetPassword(bearer: Bearer, current: string, newPassword: string, newHash: string)
    | Logout(bearer: Bearer)
    | LogoutAll(bearer: Bearer)
    | ConfirmReset(token: Bearer, newPassword: string, newHash: string)
    | IssueReset(tenant: Id, user: Id, tokenHash: string)
    | CreateUser(tenant: Id, email: string, role: Role, standing: Standing)
    | UpdateUser(tenant: Id, user: Id, newRole: Option<Role>)
    | DisableUser(tenant: Id, user: Id)
    | EnableUser(tenant: Id, user: Id)

  /** Requests of a logged-in user, by require_tenant_user. */
  predicate NeedsSession(req: Request) {
    req.TotpSetup? || req.TotpConfirm? || req.RevokeFactor? || req.TotpVerify?
    || req.SetPassword? || req.Logout? || req.LogoutAll?
  }

  // ── Lookups ──────────────────────────────────────────────────────────

  /** The UNIQUE (tenant_id, email) key; emails are citext. */
  predicate HasEmail(u: User, tenant: Id, email: string) {
    u.tenant == tenant && Lower(u.email) == Lower(email)
  }

  predicate ActiveTotp(factors: map<Id, Factor>, user: Id, f: Id) {
    f in factors && factors[f].user == user && factors[f].kind == Totp && !factors[f].revoked
  }

  predicate EnrolledTotp(factors: map<Id, Factor>, user: Id, f: Id) {
    ActiveTotp(factors, user, f) && factors[f].confirmed
  }

  predicate Opens(db: Db, c: Config, user: Id, code: string, f: Id) {
    && f in db.factors && db.factors[f].user == user && db.factors[f].kind == BackupCode && !db.factors[f].revoked
    && c.matches(code, db.factors[f].secret)
  }

  /** _resolve_bearer: the session that the token names, if it is to be accepted. */
  function Resolve(db: Db, c: Config, bearer: Bearer, now: Time): (r: Result<Id>)
    ensures r.Ok? ==> r.value in db.sessions && db.sessions[r.value].user in db.users
    ensures r.Err? ==> r.error == Unauthorized
  {
    if bearer.None? || bearer.value.id !in db.sessions then Err(Unauthorized)
    else
      var s := db.sessions[bearer.value.id];
      if s.user !in db.users || s.revoked || s.expires < now || db.users[s.user].disabled then Err(Unauthorized)
      else if !c.matches(bearer.value.secret, s.tokenHash) then Err(Unauthorized)
      else Ok(bearer.value.id)
  }

  /** require_tenant_user_mfa, the gate of every endpoint that writes policy. */
  function ResolveMfa(db: Db, c: Config, bearer: Bearer, now: Time): Result<Id> {
    var r := Resolve(db, c, bearer, now);
    if r.Ok? && db.users[db.sessions[r.value].user].mfaRequired && !db.sessions[r.value].mfaVerified then Err(Forbidden)
    else r
  }

  // ── What the requests write ──────────────────────────────────────────

  function RevokeAll(sessions: map<Id, Session>, user: Id): map<Id, Session> {
    map s | s in sessions :: if sessions[s].user == user then sessions[s].(revoked := true) else sessions[s]
  }

  function RevokeOthers(sessions: map<Id, Session>, user: Id, mine: Id): map<Id, Session> {
    map s | s in sessions ::
      if sessions[s].user == user && s != mine then sessions[s].(revoked := true) else sessions[s]
  }

  function UseUp(resets: map<Id, Reset>, user: Id): map<Id, Reset> {
    map r | r in resets :: if resets[r].user == user then resets[r].(used := true) else resets[r]
  }

  function AddSession(db: Db, user: Id, verified: bool, tokenHash: string, expires: Time): Db {
    db.(sessions := db.sessions[db.nextId := Session(user, tokenHash, verified, expires, false)], nextId := db.nextId + 1)
  }

  function AddTotp(db: Db, user: Id, secret: string): Db {
    db.(factors := db.factors[db.nextId := Factor(user, Totp, false, secret, false)], nextId := db.nextId + 1)
  }

  function BackupRows(user: Id, base: Id, secrets: seq<string>): (rows: map<Id, Factor>)
    ensures forall f :: f in rows ==> base <= f < base + |secrets| && rows[f].user == user && rows[f].kind == BackupCode
  {
    if secrets == [] then map[]
    else
      var n := |secrets| - 1;
      BackupRows(user, base, secrets[..n])[base + n := Factor(user, BackupCode, true, secrets[n], false)]
  }

  function Enrol(db: Db, user: Id, f: Id, backups: seq<string>): Db
    requires f in db.factors && user in db.users
  {
    db.(factors := db.factors[f := db.factors[f].(confirmed := true)] + BackupRows(user, db.nextId, backups),
        users := db.users[user := db.users[user].(mfaEnrolled := true)],
        nextId := db.nextId + |backups|)
  }

  function DropFactor(db: Db, f: Id): Db
    requires f in db.factors
  {
    db.(factors := db.factors[f := db.factors[f].(revoked := true)])
  }

  ghost function DropAndUnenrol(db: Db, user: Id, f: Id): Db
    requires f in db.factors && user in db.users
  {
    var db1 := DropFactor(db, f);
    if exists g :: EnrolledTotp(db1.factors, user, g) then db1
    else db1.(users := db1.users[user := db1.users[user].(mfaEnrolled := false)])
  }

  function Verify(db: Db, s: Id): Db
    requires s in db.sessions
  {
    db.(sessions := db.sessions[s := db.sessions[s].(mfaVerified := true)])
  }

  function SetHash(db: Db, user: Id, newHash: string): Db
    requires user in db.users
  {
    db.(users := db.users[user := db.users[user].(password := Some(newHash))])
  }

  function Redeem(db: Db, r: Id, newHash: string): Db
    requires r in db.resets && db.resets[r].user in db.users
  {
    SetHash(db.(resets := db.resets[r := db.resets[r].(used := true)],
                sessions := RevokeAll(db.sessions, db.resets[r].user)),
            db.resets[r].user, newHash)
  }

  function AddReset(db: Db, user: Id, tokenHash: string, expires: Time): Db {
    db.(resets := UseUp(db.resets, user)[db.nextId := Reset(user, tokenHash, expires, false)], nextId := db.nextId + 1)
  }

  predicate NeedsMfa(role: Role) { role != Viewer }

  function AddUser(db: Db, tenant: Id, email: string, role: Role): Db {
    db.(users := db.users[db.nextId := User(tenant, email, role, None, NeedsMfa(role), false, false)],
        nextId := db.nextId + 1)
  }

  function SetRole(u: User, role: Role): User {
    u.(role := role, mfaRequired := u.mfaRequired || NeedsMfa(role))
  }

  function PutUser(db: Db, user: Id, u: User): Db { db.(users := db.users[user := u]) }

  function OtherOwners(db: Db, tenant: Id, user: Id): set<Id> {
    set u | u in db.users && db.users[u].tenant == tenant && db.users[u].role == AccountOwner
            && !db.users[u].disabled && u != user
  }

  // ── The requests ─────────────────────────────────────────────────────

  /** Which factor a verification accepts: the TOTP if its code fits, else the scanned backup code. */
  ghost function Accepts(db: Db, c: Config, user: Id, code: string, scanned: Option<Id>, now: Time): Option<Id> {
    if exists f :: EnrolledTotp(db.factors, user, f) && c.totp(db.factors[f].secret, code, now) then
      var f :| EnrolledTotp(db.factors, user, f) && c.totp(db.factors[f].secret, code, now);
      Some(f)
    else scanned
  }

  /** The scan of the backup rows stops at one that opens, and finds none only if none does. */
  ghost predicate IsScan(db: Db, c: Config, user: Id, code: string, scanned: Option<Id>) {
    if scanned.Some? then Opens(db, c, user, code, scanned.value) else forall f :: !Opens(db, c, user, code, f)
  }

  /** The factor that a request consumes, when it is a verification that goes through. */
  ghost function Consumed(db: Db, c: Config, req: Request, now: Time): Option<Id> {
    if req.TotpVerify? && Resolve(db, c, req.bearer, now).Ok? then
      var s := db.sessions[Resolve(db, c, req.bearer, now).value];
      if s.mfaVerified || !db.users[s.user].mfaRequired || !IsScan(db, c, s.user, req.code, req.scanned) then None
      else Accepts(db, c, s.user, req.code, req.scanned, now)
    else None
  }

  ghost function HandleOwn(db: Db, c: Config, req: Request, s: Id, now: Time): Result<Db>
    requires s in db.sessions && db.sessions[s].user in db.users
    requires NeedsSession(req)
  {
    var u := db.sessions[s].user;
    match req
    case TotpSetup(_, secret) =>
      if exists f :: ActiveTotp(db.factors, u, f) then Err(Conflict) else Ok(AddTotp(db, u, secret))
    case TotpConfirm(_, f, code, backups) =>
      if !ActiveTotp(db.factors, u, f) then Err(NotFound)
      else if db.factors[f].confirmed then Err(Conflict)
      else if !c.totp(db.factors[f].secret, code, now) then Err(BadRequest)
      else Ok(Enrol(db, u, f, backups))
    case RevokeFactor(_, f) =>
      if f !in db.factors || db.factors[f].user != u || db.factors[f].revoked then Err(NotFound)
      else Ok(DropAndUnenrol(db, u, f))
    case TotpVerify(_, code, scanned) =>
      if db.sessions[s].mfaVerified then Ok(db)
      else if !db.users[u].mfaRequired then Err(Conflict)
      else if !IsScan(db, c, u, code, scanned) then Err(ServerError)
      else
        var f := Accepts(db, c, u, code, scanned, now);
        if f.None? then Err(BadRequest)
        else if f.value in db.factors && db.factors[f.value].kind == BackupCode then Ok(Verify(DropFactor(db, f.value), s))
        else Ok(Verify(db, s))
    case SetPassword(_, current, newPassword, newHash) =>
      if !c.strong(newPassword) then Err(BadRequest)
      else if db.users[u].password.None? then Err(Conflict)
      else if !c.matches(current, db.users[u].password.value) then Err(Unauthorized)
      else Ok(SetHash(db, u, newHash).(sessions := RevokeOthers(db.sessions, u, s)))
    case Logout(_) => Ok(db.(sessions := db.sessions[s := db.sessions[s].(revoked := true)]))
    case LogoutAll(_) => Ok(db.(sessions := RevokeAll(db.sessions, u)))
  }

  predicate VisibleUser(db: Db, tenant: Id, user: Id) {
    user in db.users && db.users[user].tenant == tenant
  }

  ghost function Handle(db: Db, c: Config, req: Request, now: Time): Result<Db> {
    match req
    case Login(tenant, email, password, tokenHash) =>
      if !exists u :: u in db.users && HasEmail(db.users[u], tenant, email) then Err(Unauthorized)
      else
        var u :| u in db.users && HasEmail(db.users[u], tenant, email);
        var row := db.users[u];
        if row.disabled || row.password.None? || !c.matches(password, row.password.value) then Err(Unauthorized)
        else Ok(AddSession(db, u, !row.mfaRequired, tokenHash, now + c.sessionLifetime))
    case ConfirmReset(token, newPassword, newHash) =>
      if !c.strong(newPassword) || token.None? || token.value.id !in db.resets then Err(BadRequest)
      else
        var r := db.resets[token.value.id];
        if r.used || r.expires < now || !c.matches(token.value.secret, r.tokenHash) || r.user !in db.users then Err(BadRequest)
        else Ok(Redeem(db, token.value.id, newHash))
    case IssueReset(tenant, user, tokenHash) =>
      if !VisibleUser(db, tenant, user) || db.users[user].disabled then Err(NotFound)
      else Ok(AddReset(db, user, tokenHash, now + c.resetLifetime))
    case CreateUser(tenant, email, role, standing) =>
      if standing.NoTenant? then Err(NotFound)
      else if standing.DeletedTenant? then Err(Conflict)
      else if exists u :: u in db.users && HasEmail(db.users[u], tenant, email) then Err(Conflict)
      else Ok(AddUser(db, tenant, email, role))
    case UpdateUser(tenant, user, role) =>
      if !VisibleUser(db, tenant, user) then Err(NotFound)
      else if role.None? then Ok(db)
      else Ok(PutUser(db, user, SetRole(db.users[user], role.value)))
    case DisableUser(tenant, user) =>
      if !VisibleUser(db, tenant, user) then Err(NotFound)
      else if db.users[user].disabled then Err(Conflict)
      else if db.users[user].role == AccountOwner && OtherOwners(db, tenant, user) == {} then Err(Conflict)
      else Ok(PutUser(db, user, db.users[user].(disabled := true)))
    case EnableUser(tenant, user) =>
      if !VisibleUser(db, tenant, user) then Err(NotFound)
      else if !db.users[user].disabled then Err(Conflict)
      else Ok(PutUser(db, user, db.users[user].(disabled := false)))
    case _ =>
      var s := Resolve(db, c, req.bearer, now);
      if s.Err? then Err(Unauthorized) else HandleOwn(db, c, req, s.value, now)
  }

  datatype Call = Call(req: Request, now: Time)

  /** The tables after a refused request are the tables before it. */
  ghost function Next(db: Db, c: Config, call: Call): Db {
    var r := Handle(db, c, call.req, call.now);
    if r.Ok? then r.value else db
  }

  ghost function Run(c: Config, calls: seq<Call>): Db {
    if calls == [] then EMPTY else Next(Run(c, calls[..|calls| - 1]), c, calls[|calls| - 1])
  }

}
