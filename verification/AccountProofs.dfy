/** What holds of users, sessions, factors and resets after any run of requests. */
module AccountProofs {
  import opened Common
  import opened Accounts

  // ── The invariant ────────────────────────────────────────────────────

  ghost predicate IdsFresh(db: Db) {
    && (forall i :: i in db.users ==> i < db.nextId)
    && (forall i :: i in db.sessions ==> i < db.nextId && db.sessions[i].user in db.users)
    && (forall i :: i in db.factors ==> i < db.nextId && db.factors[i].user in db.users)
    && (forall i :: i in db.resets ==> i < db.nextId && db.resets[i].user in db.users)
  }

  predicate SameEmail(u: User, v: User) { HasEmail(u, v.tenant, v.email) }

  ghost predicate EmailsUnique(users: map<Id, User>) {
    forall u, v :: u in users && v in users && SameEmail(users[u], users[v]) ==> u == v
  }

  ghost predicate OneTotp(factors: map<Id, Factor>) {
    forall u, f, g :: ActiveTotp(factors, u, f) && ActiveTotp(factors, u, g) ==> f == g
  }

  ghost predicate HasTotp(factors: map<Id, Factor>, u: Id) { exists f :: EnrolledTotp(factors, u, f) }

  ghost predicate EnrolledIff(users: map<Id, User>, factors: map<Id, Factor>) {
    forall u :: u in users ==> (users[u].mfaEnrolled <==> HasTotp(factors, u))
  }

  predicate Pending(resets: map<Id, Reset>, u: Id, r: Id) {
    r in resets && resets[r].user == u && !resets[r].used
  }

  ghost predicate OnePending(resets: map<Id, Reset>) {
    forall u, r, q :: Pending(resets, u, r) && Pending(resets, u, q) ==> r == q
  }

  ghost predicate Inv(db: Db) {
    && IdsFresh(db) && EmailsUnique(db.users) && OneTotp(db.factors)
    && EnrolledIff(db.users, db.factors) && OnePending(db.resets)
  }

  lemma EmailIsUnique(db: Db, tenant: Id, email: string, u: Id, v: Id)
    requires EmailsUnique(db.users) && u in db.users && v in db.users
    requires HasEmail(db.users[u], tenant, email) && HasEmail(db.users[v], tenant, email)
    ensures u == v
  {
    assert SameEmail(db.users[u], db.users[v]);
  }

  // ── Table by table ───────────────────────────────────────────────────

  lemma UserUpdateKeeps(users: map<Id, User>, factors: map<Id, Factor>, u: Id, row: User)
    requires EmailsUnique(users) && EnrolledIff(users, factors)
    requires u in users && row.tenant == users[u].tenant && row.email == users[u].email
    ensures EmailsUnique(users[u := row])
    ensures row.mfaEnrolled == users[u].mfaEnrolled ==> EnrolledIff(users[u := row], factors)
  {
    hide HasTotp, HasEmail;
    var users' := users[u := row];
    forall v, w | v in users' && w in users' && SameEmail(users'[v], users'[w]) ensures v == w {
      SameEmailAs(users[u], row, users[v]);
      SameEmailAs(users[u], row, users[w]);
      assert SameEmail(users[v], users[w]);
    }
  }

  lemma SameEmailAs(a: User, b: User, x: User)
    requires a.tenant == b.tenant && a.email == b.email
    ensures SameEmail(a, x) == SameEmail(b, x) && SameEmail(x, a) == SameEmail(x, b) && SameEmail(a, b) && SameEmail(b, b)
  {
  }

  lemma NewUserKeeps(users: map<Id, User>, factors: map<Id, Factor>, n: Id, row: User)
    requires EmailsUnique(users) && EnrolledIff(users, factors)
    requires n !in users && !row.mfaEnrolled
    requires !exists u :: u in users && HasEmail(users[u], row.tenant, row.email)
    requires forall f :: f in factors ==> factors[f].user in users
    ensures EmailsUnique(users[n := row]) && EnrolledIff(users[n := row], factors)
  {
    assert !HasTotp(factors, n);
    hide HasTotp;
    var users' := users[n := row];
    forall v, w | v in users' && w in users' && SameEmail(users'[v], users'[w]) ensures v == w {
      if v != n && w != n { assert SameEmail(users[v], users[w]); }
    }
  }

  /** Factor tables that agree on TOTP factors. */
  ghost predicate SameTotps(a: map<Id, Factor>, b: map<Id, Factor>) {
    forall u, f :: (ActiveTotp(a, u, f) <==> ActiveTotp(b, u, f)) && (EnrolledTotp(a, u, f) <==> EnrolledTotp(b, u, f))
  }

  lemma SameTotpsKeep(users: map<Id, User>, a: map<Id, Factor>, b: map<Id, Factor>)
    requires OneTotp(a) && EnrolledIff(users, a) && SameTotps(a, b)
    ensures OneTotp(b) && EnrolledIff(users, b)
  {
    hide ActiveTotp, EnrolledTotp;
    forall u | u in users ensures HasTotp(a, u) <==> HasTotp(b, u) {}
  }

  lemma NewTotpKeeps(users: map<Id, User>, factors: map<Id, Factor>, n: Id, u: Id, secret: string)
    requires OneTotp(factors) && EnrolledIff(users, factors) && n !in factors
    requires !exists f :: ActiveTotp(factors, u, f)
    ensures OneTotp(factors[n := Factor(u, Totp, false, secret, false)])
    ensures EnrolledIff(users, factors[n := Factor(u, Totp, false, secret, false)])
  {
    var factors' := factors[n := Factor(u, Totp, false, secret, false)];
    forall v, f ensures ActiveTotp(factors', v, f) <==> ActiveTotp(factors, v, f) || (v == u && f == n) {}
    forall v, f ensures EnrolledTotp(factors', v, f) <==> EnrolledTotp(factors, v, f) {}
    hide ActiveTotp, EnrolledTotp;
    forall v | v in users ensures HasTotp(factors', v) <==> HasTotp(factors, v) {}
  }

  /** Confirming u's TOTP: the flag and the row change together. */
  lemma ConfirmKeeps(users: map<Id, User>, factors: map<Id, Factor>, u: Id, f: Id)
    requires OneTotp(factors) && EnrolledIff(users, factors) && u in users && ActiveTotp(factors, u, f)
    ensures OneTotp(factors[f := factors[f].(confirmed := true)])
    ensures EnrolledIff(users[u := users[u].(mfaEnrolled := true)], factors[f := factors[f].(confirmed := true)])
  {
    var factors' := factors[f := factors[f].(confirmed := true)];
    forall v, g ensures ActiveTotp(factors', v, g) <==> ActiveTotp(factors, v, g) {}
    forall v, g ensures EnrolledTotp(factors', v, g) <==> EnrolledTotp(factors, v, g) || (v == u && g == f) {}
    hide ActiveTotp, EnrolledTotp;
    assert EnrolledTotp(factors', u, f);
    forall v | v in users && v != u ensures HasTotp(factors', v) <==> HasTotp(factors, v) {}
  }

  lemma BackupsAreNoTotps(factors: map<Id, Factor>, u: Id, base: Id, secrets: seq<string>)
    requires forall f :: f in factors ==> f < base
    ensures SameTotps(factors, factors + BackupRows(u, base, secrets))
  {
  }

  lemma DropTotps(factors: map<Id, Factor>, u: Id, f: Id)
    requires f in factors && factors[f].user == u
    ensures var factors' := factors[f := factors[f].(revoked := true)];
            && (forall v, g :: ActiveTotp(factors', v, g) <==> ActiveTotp(factors, v, g) && g != f)
            && (forall v, g :: EnrolledTotp(factors', v, g) <==> EnrolledTotp(factors, v, g) && (v != u || g != f))
  {
  }

  lemma DropKeepsFactors(users: map<Id, User>, factors: map<Id, Factor>, u: Id, f: Id)
    requires OneTotp(factors) && EnrolledIff(users, factors) && u in users && f in factors && factors[f].user == u
    ensures var factors' := factors[f := factors[f].(revoked := true)];
            && OneTotp(factors')
            && EnrolledIff(if HasTotp(factors', u) then users else users[u := users[u].(mfaEnrolled := false)], factors')
  {
    var factors' := factors[f := factors[f].(revoked := true)];
    DropTotps(factors, u, f);
    hide ActiveTotp, EnrolledTotp;
    if HasTotp(factors', u) {
      var g :| EnrolledTotp(factors', u, g);
      assert HasTotp(factors, u);
    }
    forall v | v in users && v != u ensures HasTotp(factors', v) <==> HasTotp(factors, v) {}
  }

  lemma NewResetKeeps(resets: map<Id, Reset>, u: Id, n: Id, tokenHash: string, expires: Time)
    requires OnePending(resets) && n !in resets
    ensures OnePending(UseUp(resets, u)[n := Reset(u, tokenHash, expires, false)])
  {
    var resets' := UseUp(resets, u)[n := Reset(u, tokenHash, expires, false)];
    forall v, r ensures Pending(resets', v, r) <==> (v == u && r == n) || (v != u && Pending(resets, v, r)) {}
    hide Pending, UseUp;
  }

  lemma UsedResetKeeps(resets: map<Id, Reset>, r: Id)
    requires OnePending(resets) && r in resets
    ensures OnePending(resets[r := resets[r].(used := true)])
  {
    var resets' := resets[r := resets[r].(used := true)];
    forall v, q ensures Pending(resets', v, q) <==> Pending(resets, v, q) && q != r {}
    hide Pending;
  }

  // ── Request by request ───────────────────────────────────────────────

  lemma SessionsKeep(db: Db, sessions: map<Id, Session>)
    requires Inv(db) && sessions.Keys == db.sessions.Keys
    requires forall s :: s in sessions ==> sessions[s].user == db.sessions[s].user
    ensures Inv(db.(sessions := sessions))
  {
    hide EmailsUnique, OneTotp, EnrolledIff, OnePending;
  }

  lemma LoginKeeps(db: Db, u: Id, verified: bool, tokenHash: string, expires: Time)
    requires Inv(db) && u in db.users
    ensures Inv(AddSession(db, u, verified, tokenHash, expires))
  {
    hide EmailsUnique, OneTotp, EnrolledIff, OnePending;
  }

  lemma PutUserKeeps(db: Db, u: Id, row: User)
    requires Inv(db) && u in db.users
    requires row.tenant == db.users[u].tenant && row.email == db.users[u].email && row.mfaEnrolled == db.users[u].mfaEnrolled
    ensures Inv(PutUser(db, u, row))
  {
    hide EmailsUnique, OneTotp, EnrolledIff, OnePending;
    UserUpdateKeeps(db.users, db.factors, u, row);
  }

  lemma AddUserKeeps(db: Db, tenant: Id, email: string, role: Role)
    requires Inv(db) && !exists u :: u in db.users && HasEmail(db.users[u], tenant, email)
    ensures Inv(AddUser(db, tenant, email, role))
  {
    hide EmailsUnique, OneTotp, EnrolledIff, OnePending, HasEmail;
    NewUserKeeps(db.users, db.factors, db.nextId, User(tenant, email, role, None, NeedsMfa(role), false, false));
  }

  lemma AddTotpKeeps(db: Db, u: Id, secret: string)
    requires Inv(db) && u in db.users && !exists f :: ActiveTotp(db.factors, u, f)
    ensures Inv(AddTotp(db, u, secret))
  {
    hide EmailsUnique, OneTotp, EnrolledIff, OnePending, ActiveTotp;
    NewTotpKeeps(db.users, db.factors, db.nextId, u, secret);
  }

  lemma EnrolKeeps(db: Db, u: Id, f: Id, backups: seq<string>)
    requires Inv(db) && u in db.users && ActiveTotp(db.factors, u, f)
    ensures Inv(Enrol(db, u, f, backups))
  {
    hide EmailsUnique, OneTotp, EnrolledIff, OnePending, SameTotps;
    var users', factors' := db.users[u := db.users[u].(mfaEnrolled := true)], db.factors[f := db.factors[f].(confirmed := true)];
    UserUpdateKeeps(db.users, db.factors, u, users'[u]);
    ConfirmKeeps(db.users, db.factors, u, f);
    BackupsAreNoTotps(factors', u, db.nextId, backups);
    SameTotpsKeep(users', factors', factors' + BackupRows(u, db.nextId, backups));
    assert IdsFresh(Enrol(db, u, f, backups));
  }

  lemma DropKeeps(db: Db, u: Id, f: Id)
    requires Inv(db) && u in db.users && f in db.factors && db.factors[f].user == u
    ensures Inv(DropAndUnenrol(db, u, f))
  {
    hide EmailsUnique, OneTotp, EnrolledIff, OnePending, EnrolledTotp;
    DropKeepsFactors(db.users, db.factors, u, f);
    UserUpdateKeeps(db.users, db.factors, u, db.users[u].(mfaEnrolled := false));
    assert HasTotp(DropFactor(db, f).factors, u) <==> exists g :: EnrolledTotp(DropFactor(db, f).factors, u, g);
    hide HasTotp;
  }

  lemma VerifyKeeps(db: Db, s: Id)
    requires Inv(db) && s in db.sessions
    ensures Inv(Verify(db, s))
  {
    SessionsKeep(db, Verify(db, s).sessions);
  }

  lemma BurnKeeps(db: Db, f: Id)
    requires Inv(db) && f in db.factors && db.factors[f].kind == BackupCode
    ensures Inv(DropFactor(db, f))
  {
    assert SameTotps(db.factors, DropFactor(db, f).factors);
    hide EmailsUnique, OneTotp, EnrolledIff, OnePending, SameTotps;
    SameTotpsKeep(db.users, db.factors, DropFactor(db, f).factors);
  }

  lemma SetPasswordKeeps(db: Db, u: Id, newHash: string, s: Id)
    requires Inv(db) && u in db.users
    ensures Inv(SetHash(db, u, newHash).(sessions := RevokeOthers(db.sessions, u, s)))
  {
    hide Inv;
    PutUserKeeps(db, u, db.users[u].(password := Some(newHash)));
    SessionsKeep(SetHash(db, u, newHash), RevokeOthers(db.sessions, u, s));
  }

  lemma RedeemKeeps(db: Db, r: Id, newHash: string)
    requires Inv(db) && r in db.resets && db.resets[r].user in db.users
    ensures Inv(Redeem(db, r, newHash))
  {
    hide EmailsUnique, OneTotp, EnrolledIff, OnePending;
    var db1 := db.(resets := db.resets[r := db.resets[r].(used := true)]);
    UsedResetKeeps(db.resets, r);
    assert Inv(db1);
    hide Inv;
    SessionsKeep(db1, RevokeAll(db.sessions, db.resets[r].user));
    PutUserKeeps(db1.(sessions := RevokeAll(db.sessions, db.resets[r].user)), db.resets[r].user,
                 db.users[db.resets[r].user].(password := Some(newHash)));
  }

  lemma AddResetKeeps(db: Db, u: Id, tokenHash: string, expires: Time)
    requires Inv(db) && u in db.users
    ensures Inv(AddReset(db, u, tokenHash, expires))
  {
    hide EmailsUnique, OneTotp, EnrolledIff, OnePending;
    NewResetKeeps(db.resets, u, db.nextId, tokenHash, expires);
  }

  /** A verification's accepted TOTP is a confirmed one, and its backup code an open one. */
  lemma AcceptedIs(db: Db, c: Config, u: Id, code: string, scanned: Option<Id>, now: Time)
    requires IsScan(db, c, u, code, scanned)
    ensures var f := Accepts(db, c, u, code, scanned, now);
            && (f.Some? ==> EnrolledTotp(db.factors, u, f.value) || Opens(db, c, u, code, f.value))
            && (f.None? ==> (forall g :: !Opens(db, c, u, code, g))
                            && forall g :: EnrolledTotp(db.factors, u, g) ==> !c.totp(db.factors[g].secret, code, now))
  {
  }

  lemma OwnKeepsInv(db: Db, c: Config, req: Request, s: Id, now: Time)
    requires Inv(db) && s in db.sessions && db.sessions[s].user in db.users
    requires NeedsSession(req)
    requires HandleOwn(db, c, req, s, now).Ok?
    ensures Inv(HandleOwn(db, c, req, s, now).value)
  {
    hide Inv, Verify, DropFactor, IsScan, Accepts, Enrol, DropAndUnenrol, AddTotp, SetHash, RevokeAll, RevokeOthers;
    var u := db.sessions[s].user;
    match req
    case TotpSetup(_, secret) => AddTotpKeeps(db, u, secret);
    case TotpConfirm(_, f, code, backups) => EnrolKeeps(db, u, f, backups);
    case RevokeFactor(_, f) => DropKeeps(db, u, f);
    case TotpVerify(_, code, scanned) => VerifyStepKeeps(db, c, req, s, now);
    case SetPassword(_, current, newPassword, newHash) => SetPasswordKeeps(db, u, newHash, s);
    case Logout(_) => SessionsKeep(db, db.sessions[s := db.sessions[s].(revoked := true)]);
    case LogoutAll(_) => RevokeAllKeepsUsers(db.sessions, u); SessionsKeep(db, RevokeAll(db.sessions, u));
  }

  lemma RevokeAllKeepsUsers(sessions: map<Id, Session>, u: Id)
    ensures RevokeAll(sessions, u).Keys == sessions.Keys
    ensures forall s :: s in sessions ==> RevokeAll(sessions, u)[s].user == sessions[s].user
  {
  }

  lemma VerifyStepKeeps(db: Db, c: Config, req: Request, s: Id, now: Time)
    requires Inv(db) && s in db.sessions && db.sessions[s].user in db.users && req.TotpVerify?
    requires HandleOwn(db, c, req, s, now).Ok?
    ensures Inv(HandleOwn(db, c, req, s, now).value)
  {
    hide Inv, Verify, IsScan, Accepts;
    var f := Accepts(db, c, db.sessions[s].user, req.code, req.scanned, now);
    VerifyKeeps(db, s);
    if f.Some? && f.value in db.factors && db.factors[f.value].kind == BackupCode {
      BurnKeeps(db, f.value);
      VerifyKeeps(DropFactor(db, f.value), s);
    }
  }

  lemma HandleKeepsInv(db: Db, c: Config, req: Request, now: Time)
    requires Inv(db) && Handle(db, c, req, now).Ok?
    ensures Inv(Handle(db, c, req, now).value)
  {
    hide HandleOwn, AddSession, Redeem, AddReset, AddUser, PutUser, OtherOwners, HasEmail;
    match req
    case Login(tenant, email, password, tokenHash) =>
      hide Inv;
      var u :| u in db.users && HasEmail(db.users[u], tenant, email)
               && Handle(db, c, req, now).value == AddSession(db, u, !db.users[u].mfaRequired, tokenHash, now + c.sessionLifetime);
      LoginKeeps(db, u, !db.users[u].mfaRequired, tokenHash, now + c.sessionLifetime);
    case ConfirmReset(token, newPassword, newHash) => hide Inv; RedeemKeeps(db, token.value.id, newHash);
    case IssueReset(tenant, user, tokenHash) => hide Inv; AddResetKeeps(db, user, tokenHash, now + c.resetLifetime);
    case CreateUser(tenant, email, role, _) => hide Inv; AddUserKeeps(db, tenant, email, role);
    case UpdateUser(tenant, user, role) =>
      hide Inv;
      if role.Some? { PutUserKeeps(db, user, SetRole(db.users[user], role.value)); }
    case DisableUser(tenant, user) => hide Inv; PutUserKeeps(db, user, db.users[user].(disabled := true));
    case EnableUser(tenant, user) => hide Inv; PutUserKeeps(db, user, db.users[user].(disabled := false));
    case _ =>
      hide Inv;
      OwnKeepsInv(db, c, req, Resolve(db, c, req.bearer, now).value, now);
  }

  lemma {:induction false} RunKeepsInv(c: Config, calls: seq<Call>)
    ensures Inv(Run(c, calls))
  {
    if calls != [] {
      hide Inv, Handle;
      var db, last := Run(c, calls[..|calls| - 1]), calls[|calls| - 1];
      RunKeepsInv(c, calls[..|calls| - 1]);
      if Handle(db, c, last.req, last.now).Ok? { HandleKeepsInv(db, c, last.req, last.now); }
    } else {
      EmptyInv();
    }
  }

  lemma EmptyInv()
    ensures Inv(EMPTY)
  {
  }

  /**
    After any run: at most one unrevoked TOTP factor per user, mfa_enrolled exactly when the user
    has a confirmed one, and at most one unused reset token per user.
   */
  lemma FactorsAndResetsAgree(c: Config, calls: seq<Call>, u: Id, f: Id, g: Id, r: Id, q: Id)
    ensures var db := Run(c, calls);
            && (ActiveTotp(db.factors, u, f) && ActiveTotp(db.factors, u, g) ==> f == g)
            && (u in db.users ==> (db.users[u].mfaEnrolled <==> HasTotp(db.factors, u)))
            && (Pending(db.resets, u, r) && Pending(db.resets, u, q) ==> r == q)
  {
    RunKeepsInv(c, calls);
  }

}
