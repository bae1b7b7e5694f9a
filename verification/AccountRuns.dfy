/** Runs of requests: what is accepted once is never accepted again, and what is revoked stays revoked. */
module AccountRuns {
  import opened Common
  import opened Accounts
  import opened AccountProofs

  // ── Nothing comes back ───────────────────────────────────────────────

  ghost predicate SessionsGrow(a: map<Id, Session>, b: map<Id, Session>) {
    forall s :: s in a ==> s in b && b[s].user == a[s].user && b[s].tokenHash == a[s].tokenHash && b[s].expires == a[s].expires
                           && (a[s].revoked ==> b[s].revoked) && (a[s].mfaVerified ==> b[s].mfaVerified)
  }

  ghost predicate FactorsGrow(a: map<Id, Factor>, b: map<Id, Factor>) {
    forall f :: f in a ==> f in b && b[f].user == a[f].user && b[f].kind == a[f].kind && b[f].secret == a[f].secret
                           && (a[f].revoked ==> b[f].revoked)
  }

  ghost predicate ResetsGrow(a: map<Id, Reset>, b: map<Id, Reset>) {
    forall r :: r in a ==> r in b && b[r].user == a[r].user && b[r].tokenHash == a[r].tokenHash && b[r].expires == a[r].expires
                           && (a[r].used ==> b[r].used)
  }

  ghost predicate UsersGrow(a: map<Id, User>, b: map<Id, User>) {
    forall u :: u in a ==> u in b && b[u].tenant == a[u].tenant && b[u].email == a[u].email
                           && (a[u].mfaRequired ==> b[u].mfaRequired)
  }

  /** Rows stay, and revocation, use and the MFA requirement are for good. */
  ghost predicate Grows(db: Db, db': Db) {
    && SessionsGrow(db.sessions, db'.sessions) && FactorsGrow(db.factors, db'.factors)
    && ResetsGrow(db.resets, db'.resets) && UsersGrow(db.users, db'.users) && db.nextId <= db'.nextId
  }

  lemma GrowsReflexive(db: Db)
    ensures Grows(db, db)
  {
  }

  lemma GrowsTransitive(a: Db, b: Db, c: Db)
    requires Grows(a, b) && Grows(b, c)
    ensures Grows(a, c)
  {
  }

  // Transition by transition.

  lemma EnrolGrows(db: Db, u: Id, f: Id, backups: seq<string>)
    requires IdsFresh(db) && f in db.factors && u in db.users
    ensures Grows(db, Enrol(db, u, f, backups))
  {
  }

  lemma AddTotpGrows(db: Db, u: Id, secret: string)
    requires IdsFresh(db)
    ensures Grows(db, AddTotp(db, u, secret))
  {
  }

  lemma DropGrows(db: Db, u: Id, f: Id)
    requires f in db.factors && u in db.users
    ensures Grows(db, DropAndUnenrol(db, u, f)) && Grows(db, DropFactor(db, f))
  {
    hide EnrolledTotp;
  }

  lemma SessionsOnlyGrow(db: Db, sessions: map<Id, Session>)
    requires SessionsGrow(db.sessions, sessions)
    ensures Grows(db, db.(sessions := sessions))
  {
  }

  lemma PutUserGrows(db: Db, u: Id, row: User)
    requires u in db.users && row.tenant == db.users[u].tenant && row.email == db.users[u].email
    requires db.users[u].mfaRequired ==> row.mfaRequired
    ensures Grows(db, PutUser(db, u, row))
  {
  }

  lemma OwnGrows(db: Db, c: Config, req: Request, s: Id, now: Time)
    requires IdsFresh(db) && s in db.sessions && db.sessions[s].user in db.users
    requires NeedsSession(req)
    requires HandleOwn(db, c, req, s, now).Ok?
    ensures Grows(db, HandleOwn(db, c, req, s, now).value)
  {
    hide EnrolledTotp, Accepts, IsScan, Grows, IdsFresh, Enrol, AddTotp, DropAndUnenrol, DropFactor;
    var u := db.sessions[s].user;
    match req
    case TotpSetup(_, secret) => AddTotpGrows(db, u, secret);
    case TotpConfirm(_, f, code, backups) => EnrolGrows(db, u, f, backups);
    case RevokeFactor(_, f) => DropGrows(db, u, f);
    case TotpVerify(_, code, scanned) =>
      GrowsReflexive(db);
      SessionsOnlyGrow(db, Verify(db, s).sessions);
      var f := Accepts(db, c, u, code, scanned, now);
      if f.Some? && f.value in db.factors && db.factors[f.value].kind == BackupCode {
        BurnGrows(db, f.value, s);
      }
    case SetPassword(_, current, newPassword, newHash) => SetPasswordGrows(db, u, newHash, s);
    case Logout(_) => SessionsOnlyGrow(db, db.sessions[s := db.sessions[s].(revoked := true)]);
    case LogoutAll(_) => SessionsOnlyGrow(db, RevokeAll(db.sessions, u));
  }

  lemma BurnGrows(db: Db, f: Id, s: Id)
    requires f in db.factors && s in db.sessions
    ensures Grows(db, Verify(DropFactor(db, f), s))
  {
  }

  lemma SetPasswordGrows(db: Db, u: Id, newHash: string, s: Id)
    requires u in db.users
    ensures Grows(db, SetHash(db, u, newHash).(sessions := RevokeOthers(db.sessions, u, s)))
  {
  }

  lemma AdminGrows(db: Db, c: Config, req: Request, now: Time)
    requires IdsFresh(db) && Handle(db, c, req, now).Ok?
    requires req.UpdateUser? || req.DisableUser? || req.EnableUser?
    ensures Grows(db, Handle(db, c, req, now).value)
  {
    hide OtherOwners, HasEmail, HandleOwn, Grows, PutUser;
    match req
    case UpdateUser(tenant, user, role) =>
      GrowsReflexive(db);
      if role.Some? { PutUserGrows(db, user, SetRole(db.users[user], role.value)); }
    case DisableUser(tenant, user) => PutUserGrows(db, user, db.users[user].(disabled := true));
    case EnableUser(tenant, user) => PutUserGrows(db, user, db.users[user].(disabled := false));
  }

  lemma SignInGrows(db: Db, c: Config, req: Request, now: Time)
    requires IdsFresh(db) && Handle(db, c, req, now).Ok?
    requires req.Login? || req.ConfirmReset? || req.IssueReset? || req.CreateUser?
    ensures Grows(db, Handle(db, c, req, now).value)
  {
    hide HasEmail, HandleOwn, Redeem, AddReset, Grows;
    if req.ConfirmReset? {
      RedeemGrows(db, req.token.value.id, req.newHash);
    } else if req.IssueReset? {
      AddResetGrows(db, req.user, req.tokenHash, now + c.resetLifetime);
    } else {
      InsertsGrow(db, Handle(db, c, req, now).value);
    }
  }

  /** Only new rows of sessions and users. */
  lemma InsertsGrow(db: Db, db': Db)
    requires db'.factors == db.factors && db'.resets == db.resets && db.nextId <= db'.nextId
    requires forall s :: s in db.sessions ==> s in db'.sessions && db'.sessions[s] == db.sessions[s]
    requires forall u :: u in db.users ==> u in db'.users && db'.users[u] == db.users[u]
    ensures Grows(db, db')
  {
  }

  lemma RedeemGrows(db: Db, r: Id, newHash: string)
    requires r in db.resets && db.resets[r].user in db.users
    ensures Grows(db, Redeem(db, r, newHash))
  {
  }

  lemma AddResetGrows(db: Db, u: Id, tokenHash: string, expires: Time)
    requires IdsFresh(db)
    ensures Grows(db, AddReset(db, u, tokenHash, expires))
  {
  }

  lemma HandleGrows(db: Db, c: Config, req: Request, now: Time)
    requires IdsFresh(db) && Handle(db, c, req, now).Ok?
    ensures Grows(db, Handle(db, c, req, now).value)
  {
    hide HandleOwn, OtherOwners, HasEmail, Grows, IdsFresh;
    if req.Login? || req.ConfirmReset? || req.IssueReset? || req.CreateUser? {
      hide Handle;
      SignInGrows(db, c, req, now);
    } else if req.UpdateUser? || req.DisableUser? || req.EnableUser? {
      hide Handle;
      AdminGrows(db, c, req, now);
    } else {
      OwnGrows(db, c, req, Resolve(db, c, req.bearer, now).value, now);
    }
  }

  lemma NextGrows(db: Db, c: Config, call: Call)
    requires IdsFresh(db)
    ensures Grows(db, Next(db, c, call))
  {
    hide Handle, Grows;
    GrowsReflexive(db);
    if Handle(db, c, call.req, call.now).Ok? { HandleGrows(db, c, call.req, call.now); }
  }

  /** The tables before the k-th call of a run. */
  ghost function Before(c: Config, calls: seq<Call>, k: nat): Db
    requires k <= |calls|
  {
    Run(c, calls[..k])
  }

  lemma BeforeStep(c: Config, calls: seq<Call>, k: nat)
    requires k < |calls|
    ensures Before(c, calls, k + 1) == Next(Before(c, calls, k), c, calls[k])
  {
    assert calls[..k + 1][..k] == calls[..k];
  }

  lemma {:induction false} BeforeGrows(c: Config, calls: seq<Call>, i: nat, j: nat)
    requires i <= j <= |calls|
    ensures Grows(Before(c, calls, i), Before(c, calls, j))
    decreases j
  {
    hide Grows, Next, Run;
    if i == j {
      GrowsReflexive(Before(c, calls, i));
    } else {
      BeforeGrows(c, calls, i, j - 1);
      BeforeStep(c, calls, j - 1);
      RunKeepsInv(c, calls[..j - 1]);
      NextGrows(Before(c, calls, j - 1), c, calls[j - 1]);
      GrowsTransitive(Before(c, calls, i), Before(c, calls, j - 1), Before(c, calls, j));
    }
  }

  // ── Backup codes ─────────────────────────────────────────────────────

  ghost function ConsumedAt(c: Config, calls: seq<Call>, k: nat): Option<Id>
    requires k < |calls|
  {
    Consumed(Before(c, calls, k), c, calls[k].req, calls[k].now)
  }

  /** A verification that consumes a factor goes through, verifies its session, and burns a backup code. */
  lemma ConsumingBurns(db: Db, c: Config, req: Request, now: Time)
    requires Consumed(db, c, req, now).Some?
    ensures Handle(db, c, req, now).Ok?
    ensures var f, s, db' := Consumed(db, c, req, now).value, Resolve(db, c, req.bearer, now).value, Handle(db, c, req, now).value;
            && s in db'.sessions && db'.sessions[s].mfaVerified && f in db.factors && !db.factors[f].revoked
            && db.factors[f].user == db.sessions[s].user
            && (db.factors[f].kind == BackupCode ==> f in db'.factors && db'.factors[f].revoked)
  {
    var s := Resolve(db, c, req.bearer, now).value;
    AcceptedIs(db, c, db.sessions[s].user, req.code, req.scanned, now);
    hide Accepts, IsScan;
  }

  /** Over any run, no backup code is accepted twice. */
  lemma BackupCodesAreSingleUse(c: Config, calls: seq<Call>, i: nat, j: nat, f: Id)
    requires i < j < |calls|
    requires ConsumedAt(c, calls, i) == Some(f)
    requires f in Before(c, calls, i).factors && Before(c, calls, i).factors[f].kind == BackupCode
    ensures ConsumedAt(c, calls, j) != Some(f)
  {
    hide Run, Handle, Consumed;
    ConsumingBurns(Before(c, calls, i), c, calls[i].req, calls[i].now);
    BeforeStep(c, calls, i);
    BeforeGrows(c, calls, i + 1, j);
    if ConsumedAt(c, calls, j) == Some(f) {
      ConsumingBurns(Before(c, calls, j), c, calls[j].req, calls[j].now);
    }
  }

  // ── Verified sessions ────────────────────────────────────────────────

  /** Call k verified session s: by logging in without MFA, or by a factor. */
  ghost predicate Vouches(c: Config, calls: seq<Call>, k: nat, s: Id)
    requires k < |calls|
  {
    var db, req := Before(c, calls, k), calls[k].req;
    if req.Login? then
      var r := Handle(db, c, req, calls[k].now);
      && r.Ok? && s == db.nextId && s in r.value.sessions
      && var u := r.value.sessions[s].user;
         u in db.users && HasEmail(db.users[u], req.tenant, req.email) && !db.users[u].mfaRequired
    else Consumed(db, c, req, calls[k].now).Some? && Resolve(db, c, req.bearer, calls[k].now) == Ok(s)
  }

  ghost predicate Verified(db: Db, s: Id) { s in db.sessions && db.sessions[s].mfaVerified }

  lemma OwnVerifies(db: Db, c: Config, req: Request, now: Time, s: Id)
    requires NeedsSession(req)
    requires Handle(db, c, req, now).Ok? && Verified(Handle(db, c, req, now).value, s) && !Verified(db, s)
    ensures Consumed(db, c, req, now).Some? && Resolve(db, c, req.bearer, now) == Ok(s)
  {
    hide Accepts, IsScan, EnrolledTotp, ActiveTotp;
  }

  lemma NewlyVerified(c: Config, calls: seq<Call>, k: nat, s: Id)
    requires k < |calls|
    requires Verified(Before(c, calls, k + 1), s) && !Verified(Before(c, calls, k), s)
    ensures Vouches(c, calls, k, s)
  {
    var db, req, now := Before(c, calls, k), calls[k].req, calls[k].now;
    BeforeStep(c, calls, k);
    hide Run, HandleOwn, OtherOwners, HasEmail, Before;
    if NeedsSession(req) {
      hide Consumed;
      OwnVerifies(db, c, req, now, s);
    }
  }

  /** After any run a session is verified only because MFA was not required at its login or a factor was accepted for it. */
  lemma {:induction false} VerifiedForAReason(c: Config, calls: seq<Call>, n: nat, s: Id) returns (k: nat)
    requires n <= |calls| && Verified(Before(c, calls, n), s)
    ensures k < n && Vouches(c, calls, k, s)
    decreases n
  {
    hide Vouches;
    if n == 0 {
      assert false;
    } else if Verified(Before(c, calls, n - 1), s) {
      k := VerifiedForAReason(c, calls, n - 1, s);
    } else {
      NewlyVerified(c, calls, n - 1, s);
      k := n - 1;
    }
  }

  /** Whoever passes the gate of the MFA endpoints is not held to MFA, or has a session verified for one of those reasons. */
  lemma MfaGateIsEarned(c: Config, calls: seq<Call>, bearer: Bearer, now: Time) returns (k: nat)
    ensures var db := Before(c, calls, |calls|);
            ResolveMfa(db, c, bearer, now).Ok? ==>
              var s := bearer.value.id;
              && s in db.sessions && db.sessions[s].user in db.users
              && (!db.users[db.sessions[s].user].mfaRequired || (k < |calls| && Vouches(c, calls, k, s)))
  {
    hide Vouches;
    k := 0;
    var db := Before(c, calls, |calls|);
    if ResolveMfa(db, c, bearer, now).Ok? && Verified(db, bearer.value.id) {
      k := VerifiedForAReason(c, calls, |calls|, bearer.value.id);
    }
  }

  /** A revoked session is never accepted again. */
  lemma RevokedForEver(c: Config, calls: seq<Call>, i: nat, j: nat, bearer: Bearer, now: Time)
    requires i <= j <= |calls| && bearer.Some?
    requires bearer.value.id in Before(c, calls, i).sessions && Before(c, calls, i).sessions[bearer.value.id].revoked
    ensures Resolve(Before(c, calls, j), c, bearer, now) == Err(Unauthorized)
  {
    hide Run;
    BeforeGrows(c, calls, i, j);
  }

  // ── Password resets ──────────────────────────────────────────────────

  /** The reset row that a request redeems. */
  ghost function Redeems(db: Db, c: Config, req: Request, now: Time): Option<Id> {
    if req.ConfirmReset? && Handle(db, c, req, now).Ok? then Some(req.token.value.id) else None
  }

  lemma RedeemingUses(db: Db, c: Config, req: Request, now: Time)
    requires Redeems(db, c, req, now).Some?
    ensures var r, db' := Redeems(db, c, req, now).value, Handle(db, c, req, now).value;
            && r in db.resets && !db.resets[r].used && r in db'.resets && db'.resets[r].used
            && forall s :: s in db.sessions && db.sessions[s].user == db.resets[r].user ==>
                 s in db'.sessions && db'.sessions[s].revoked
  {
  }

  /** Over any run, no reset token is redeemed twice. */
  lemma ResetTokensAreSingleUse(c: Config, calls: seq<Call>, i: nat, j: nat, r: Id)
    requires i < j < |calls|
    requires Redeems(Before(c, calls, i), c, calls[i].req, calls[i].now) == Some(r)
    ensures Redeems(Before(c, calls, j), c, calls[j].req, calls[j].now) != Some(r)
  {
    hide Run, Handle;
    RedeemingUses(Before(c, calls, i), c, calls[i].req, calls[i].now);
    BeforeStep(c, calls, i);
    BeforeGrows(c, calls, i + 1, j);
    if Redeems(Before(c, calls, j), c, calls[j].req, calls[j].now) == Some(r) {
      RedeemingUses(Before(c, calls, j), c, calls[j].req, calls[j].now);
    }
  }

  /** Once a user's reset is redeemed, every session from before it is rejected for ever. */
  lemma RedemptionEndsSessions(c: Config, calls: seq<Call>, i: nat, j: nat, r: Id, bearer: Bearer, now: Time)
    requires i < j <= |calls|
    requires Redeems(Before(c, calls, i), c, calls[i].req, calls[i].now) == Some(r)
    requires bearer.Some? && bearer.value.id in Before(c, calls, i).sessions && r in Before(c, calls, i).resets
    requires Before(c, calls, i).sessions[bearer.value.id].user == Before(c, calls, i).resets[r].user
    ensures Resolve(Before(c, calls, j), c, bearer, now) == Err(Unauthorized)
  {
    hide Run, Handle;
    RedeemingUses(Before(c, calls, i), c, calls[i].req, calls[i].now);
    BeforeStep(c, calls, i);
    RevokedForEver(c, calls, i + 1, j, bearer, now);
  }

  /** Issuing a reset kills the user's earlier tokens for good, used or not. */
  lemma IssuingKillsOlderTokens(c: Config, calls: seq<Call>, i: nat, j: nat, r: Id)
    requires i < j < |calls| && calls[i].req.IssueReset?
    requires Handle(Before(c, calls, i), c, calls[i].req, calls[i].now).Ok?
    requires r in Before(c, calls, i).resets && Before(c, calls, i).resets[r].user == calls[i].req.user
    ensures Redeems(Before(c, calls, j), c, calls[j].req, calls[j].now) != Some(r)
  {
    RunKeepsInv(c, calls[..i]);
    BeforeStep(c, calls, i);
    hide Run;
    IssueUses(Before(c, calls, i), c, calls[i].req, calls[i].now, r);
    hide Handle;
    BeforeGrows(c, calls, i + 1, j);
    if Redeems(Before(c, calls, j), c, calls[j].req, calls[j].now) == Some(r) {
      RedeemingUses(Before(c, calls, j), c, calls[j].req, calls[j].now);
    }
  }

  lemma IssueUses(db: Db, c: Config, req: Request, now: Time, r: Id)
    requires IdsFresh(db) && req.IssueReset? && Handle(db, c, req, now).Ok?
    requires r in db.resets && db.resets[r].user == req.user
    ensures var db' := Handle(db, c, req, now).value; r in db'.resets && db'.resets[r].used
  {
  }

  // ── Passwords ────────────────────────────────────────────────────────

  /** Changing the password leaves the calling session alone and ends the user's others; nobody else notices. */
  lemma SetPasswordSparesTheCaller(db: Db, c: Config, req: Request, now: Time, bearer: Bearer, at: Time)
    requires req.SetPassword? && Handle(db, c, req, now).Ok?
    ensures var mine, db' := Resolve(db, c, req.bearer, now).value, Handle(db, c, req, now).value;
            Resolve(db', c, bearer, at) ==
              if bearer.Some? && bearer.value.id in db.sessions && bearer.value.id != mine
                 && db.sessions[bearer.value.id].user == db.sessions[mine].user
              then Err(Unauthorized) else Resolve(db, c, bearer, at)
  {
  }

  // ── Disabling ────────────────────────────────────────────────────────

  /** No token opens a disabled user's session; enabling the user again restores every table. */
  lemma DisableThenEnable(db: Db, c: Config, tenant: Id, user: Id, now: Time, later: Time)
    requires Handle(db, c, DisableUser(tenant, user), now).Ok?
    ensures var off := Handle(db, c, DisableUser(tenant, user), now).value;
            && (forall b: Bearer, at :: b.Some? && b.value.id in db.sessions && db.sessions[b.value.id].user == user ==>
                  Resolve(off, c, b, at) == Err(Unauthorized))
            && Handle(off, c, EnableUser(tenant, user), later) == Ok(db)
  {
    hide OtherOwners;
    var off := Handle(db, c, DisableUser(tenant, user), now).value;
    assert off.users[user := off.users[user].(disabled := false)] == db.users;
  }

  ghost predicate HasOwner(db: Db, tenant: Id) {
    exists u :: u in db.users && db.users[u].tenant == tenant && db.users[u].role == AccountOwner && !db.users[u].disabled
  }

  /** The update gives the tenant's only active owner another role. */
  ghost predicate DemotesLastOwner(db: Db, req: Request, tenant: Id) {
    && req.UpdateUser? && req.tenant == tenant && req.newRole.Some? && req.newRole.value != AccountOwner
    && VisibleUser(db, tenant, req.user) && OtherOwners(db, tenant, req.user) == {}
  }

  lemma OwnKeepsRoles(db: Db, c: Config, req: Request, s: Id, now: Time)
    requires s in db.sessions && db.sessions[s].user in db.users
    requires NeedsSession(req)
    requires HandleOwn(db, c, req, s, now).Ok?
    ensures var db' := HandleOwn(db, c, req, s, now).value;
            db'.users.Keys == db.users.Keys && forall u :: u in db.users ==>
              db'.users[u].role == db.users[u].role && db'.users[u].tenant == db.users[u].tenant
              && db'.users[u].disabled == db.users[u].disabled
  {
    hide Accepts, IsScan, EnrolledTotp, ActiveTotp;
  }

  lemma OthersKeepRoles(db: Db, c: Config, req: Request, now: Time)
    requires IdsFresh(db) && Handle(db, c, req, now).Ok?
    requires req.Login? || req.ConfirmReset? || req.IssueReset? || req.CreateUser?
    ensures var db' := Handle(db, c, req, now).value;
            forall u :: u in db.users ==>
              u in db'.users && db'.users[u].role == db.users[u].role && db'.users[u].tenant == db.users[u].tenant
              && db'.users[u].disabled == db.users[u].disabled
  {
    hide HasEmail;
  }

  lemma SameRolesSameOwners(db: Db, db': Db, tenant: Id)
    requires forall u :: u in db.users ==>
               u in db'.users && db'.users[u].role == db.users[u].role && db'.users[u].tenant == db.users[u].tenant
               && db'.users[u].disabled == db.users[u].disabled
    ensures HasOwner(db, tenant) ==> HasOwner(db', tenant)
  {
  }

  lemma PutUserOwners(db: Db, user: Id, row: User, tenant: Id)
    requires user in db.users && row.tenant == db.users[user].tenant
    ensures HasOwner(PutUser(db, user, row), tenant) <==>
            (row.tenant == tenant && row.role == AccountOwner && !row.disabled) || OtherOwners(db, tenant, user) != {}
  {
    var db' := PutUser(db, user, row);
    if OtherOwners(db, tenant, user) != {} {
      var u :| u in OtherOwners(db, tenant, user);
      assert db'.users[u] == db.users[u];
    }
    if HasOwner(db', tenant) {
      var u :| u in db'.users && db'.users[u].tenant == tenant && db'.users[u].role == AccountOwner && !db'.users[u].disabled;
      assert u != user ==> u in OtherOwners(db, tenant, user);
    }
    if row.tenant == tenant && row.role == AccountOwner && !row.disabled { assert db'.users[user] == row; }
  }

  /** A tenant with an active owner keeps one, except when an update demotes the only one. */
  lemma OwnerlessOnlyByDemotion(db: Db, c: Config, req: Request, now: Time, tenant: Id)
    requires IdsFresh(db) && HasOwner(db, tenant) && Handle(db, c, req, now).Ok?
    ensures HasOwner(Handle(db, c, req, now).value, tenant) <==> !DemotesLastOwner(db, req, tenant)
  {
    var db' := Handle(db, c, req, now).value;
    hide HandleOwn, HasOwner, HasEmail, OtherOwners;
    if req.UpdateUser? {
      if req.newRole.Some? {
        PutUserOwners(db, req.user, SetRole(db.users[req.user], req.newRole.value), tenant);
        OwnersSplit(db, req.user, tenant);
      }
    } else if req.DisableUser? {
      PutUserOwners(db, req.user, db.users[req.user].(disabled := true), tenant);
      OwnersSplit(db, req.user, tenant);
    } else if req.EnableUser? {
      PutUserOwners(db, req.user, db.users[req.user].(disabled := false), tenant);
      OwnersSplit(db, req.user, tenant);
    } else if req.Login? || req.ConfirmReset? || req.IssueReset? || req.CreateUser? {
      OthersKeepRoles(db, c, req, now);
      hide Handle;
      SameRolesSameOwners(db, db', tenant);
    } else {
      OwnKeepsRoles(db, c, req, Resolve(db, c, req.bearer, now).value, now);
      SameRolesSameOwners(db, db', tenant);
    }
  }

  /** An owner is the given user or one of the others. */
  lemma OwnersSplit(db: Db, user: Id, tenant: Id)
    requires user in db.users
    ensures HasOwner(db, tenant) <==>
            OtherOwners(db, tenant, user) != {}
            || (db.users[user].tenant == tenant && db.users[user].role == AccountOwner && !db.users[user].disabled)
  {
    assert db.users[user := db.users[user]] == db.users;
    PutUserOwners(db, user, db.users[user], tenant);
  }

  /** A tenant's first user is its owner, and a change of role leaves it without one. */
  lemma DemotionLeavesNoOwner(c: Config)
    ensures exists calls, call: Call ::
              HasOwner(Run(c, calls), 1) && Handle(Run(c, calls), c, call.req, call.now).Ok?
              && !HasOwner(Next(Run(c, calls), c, call), 1)
  {
    var created := [Call(CreateUser(1, "ann", AccountOwner, LiveTenant), 0)];
    var demoted := Call(UpdateUser(1, 0, Some(Viewer)), 0);
    assert created[..0] == [] && Run(c, []) == EMPTY;
    var db := Run(c, created);
    assert db == AddUser(EMPTY, 1, "ann", AccountOwner);
    assert db.users[0].role == AccountOwner && HasOwner(db, 1);
    assert Next(db, c, demoted).users == map[0 := SetRole(db.users[0], Viewer)];
  }

}
