/** The account handlers as they run: lookups, checks, then row updates. */
module AccountService {
  import opened Common
  import opened Accounts
  import opened AccountProofs

  /** The handler did what Handle says, or raised its error and wrote nothing. */
  ghost predicate Effect<T>(before: Db, c: Config, req: Request, now: Time, after: Db, r: Result<T>) {
    match Handle(before, c, req, now)
    case Err(e) => r == Err(e) && after == before
    case Ok(db) => r.Ok? && after == db
  }

  lemma EffectKeepsInv<T>(before: Db, c: Config, req: Request, now: Time, after: Db, r: Result<T>)
    requires Inv(before) && Effect(before, c, req, now, after, r)
    ensures Inv(after)
  {
    hide Inv;
    if Handle(before, c, req, now).Ok? { HandleKeepsInv(before, c, req, now); }
  }

  class AccountTables {
    const c: Config
    var users: map<Id, User>
    var sessions: map<Id, Session>
    var factors: map<Id, Factor>
    var resets: map<Id, Reset>
    var nextId: Id

    ghost function Tables(): Db
      reads this
    {
      Db(users, sessions, factors, resets, nextId)
    }

    ghost predicate Valid()
      reads this
    {
      Inv(Tables())
    }

    constructor (c: Config)
      ensures Valid() && Tables() == EMPTY && this.c == c
    {
      this.c := c;
      users, sessions, factors, resets, nextId := map[], map[], map[], map[], 0;
      new;
      EmptyInv();
    }

    method ResolveBearer(bearer: Bearer, now: Time) returns (r: Result<Id>)
      ensures r == Resolve(Tables(), c, bearer, now)
    {
      if bearer.None? || bearer.value.id !in sessions { return Err(Unauthorized); }
      var s := sessions[bearer.value.id];
      if s.user !in users { return Err(Unauthorized); }
      if s.revoked { return Err(Unauthorized); }
      if s.expires < now { return Err(Unauthorized); }
      if users[s.user].disabled { return Err(Unauthorized); }
      if !c.matches(bearer.value.secret, s.tokenHash) { return Err(Unauthorized); }
      return Ok(bearer.value.id);
    }

    method Login(tenant: Id, email: string, password: string, tokenHash: string, now: Time) returns (r: Result<Id>)
      requires Valid()
      modifies this
      ensures Valid()
      ensures Effect(old(Tables()), c, Request.Login(tenant, email, password, tokenHash), now, Tables(), r)
    {
      hide Inv, HasEmail;
      ghost var before := Tables();
      if u: Id :| u in users && HasEmail(users[u], tenant, email) {
        forall v | v in users && HasEmail(users[v], tenant, email) ensures v == u {
          UniqueEmails(before);
          EmailIsUnique(before, tenant, email, u, v);
        }
        var row := users[u];
        if row.disabled || row.password.None? { return Err(Unauthorized); }
        if !c.matches(password, row.password.value) { return Err(Unauthorized); }
        sessions := sessions[nextId := Session(u, tokenHash, !row.mfaRequired, now + c.sessionLifetime, false)];
        nextId := nextId + 1;
        r := Ok(nextId - 1);
      } else {
        return Err(Unauthorized);
      }
      EffectKeepsInv(before, c, Request.Login(tenant, email, password, tokenHash), now, Tables(), r);
    }

    method SetUpTotp(bearer: Bearer, secret: string, now: Time) returns (r: Result<Id>)
      requires Valid()
      modifies this
      ensures Valid()
      ensures Effect(old(Tables()), c, TotpSetup(bearer, secret), now, Tables(), r)
    {
      hide Inv;
      ghost var before := Tables();
      var s := ResolveBearer(bearer, now);
      if s.Err? { return Err(s.error); }
      var u := sessions[s.value].user;
      if f: Id :| f in factors && ActiveTotp(factors, u, f) { return Err(Conflict); }
      factors := factors[nextId := Factor(u, Totp, false, secret, false)];
      nextId := nextId + 1;
      r := Ok(nextId - 1);
      EffectKeepsInv(before, c, TotpSetup(bearer, secret), now, Tables(), r);
    }

    /** One row per backup code. */
    method InsertBackups(u: Id, backups: seq<string>)
      modifies this`factors, this`nextId
      ensures nextId == old(nextId) + |backups| && factors == old(factors) + BackupRows(u, old(nextId), backups)
    {
      for i := 0 to |backups|
        invariant nextId == old(nextId) + i && factors == old(factors) + BackupRows(u, old(nextId), backups[..i])
      {
        assert backups[..i + 1][..i] == backups[..i];
        factors := factors[nextId := Factor(u, BackupCode, true, backups[i], false)];
        nextId := nextId + 1;
      }
      assert backups[..|backups|] == backups;
    }

    method ConfirmTotp(bearer: Bearer, f: Id, code: string, backups: seq<string>, now: Time) returns (r: Result<()>)
      requires Valid()
      modifies this
      ensures Valid()
      ensures Effect(old(Tables()), c, TotpConfirm(bearer, f, code, backups), now, Tables(), r)
    {
      hide Inv;
      ghost var before := Tables();
      var s := ResolveBearer(bearer, now);
      if s.Err? { return Err(s.error); }
      var u := sessions[s.value].user;
      if !ActiveTotp(factors, u, f) { return Err(NotFound); }
      if factors[f].confirmed { return Err(Conflict); }
      if !c.totp(factors[f].secret, code, now) { return Err(BadRequest); }
      hide ActiveTotp, BackupRows;
      factors := factors[f := factors[f].(confirmed := true)];
      users := users[u := users[u].(mfaEnrolled := true)];
      InsertBackups(u, backups);
      r := Ok(());
      EffectKeepsInv(before, c, TotpConfirm(bearer, f, code, backups), now, Tables(), r);
    }

    method Revoke(bearer: Bearer, f: Id, now: Time) returns (r: Result<()>)
      requires Valid()
      modifies this
      ensures Valid()
      ensures Effect(old(Tables()), c, Request.RevokeFactor(bearer, f), now, Tables(), r)
    {
      hide Inv, EnrolledTotp;
      ghost var before := Tables();
      var s := ResolveBearer(bearer, now);
      if s.Err? { return Err(s.error); }
      var u := sessions[s.value].user;
      if f !in factors || factors[f].user != u || factors[f].revoked { return Err(NotFound); }
      factors := factors[f := factors[f].(revoked := true)];
      assert forall g :: EnrolledTotp(factors, u, g) ==> g in factors by { EnrolledIsThere(factors, u); }
      var stillEnrolled := exists g :: g in factors && EnrolledTotp(factors, u, g);
      if !stillEnrolled {
        users := users[u := users[u].(mfaEnrolled := false)];
      }
      r := Ok(());
      EffectKeepsInv(before, c, Request.RevokeFactor(bearer, f), now, Tables(), r);
    }

    /** The scan of the active backup rows, in whatever order they come. */
    method ScanBackups(u: Id, code: string) returns (found: Option<Id>)
      ensures IsScan(Tables(), c, u, code, found)
    {
      var todo := set f | f in factors && factors[f].user == u && factors[f].kind == BackupCode && !factors[f].revoked;
      while todo != {}
        invariant forall f :: Opens(Tables(), c, u, code, f) ==> f in todo
        invariant todo <= factors.Keys
        invariant forall f :: f in todo ==> factors[f].user == u && factors[f].kind == BackupCode && !factors[f].revoked
        decreases |todo|
      {
        var f :| f in todo;
        if c.matches(code, factors[f].secret) { return Some(f); }
        todo := todo - {f};
      }
      return None;
    }

    /** `scanned` is the backup row that the scan met first; the scan happens only if the TOTP does not fit. */
    method VerifyTotp(bearer: Bearer, code: string, now: Time) returns (r: Result<()>, ghost scanned: Option<Id>)
      requires Valid()
      modifies this
      ensures Valid()
      ensures Effect(old(Tables()), c, TotpVerify(bearer, code, scanned), now, Tables(), r)
    {
      hide Inv, EnrolledTotp, IsScan;
      ghost var before := Tables();
      scanned := None;
      var s := ResolveBearer(bearer, now);
      if s.Err? { return Err(s.error), scanned; }
      var session := sessions[s.value];
      if session.mfaVerified { return Ok(()), scanned; }
      if !users[session.user].mfaRequired { return Err(Conflict), scanned; }
      EnrolledIsThere(factors, session.user);
      EnrolledTotpIsUnique(before, session.user);
      if f: Id :| f in factors && EnrolledTotp(factors, session.user, f) && c.totp(factors[f].secret, code, now) {
        scanned := SomeScan(before, c, session.user, code);
        TotpAccepted(before, c, session.user, code, scanned, now, f);
        sessions := sessions[s.value := session.(mfaVerified := true)];
      } else {
        var found := ScanBackups(session.user, code);
        scanned := found;
        if found.None? { return Err(BadRequest), scanned; }
        ScannedIsBackup(before, c, session.user, code, found);
        factors := factors[found.value := factors[found.value].(revoked := true)];
        sessions := sessions[s.value := session.(mfaVerified := true)];
      }
      r := Ok(());
      EffectKeepsInv(before, c, TotpVerify(bearer, code, scanned), now, Tables(), r);
    }

    method ChangePassword(bearer: Bearer, current: string, newPassword: string, newHash: string, now: Time)
      returns (r: Result<()>)
      requires Valid()
      modifies this
      ensures Valid()
      ensures Effect(old(Tables()), c, Request.SetPassword(bearer, current, newPassword, newHash), now, Tables(), r)
    {
      hide Inv;
      ghost var before := Tables();
      var s := ResolveBearer(bearer, now);
      if s.Err? { return Err(s.error); }
      if !c.strong(newPassword) { return Err(BadRequest); }
      var u := sessions[s.value].user;
      if users[u].password.None? { return Err(Conflict); }
      if !c.matches(current, users[u].password.value) { return Err(Unauthorized); }
      users := users[u := users[u].(password := Some(newHash))];
      sessions := map k | k in sessions ::
        if sessions[k].user == u && k != s.value then sessions[k].(revoked := true) else sessions[k];
      r := Ok(());
      EffectKeepsInv(before, c, Request.SetPassword(bearer, current, newPassword, newHash), now, Tables(), r);
    }

    method LogOut(bearer: Bearer, now: Time) returns (r: Result<()>)
      requires Valid()
      modifies this
      ensures Valid()
      ensures Effect(old(Tables()), c, Logout(bearer), now, Tables(), r)
    {
      hide Inv;
      ghost var before := Tables();
      var s := ResolveBearer(bearer, now);
      if s.Err? { return Err(s.error); }
      sessions := sessions[s.value := sessions[s.value].(revoked := true)];
      r := Ok(());
      EffectKeepsInv(before, c, Logout(bearer), now, Tables(), r);
    }

    method LogOutEverywhere(bearer: Bearer, now: Time) returns (r: Result<()>)
      requires Valid()
      modifies this
      ensures Valid()
      ensures Effect(old(Tables()), c, LogoutAll(bearer), now, Tables(), r)
    {
      hide Inv;
      ghost var before := Tables();
      var s := ResolveBearer(bearer, now);
      if s.Err? { return Err(s.error); }
      var u := sessions[s.value].user;
      sessions := map k | k in sessions :: if sessions[k].user == u then sessions[k].(revoked := true) else sessions[k];
      r := Ok(());
      EffectKeepsInv(before, c, LogoutAll(bearer), now, Tables(), r);
    }

    method ConfirmPasswordReset(token: Bearer, newPassword: string, newHash: string, now: Time) returns (r: Result<()>)
      requires Valid()
      modifies this
      ensures Valid()
      ensures Effect(old(Tables()), c, ConfirmReset(token, newPassword, newHash), now, Tables(), r)
    {
      ghost var before := Tables();
      hide Inv;
      if !c.strong(newPassword) { return Err(BadRequest); }
      if token.None? || token.value.id !in resets { return Err(BadRequest); }
      var row := resets[token.value.id];
      if row.used || row.expires < now { return Err(BadRequest); }
      if !c.matches(token.value.secret, row.tokenHash) { return Err(BadRequest); }
      assert row.user in users by { ResetUsersKnown(before); }
      resets := resets[token.value.id := row.(used := true)];
      users := users[row.user := users[row.user].(password := Some(newHash))];
      sessions := map k | k in sessions :: if sessions[k].user == row.user then sessions[k].(revoked := true) else sessions[k];
      r := Ok(());
      EffectKeepsInv(before, c, ConfirmReset(token, newPassword, newHash), now, Tables(), r);
    }

    method IssuePasswordReset(tenant: Id, user: Id, tokenHash: string, now: Time) returns (r: Result<Id>)
      requires Valid()
      modifies this
      ensures Valid()
      ensures Effect(old(Tables()), c, IssueReset(tenant, user, tokenHash), now, Tables(), r)
    {
      hide Inv;
      ghost var before := Tables();
      if user !in users || users[user].tenant != tenant || users[user].disabled { return Err(NotFound); }
      resets := map k | k in resets :: if resets[k].user == user then resets[k].(used := true) else resets[k];
      resets := resets[nextId := Reset(user, tokenHash, now + c.resetLifetime, false)];
      nextId := nextId + 1;
      r := Ok(nextId - 1);
      EffectKeepsInv(before, c, IssueReset(tenant, user, tokenHash), now, Tables(), r);
    }

    method CreateTenantUser(tenant: Id, email: string, role: Role, standing: Standing, now: Time) returns (r: Result<Id>)
      requires Valid()
      modifies this
      ensures Valid()
      ensures Effect(old(Tables()), c, CreateUser(tenant, email, role, standing), now, Tables(), r)
    {
      hide Inv, HasEmail;
      ghost var before := Tables();
      if standing.NoTenant? { return Err(NotFound); }
      if standing.DeletedTenant? { return Err(Conflict); }
      if u: Id :| u in users && HasEmail(users[u], tenant, email) { return Err(Conflict); }
      users := users[nextId := User(tenant, email, role, None, role == AccountOwner || role == Editor, false, false)];
      nextId := nextId + 1;
      r := Ok(nextId - 1);
      EffectKeepsInv(before, c, CreateUser(tenant, email, role, standing), now, Tables(), r);
    }

    method UpdateTenantUser(tenant: Id, user: Id, role: Option<Role>, now: Time) returns (r: Result<()>)
      requires Valid()
      modifies this
      ensures Valid()
      ensures Effect(old(Tables()), c, UpdateUser(tenant, user, role), now, Tables(), r)
    {
      hide Inv;
      ghost var before := Tables();
      if user !in users || users[user].tenant != tenant { return Err(NotFound); }
      if role.Some? {
        users := users[user := users[user].(role := role.value)];
        if role.value == AccountOwner || role.value == Editor {
          users := users[user := users[user].(mfaRequired := true)];
        }
      }
      r := Ok(());
      EffectKeepsInv(before, c, UpdateUser(tenant, user, role), now, Tables(), r);
    }

    method DisableTenantUser(tenant: Id, user: Id, now: Time) returns (r: Result<()>)
      requires Valid()
      modifies this
      ensures Valid()
      ensures Effect(old(Tables()), c, DisableUser(tenant, user), now, Tables(), r)
    {
      hide Inv;
      ghost var before := Tables();
      if user !in users || users[user].tenant != tenant { return Err(NotFound); }
      if users[user].disabled { return Err(Conflict); }
      if users[user].role == AccountOwner {
        var others := set u | u in users && users[u].tenant == tenant && users[u].role == AccountOwner
                              && !users[u].disabled && u != user;
        assert others == OtherOwners(Tables(), tenant, user);
        if others == {} { return Err(Conflict); }
      }
      users := users[user := users[user].(disabled := true)];
      r := Ok(());
      EffectKeepsInv(before, c, DisableUser(tenant, user), now, Tables(), r);
    }

    method EnableTenantUser(tenant: Id, user: Id, now: Time) returns (r: Result<()>)
      requires Valid()
      modifies this
      ensures Valid()
      ensures Effect(old(Tables()), c, EnableUser(tenant, user), now, Tables(), r)
    {
      hide Inv;
      ghost var before := Tables();
      if user !in users || users[user].tenant != tenant { return Err(NotFound); }
      if !users[user].disabled { return Err(Conflict); }
      users := users[user := users[user].(disabled := false)];
      r := Ok(());
      EffectKeepsInv(before, c, EnableUser(tenant, user), now, Tables(), r);
    }
  }

  // ── Facts that the handlers rely on ──────────────────────────────────

  lemma UniqueEmails(db: Db)
    requires Inv(db)
    ensures EmailsUnique(db.users)
  {
  }

  lemma ResetUsersKnown(db: Db)
    requires Inv(db)
    ensures forall r :: r in db.resets ==> db.resets[r].user in db.users
  {
  }

  lemma EnrolledIsThere(factors: map<Id, Factor>, u: Id)
    ensures forall g :: EnrolledTotp(factors, u, g) ==> g in factors
  {
  }

  lemma EnrolledTotpIsUnique(db: Db, u: Id)
    requires Inv(db)
    ensures forall f, g :: EnrolledTotp(db.factors, u, f) && EnrolledTotp(db.factors, u, g) ==> f == g
  {
  }

  lemma SomeScan(db: Db, c: Config, u: Id, code: string) returns (scanned: Option<Id>)
    ensures IsScan(db, c, u, code, scanned)
  {
    if f: Id :| Opens(db, c, u, code, f) { scanned := Some(f); } else { scanned := None; }
  }

  lemma TotpAccepted(db: Db, c: Config, u: Id, code: string, scanned: Option<Id>, now: Time, f: Id)
    requires Inv(db) && EnrolledTotp(db.factors, u, f) && c.totp(db.factors[f].secret, code, now)
    ensures Accepts(db, c, u, code, scanned, now) == Some(f) && db.factors[f].kind == Totp
  {
  }

  lemma ScannedIsBackup(db: Db, c: Config, u: Id, code: string, found: Option<Id>)
    requires IsScan(db, c, u, code, found) && found.Some?
    ensures found.value in db.factors && db.factors[found.value].kind == BackupCode
  {
  }

}
