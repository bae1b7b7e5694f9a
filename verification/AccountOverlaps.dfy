/**
  The account requests split in two: the checks, which read the tables, and the write, which
  commits later whatever has happened since. What is revoked stays revoked over every such run;
  a reset token or backup code is spent twice exactly when its two requests overlap.
 */
module AccountOverlaps {
  import opened Common
  import opened Accounts
  import opened AccountProofs
  import opened AccountRuns

  /** What an accepted request writes. */
  datatype Write =
    | PutSession(user: Id, verified: bool, tokenHash: string, expires: Time)
    | PutTotp(user: Id, secret: string)
    | Confirm(user: Id, factor: Id, backups: seq<string>)
    | Revoke(user: Id, factor: Id)
    | Accept(session: Id, code: Option<Id>) // the backup code to burn, unless the TOTP was accepted
    | ChangeHash(user: Id, newHash: string, spared: Id)
    | EndSession(session: Id)
    | EndSessions(user: Id)
    | UseReset(reset: Id, newHash: string)
    | PutReset(user: Id, tokenHash: string, expires: Time)
    | NewUser(tenant: Id, email: string, role: Role)
    | ChangeRole(user: Id, role: Role)
    | SetDisabled(user: Id, disabled: bool)
    | Nothing

  ghost function PlannedOwn(db: Db, c: Config, req: Request, s: Id, now: Time): Write
    requires s in db.sessions && db.sessions[s].user in db.users && NeedsSession(req)
  {
    var u := db.sessions[s].user;
    match req
    case TotpSetup(_, secret) => PutTotp(u, secret)
    case TotpConfirm(_, f, _, backups) => Confirm(u, f, backups)
    case RevokeFactor(_, f) => Revoke(u, f)
    case TotpVerify(_, code, scanned) =>
      if db.sessions[s].mfaVerified then Nothing
      else
        var f := Accepts(db, c, u, code, scanned, now);
        Accept(s, if f.Some? && f.value in db.factors && db.factors[f.value].kind == BackupCode then f else None)
    case SetPassword(_, _, _, newHash) => ChangeHash(u, newHash, s)
    case Logout(_) => EndSession(s)
    case LogoutAll(_) => EndSessions(u)
  }

  /** The write that the checks of an accepted request lead to. */
  ghost function Planned(db: Db, c: Config, req: Request, now: Time): Write
    requires Handle(db, c, req, now).Ok?
  {
    match req
    case Login(tenant, email, _, tokenHash) =>
      var u :| u in db.users && HasEmail(db.users[u], tenant, email);
      PutSession(u, !db.users[u].mfaRequired, tokenHash, now + c.sessionLifetime)
    case ConfirmReset(token, _, newHash) => UseReset(token.value.id, newHash)
    case IssueReset(_, user, tokenHash) => PutReset(user, tokenHash, now + c.resetLifetime)
    case CreateUser(tenant, email, role, _) => NewUser(tenant, email, role)
    case UpdateUser(_, user, role) => if role.None? then Nothing else ChangeRole(user, role.value)
    case DisableUser(_, user) => SetDisabled(user, true)
    case EnableUser(_, user) => SetDisabled(user, false)
    case _ => PlannedOwn(db, c, req, Resolve(db, c, req.bearer, now).value, now)
  }

  /** The write by itself: updates by primary key, and a user only if the unique key allows it. */
  ghost function Apply(db: Db, w: Write): Db {
    match w
    case PutSession(u, verified, tokenHash, expires) =>
      if u in db.users then AddSession(db, u, verified, tokenHash, expires) else db
    case PutTotp(u, secret) => if u in db.users then AddTotp(db, u, secret) else db
    case Confirm(u, f, backups) => if u in db.users && f in db.factors then Enrol(db, u, f, backups) else db
    case Revoke(u, f) => if u in db.users && f in db.factors then DropAndUnenrol(db, u, f) else db
    case Accept(s, code) =>
      var db1 := if code.Some? && code.value in db.factors then DropFactor(db, code.value) else db;
      if s in db1.sessions then Verify(db1, s) else db1
    case ChangeHash(u, newHash, spared) =>
      if u in db.users then SetHash(db, u, newHash).(sessions := RevokeOthers(db.sessions, u, spared)) else db
    case EndSession(s) =>
      if s in db.sessions then db.(sessions := db.sessions[s := db.sessions[s].(revoked := true)]) else db
    case EndSessions(u) => db.(sessions := RevokeAll(db.sessions, u))
    case UseReset(r, newHash) =>
      if r in db.resets && db.resets[r].user in db.users then Redeem(db, r, newHash) else db
    case PutReset(u, tokenHash, expires) => if u in db.users then AddReset(db, u, tokenHash, expires) else db
    case NewUser(tenant, email, role) =>
      if exists u :: u in db.users && HasEmail(db.users[u], tenant, email) then db else AddUser(db, tenant, email, role)
    case ChangeRole(u, role) => if u in db.users then Accounts.PutUser(db, u, SetRole(db.users[u], role)) else db
    case SetDisabled(u, disabled) =>
      if u in db.users then Accounts.PutUser(db, u, db.users[u].(disabled := disabled)) else db
    case Nothing => db
  }

  lemma OwnAppliesPlanned(db: Db, c: Config, req: Request, s: Id, now: Time)
    requires s in db.sessions && db.sessions[s].user in db.users && NeedsSession(req)
    requires HandleOwn(db, c, req, s, now).Ok?
    ensures Apply(db, PlannedOwn(db, c, req, s, now)) == HandleOwn(db, c, req, s, now).value
  {
    hide Accepts, IsScan, Enrol, DropAndUnenrol, EnrolledTotp, RevokeAll, RevokeOthers, SetHash;
  }

  /** With nothing in between, checking and writing is the atomic request. */
  lemma AppliesPlanned(db: Db, c: Config, req: Request, now: Time)
    requires EmailsUnique(db.users) && Handle(db, c, req, now).Ok?
    ensures Apply(db, Planned(db, c, req, now)) == Handle(db, c, req, now).value
  {
    hide HandleOwn, PlannedOwn, HasEmail, Redeem, AddReset, AddSession, OtherOwners, EmailsUnique;
    if NeedsSession(req) {
      hide Apply;
      OwnAppliesPlanned(db, c, req, Resolve(db, c, req.bearer, now).value, now);
    } else if req.Login? {
      forall u, v | u in db.users && v in db.users && HasEmail(db.users[u], req.tenant, req.email)
                    && HasEmail(db.users[v], req.tenant, req.email)
        ensures u == v
      {
        EmailIsUnique(db, req.tenant, req.email, u, v);
      }
    }
  }

  // ── Nothing comes back ───────────────────────────────────────────────

  lemma PutKeepsIds(db: Db, w: Write)
    requires IdsFresh(db) && (w.PutSession? || w.PutTotp? || w.PutReset? || w.NewUser?)
    ensures IdsFresh(Apply(db, w))
  {
    hide HasEmail;
  }

  lemma UpdateKeepsIds(db: Db, w: Write)
    requires IdsFresh(db) && !(w.PutSession? || w.PutTotp? || w.PutReset? || w.NewUser? || w.Confirm? || w.Revoke? || w.Accept?)
    ensures IdsFresh(Apply(db, w))
  {
  }

  lemma FactorKeepsIds(db: Db, w: Write)
    requires IdsFresh(db) && (w.Confirm? || w.Revoke? || w.Accept?)
    ensures IdsFresh(Apply(db, w))
  {
    hide EnrolledTotp;
  }

  lemma ApplyKeepsIds(db: Db, w: Write)
    requires IdsFresh(db)
    ensures IdsFresh(Apply(db, w))
  {
    hide *;
    if w.PutSession? || w.PutTotp? || w.PutReset? || w.NewUser? {
      PutKeepsIds(db, w);
    } else if w.Confirm? || w.Revoke? || w.Accept? {
      FactorKeepsIds(db, w);
    } else {
      UpdateKeepsIds(db, w);
    }
  }

  /** No write, whenever it commits, takes a row away or undoes a revocation, a use or an MFA requirement. */
  lemma ApplyGrows(db: Db, w: Write)
    requires IdsFresh(db)
    ensures Grows(db, Apply(db, w))
  {
    hide Grows, IdsFresh, Enrol, AddTotp, DropAndUnenrol, DropFactor, Redeem, AddReset, AddSession, AddUser, HasEmail, RevokeAll, RevokeOthers;
    GrowsReflexive(db);
    match w
    case PutSession(u, verified, tokenHash, expires) => AddSessionGrows(db, u, verified, tokenHash, expires);
    case PutTotp(u, secret) => AddTotpGrows(db, u, secret);
    case Confirm(u, f, backups) => if u in db.users && f in db.factors { EnrolGrows(db, u, f, backups); }
    case Revoke(u, f) => if u in db.users && f in db.factors { DropGrows(db, u, f); }
    case Accept(s, code) => AcceptGrows(db, s, code);
    case ChangeHash(u, newHash, spared) => if u in db.users { SetPasswordGrows(db, u, newHash, spared); }
    case EndSession(s) => if s in db.sessions { EndGrows(db, s); }
    case EndSessions(u) => EndAllGrows(db, u);
    case UseReset(r, newHash) => if r in db.resets && db.resets[r].user in db.users { RedeemGrows(db, r, newHash); }
    case PutReset(u, tokenHash, expires) => AddResetGrows(db, u, tokenHash, expires);
    case NewUser(tenant, email, role) => AddUserGrows(db, tenant, email, role);
    case ChangeRole(u, role) => if u in db.users { PutUserGrows(db, u, SetRole(db.users[u], role)); }
    case SetDisabled(u, disabled) => if u in db.users { PutUserGrows(db, u, db.users[u].(disabled := disabled)); }
    case Nothing =>
  }

  lemma AddSessionGrows(db: Db, u: Id, verified: bool, tokenHash: string, expires: Time)
    requires IdsFresh(db)
    ensures Grows(db, AddSession(db, u, verified, tokenHash, expires))
  {
  }

  lemma AddUserGrows(db: Db, tenant: Id, email: string, role: Role)
    requires IdsFresh(db)
    ensures Grows(db, AddUser(db, tenant, email, role))
  {
  }

  lemma AcceptGrows(db: Db, s: Id, code: Option<Id>)
    ensures Grows(db, Apply(db, Accept(s, code)))
  {
  }

  lemma EndGrows(db: Db, s: Id)
    requires s in db.sessions
    ensures Grows(db, Apply(db, EndSession(s)))
  {
  }

  lemma EndAllGrows(db: Db, u: Id)
    ensures Grows(db, Apply(db, EndSessions(u)))
  {
  }

  // ── Runs ─────────────────────────────────────────────────────────────

  /** An accepted request that has yet to write; it was checked when `at` writes had committed. */
  datatype Pending = Pending(write: Write, at: nat)

  datatype World = World(db: Db, pending: map<Id, Pending>, log: seq<Write>)

  datatype Step = Check(id: Id, req: Request, now: Time) | Finish(id: Id)

  /** A refused request writes nothing, and is not a step. */
  ghost function Advance(w: World, c: Config, step: Step): Option<World> {
    match step
    case Check(id, req, now) =>
      if id in w.pending || Handle(w.db, c, req, now).Err? then None
      else Some(w.(pending := w.pending[id := Pending(Planned(w.db, c, req, now), |w.log|)]))
    case Finish(id) =>
      if id !in w.pending then None
      else
        var write := w.pending[id].write;
        Some(World(Apply(w.db, write), w.pending - {id}, w.log + [write]))
  }

  ghost function RunFrom(w: World, c: Config, steps: seq<Step>): Option<World> {
    if steps == [] then Some(w)
    else
      match RunFrom(w, c, steps[..|steps| - 1])
      case None => None
      case Some(mid) => Advance(mid, c, steps[|steps| - 1])
  }

  lemma {:induction false} RunGrows(w: World, c: Config, steps: seq<Step>)
    requires IdsFresh(w.db) && RunFrom(w, c, steps).Some?
    ensures IdsFresh(RunFrom(w, c, steps).value.db) && Grows(w.db, RunFrom(w, c, steps).value.db)
  {
    hide IdsFresh, Grows, Apply, Handle, Planned;
    if steps == [] {
      GrowsReflexive(w.db);
    } else {
      var front, last := steps[..|steps| - 1], steps[|steps| - 1];
      RunGrows(w, c, front);
      var mid := RunFrom(w, c, front).value;
      if last.Finish? {
        ApplyKeepsIds(mid.db, mid.pending[last.id].write);
        ApplyGrows(mid.db, mid.pending[last.id].write);
        GrowsTransitive(w.db, mid.db, Apply(mid.db, mid.pending[last.id].write));
      }
    }
  }

  /** A revoked session is never accepted again, however checks and writes interleave. */
  lemma RevokedForEver(w: World, c: Config, steps: seq<Step>, bearer: Bearer, now: Time)
    requires IdsFresh(w.db) && RunFrom(w, c, steps).Some?
    requires bearer.Some? && bearer.value.id in w.db.sessions && w.db.sessions[bearer.value.id].revoked
    ensures Resolve(RunFrom(w, c, steps).value.db, c, bearer, now) == Err(Unauthorized)
  {
    hide RunFrom, IdsFresh;
    RunGrows(w, c, steps);
  }

  /** When a redemption commits, every session that the user then has is rejected in all later states. */
  lemma RedemptionEndsSessions(w: World, c: Config, id: Id, steps: seq<Step>, bearer: Bearer, now: Time)
    requires IdsFresh(w.db) && id in w.pending && w.pending[id].write.UseReset? && w.pending[id].write.reset in w.db.resets
    requires bearer.Some? && bearer.value.id in w.db.sessions
    requires w.db.sessions[bearer.value.id].user == w.db.resets[w.pending[id].write.reset].user
    requires RunFrom(Advance(w, c, Finish(id)).value, c, steps).Some?
    ensures Resolve(RunFrom(Advance(w, c, Finish(id)).value, c, steps).value.db, c, bearer, now) == Err(Unauthorized)
  {
    var w' := Advance(w, c, Finish(id)).value;
    assert bearer.value.id in w'.db.sessions && w'.db.sessions[bearer.value.id].revoked;
    ApplyKeepsIds(w.db, w.pending[id].write);
    hide RunFrom, IdsFresh, Apply;
    RevokedForEver(w', c, steps, bearer, now);
  }

  // ── Spending twice ───────────────────────────────────────────────────

  datatype Ticket = ResetToken(reset: Id) | Code(factor: Id)

  /** The one-time secret that a write spends. */
  function Spends(w: Write): Option<Ticket> {
    match w
    case UseReset(r, _) => Some(ResetToken(r))
    case Accept(_, code) => if code.Some? then Some(Code(code.value)) else None
    case _ => None
  }

  predicate Spent(db: Db, t: Ticket) {
    match t
    case ResetToken(r) => r in db.resets && db.resets[r].used
    case Code(f) => f in db.factors && db.factors[f].revoked
  }

  predicate Exists(db: Db, t: Ticket) {
    match t
    case ResetToken(r) => r in db.resets && db.resets[r].user in db.users
    case Code(f) => f in db.factors
  }

  /** What the checks let through was not spent. */
  lemma PlannedIsUnspent(db: Db, c: Config, req: Request, now: Time)
    requires Handle(db, c, req, now).Ok? && Spends(Planned(db, c, req, now)).Some?
    ensures var t := Spends(Planned(db, c, req, now)).value; Exists(db, t) && !Spent(db, t)
  {
    hide HasEmail, OtherOwners, Accepts, IsScan;
    if req.TotpVerify? {
      var s := Resolve(db, c, req.bearer, now).value;
      AcceptedIs(db, c, db.sessions[s].user, req.code, req.scanned, now);
    }
  }

  lemma ApplySpends(db: Db, w: Write)
    requires Spends(w).Some? && Exists(db, Spends(w).value)
    ensures Spent(Apply(db, w), Spends(w).value)
  {
  }

  lemma SpentStays(db: Db, db': Db, t: Ticket)
    requires Grows(db, db')
    ensures Spent(db, t) ==> Spent(db', t)
    ensures Exists(db, t) ==> Exists(db', t)
  {
  }

  ghost predicate SpentSince(log: seq<Write>, t: Ticket, at: nat) {
    exists n :: at <= n < |log| && Spends(log[n]) == Some(t)
  }

  /** What was spent shows in the tables; what is pending was not spent when it was checked. */
  ghost predicate TicketInv(w: World) {
    && (forall t :: SpentSince(w.log, t, 0) ==> Spent(w.db, t))
    && (forall id :: id in w.pending ==> PendingInv(w.db, w.log, w.pending[id]))
  }

  ghost predicate PendingInv(db: Db, log: seq<Write>, p: Pending) {
    p.at <= |log|
    && (Spends(p.write).Some? ==>
          Exists(db, Spends(p.write).value)
          && (SpentSince(log, Spends(p.write).value, 0) ==> SpentSince(log, Spends(p.write).value, p.at)))
  }

  lemma SinceMore(log: seq<Write>, write: Write, t: Ticket, at: nat)
    requires at <= |log|
    ensures SpentSince(log + [write], t, at) <==> SpentSince(log, t, at) || Spends(write) == Some(t)
  {
    if Spends(write) == Some(t) { assert (log + [write])[|log|] == write; }
    if n :| at <= n < |log| && Spends(log[n]) == Some(t) { assert (log + [write])[n] == log[n]; }
  }

  lemma CheckKeepsTickets(w: World, c: Config, step: Step)
    requires TicketInv(w) && step.Check? && Advance(w, c, step).Some?
    ensures TicketInv(Advance(w, c, step).value)
  {
    var write := Planned(w.db, c, step.req, step.now);
    if Spends(write).Some? { PlannedIsUnspent(w.db, c, step.req, step.now); }
    hide Handle, Planned, Spends, Spent, Exists;
    assert PendingInv(w.db, w.log, Pending(write, |w.log|));
    hide PendingInv, SpentSince;
  }

  lemma PendingStays(db: Db, log: seq<Write>, write: Write, p: Pending)
    requires PendingInv(db, log, p) && Grows(db, Apply(db, write))
    ensures PendingInv(Apply(db, write), log + [write], p)
  {
    if Spends(p.write).Some? {
      SpentStays(db, Apply(db, write), Spends(p.write).value);
      SinceMore(log, write, Spends(p.write).value, 0);
      SinceMore(log, write, Spends(p.write).value, p.at);
    }
    hide Apply, Spends, Grows, SpentSince, Exists;
  }

  lemma FinishKeepsTickets(w: World, c: Config, step: Step)
    requires IdsFresh(w.db) && TicketInv(w) && step.Finish? && Advance(w, c, step).Some?
    ensures TicketInv(Advance(w, c, step).value)
  {
    var w', write := Advance(w, c, step).value, w.pending[step.id].write;
    ApplyGrows(w.db, write);
    assert PendingInv(w.db, w.log, w.pending[step.id]);
    if Spends(write).Some? { ApplySpends(w.db, write); }
    hide Apply, Grows, Spends, Exists, Spent, IdsFresh;
    forall t | SpentSince(w'.log, t, 0) ensures Spent(w'.db, t) {
      SinceMore(w.log, write, t, 0);
      SpentStays(w.db, w'.db, t);
    }
    forall id | id in w'.pending ensures PendingInv(w'.db, w'.log, w'.pending[id]) {
      PendingStays(w.db, w.log, write, w.pending[id]);
    }
    hide SpentSince, PendingInv;
  }

  lemma {:induction false} RunKeepsTickets(c: Config, steps: seq<Step>)
    requires RunFrom(World(EMPTY, map[], []), c, steps).Some?
    ensures var w := RunFrom(World(EMPTY, map[], []), c, steps).value; IdsFresh(w.db) && TicketInv(w)
  {
    if steps != [] {
      hide TicketInv, IdsFresh, Advance;
      var front, last := steps[..|steps| - 1], steps[|steps| - 1];
      RunKeepsTickets(c, front);
      assert IdsFresh(EMPTY) by { EmptyIsFresh(); }
      RunGrows(World(EMPTY, map[], []), c, steps);
      var mid := RunFrom(World(EMPTY, map[], []), c, front).value;
      if last.Check? { CheckKeepsTickets(mid, c, last); } else { FinishKeepsTickets(mid, c, last); }
    }
  }

  lemma EmptyIsFresh()
    ensures IdsFresh(EMPTY)
  {
  }

  /**
    In every run from the empty tables, a request that is about to commit spends a token or
    code that was spent before if and only if another request has spent it since the first was checked.
   */
  lemma SpentTwiceIffOverlapped(c: Config, steps: seq<Step>, id: Id)
    requires RunFrom(World(EMPTY, map[], []), c, steps).Some?
    requires id in RunFrom(World(EMPTY, map[], []), c, steps).value.pending
    ensures var w := RunFrom(World(EMPTY, map[], []), c, steps).value;
            var p := w.pending[id];
            Spends(p.write).Some? ==>
              (SpentSince(w.log, Spends(p.write).value, 0) <==> SpentSince(w.log, Spends(p.write).value, p.at))
  {
    RunKeepsTickets(c, steps);
    var w := RunFrom(World(EMPTY, map[], []), c, steps).value;
    assert PendingInv(w.db, w.log, w.pending[id]);
  }

  // ── Two redemptions that overlap ─────────────────────────────────────

  const ANY := Config((a: string, b: string) => true, (a: string, b: string, now: Time) => true, (a: string) => true, 10, 10)
  const START := World(EMPTY, map[], [])
  const REDEEM := ConfirmReset(Some(Token(1, "secret")), "password", "hash")
  const ISSUED := Db(map[0 := User(1, "ann", Viewer, None, false, false, false)], map[], map[],
                     map[1 := Reset(0, "token", 10, false)], 2)

  ghost predicate Reachable(w: World) { exists steps :: RunFrom(START, ANY, steps) == Some(w) }

  lemma ReachNext(w: World, step: Step)
    requires Reachable(w) && Advance(w, ANY, step).Some?
    ensures Reachable(Advance(w, ANY, step).value)
  {
    hide Advance;
    var steps :| RunFrom(START, ANY, steps) == Some(w);
    assert (steps + [step])[..|steps|] == steps;
    assert RunFrom(START, ANY, steps + [step]) == Some(Advance(w, ANY, step).value);
  }

  /** One request on its own. */
  lemma ReachOne(w: World, id: Id, req: Request)
    requires Reachable(w) && id !in w.pending && Handle(w.db, ANY, req, 0).Ok?
    ensures Reachable(World(Apply(w.db, Planned(w.db, ANY, req, 0)), w.pending, w.log + [Planned(w.db, ANY, req, 0)]))
  {
    hide Handle, Planned, Apply;
    ReachNext(w, Check(id, req, 0));
    var mid := Advance(w, ANY, Check(id, req, 0)).value;
    ReachNext(mid, Finish(id));
    assert mid.pending - {id} == w.pending;
  }

  lemma IssuedReached() returns (log: seq<Write>)
    ensures Reachable(World(ISSUED, map[], log))
  {
    assert RunFrom(START, ANY, []) == Some(START);
    assert Reachable(START);
    var create := CreateUser(1, "ann", Viewer, LiveTenant);
    ReachOne(START, 0, create);
    var db := Apply(EMPTY, Planned(EMPTY, ANY, create, 0));
    assert db == EMPTY.(users := ISSUED.users, nextId := 1);
    var issue := IssueReset(1, 0, "token");
    log := [Planned(EMPTY, ANY, create, 0)];
    assert START.log + log == log;
    ReachOne(World(db, map[], log), 0, issue);
    log := log + [Planned(db, ANY, issue, 0)];
    assert Apply(db, Planned(db, ANY, issue, 0)).resets == ISSUED.resets;
  }

  /** Both requests are checked before either writes, and both redeem the one token. */
  lemma OverlapSpendsTwice()
    ensures exists w, n, m :: Reachable(w) && 0 <= n < m < |w.log| && Spends(w.log[n]) == Spends(w.log[m]) == Some(ResetToken(1))
  {
    var log := IssuedReached();
    var write := UseReset(1, "hash");
    assert Handle(ISSUED, ANY, REDEEM, 0).Ok? && Planned(ISSUED, ANY, REDEEM, 0) == write;
    hide Handle, Planned, Apply, Reachable;
    var w0 := World(ISSUED, map[], log);
    ReachNext(w0, Check(1, REDEEM, 0));
    var w1 := Advance(w0, ANY, Check(1, REDEEM, 0)).value;
    ReachNext(w1, Check(2, REDEEM, 0));
    var w2 := Advance(w1, ANY, Check(2, REDEEM, 0)).value;
    ReachNext(w2, Finish(1));
    var w3 := Advance(w2, ANY, Finish(1)).value;
    ReachNext(w3, Finish(2));
    var w4 := Advance(w3, ANY, Finish(2)).value;
    assert w4.log[|log|] == write && w4.log[|log| + 1] == write;
  }

}
