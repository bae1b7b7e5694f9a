/**
  The handlers of policies.py and bundles.py, each taken as one atomic step: the checks, then
  the write transaction. What they keep that the bare transactions do not is the freeze of
  published policies.
 */
module PolicyHandlers {
  import opened Common
  import opened Text
  import opened RegoGenerator
  import opened PolicyStore
  import opened PolicyProofs
  import opened BundleBuilder
  import Semver
  import PolicyRuns

  datatype Request =
    | UploadPolicy(name: string, bucket: string, raw: string, text: string)
    | ForkStandard(name: string, bucket: string, ref: string, system: string, text: string)
    | ExtractIr(policy: Id, ir: string)
    | GenerateRego(policy: Id, gens: seq<GeneratedRego>)
    | EditTarget(policy: Id, target: Id, text: string, opaOk: bool)
    | ApproveTarget(policy: Id, target: Id)
    | RejectTarget(policy: Id, target: Id, reason: string)
    | PublishPolicy(policy: Id)
    | RepublishPolicy(policy: Id, newVersion: Option<string>)
    | BuildBundle(rows: seq<BuildRow>, sha: Digest)

  /** _fetch_policy_for_target_action: the policy is the tenant's and is not published. */
  function TargetActionError(db: Db, policy: Id, tenant: Id): Option<Error> {
    if !PolicyVisible(db, policy, tenant) then Some(NotFound)
    else if db.policies[policy].status == Published then Some(Conflict)
    else None
  }

  function NewVersion(requested: Option<string>, parentVersion: string): Option<string> {
    if requested.Some? && requested.value != "" then Some(Strip(requested.value))
    else Semver.BumpPatch(parentVersion)
  }

  predicate VersionTaken(db: Db, tenant: Id, name: string, version: string) {
    exists p :: p in db.policies && db.policies[p].tenant == tenant
                && db.policies[p].name == name && db.policies[p].version == version
  }

  ghost function Handle(db: Db, h: Hash, who: Caller, req: Request): Result<Db> {
    match req
    case UploadPolicy(name, bucket, raw, text) =>
      if raw == "" then Err(BadRequest) else Ok(WriteUpload(db, h, who, name, bucket, raw, text))
    case ForkStandard(name, bucket, ref, system, text) =>
      Ok(WriteFork(db, h, who, name, bucket, ref, system, text))
    case ExtractIr(policy, ir) =>
      if !PolicyVisible(db, policy, who.tenant) then Err(NotFound)
      else
        var row := db.policies[policy];
        if row.source != ProseUpload || row.sourceKey.None? || !row.sourceKey.value.PgUpload? then Err(Conflict)
        else if row.sourceKey.value.id !in db.artifacts then Err(ServerError)
        // trg_customer_policies_published_immutable refuses to change a published policy's IR.
        else if row.status == Published && row.ir != Some(ir) then Err(ServerError)
        else Ok(WriteIr(db, who, policy, ir))
    case GenerateRego(policy, gens) =>
      if !PolicyVisible(db, policy, who.tenant) then Err(NotFound)
      else if db.policies[policy].ir.None? then Err(Conflict)
      else Ok(WriteGenerate(db, h, who, policy, gens))
    case EditTarget(policy, target, text, opaOk) =>
      var e := TargetActionError(db, policy, who.tenant);
      if e.Some? then Err(e.value)
      else if !TargetVisible(db, policy, target, who.tenant) then Err(NotFound)
      else if !opaOk then Err(Unprocessable)
      else Ok(WriteEdit(db, h, who, policy, target, db.targets[target], text))
    case ApproveTarget(policy, target) =>
      var e := TargetActionError(db, policy, who.tenant);
      if e.Some? then Err(e.value) else WriteApprove(db, who, policy, target)
    case RejectTarget(policy, target, reason) =>
      if Strip(reason) == "" then Err(BadRequest)
      else
        var e := TargetActionError(db, policy, who.tenant);
        if e.Some? then Err(e.value) else WriteReject(db, who, policy, target)
    case PublishPolicy(policy) =>
      if !PolicyVisible(db, policy, who.tenant) then Err(NotFound)
      else if db.policies[policy].status == Published then Err(Conflict)
      else if |ApprovedTargets(db, policy)| == 0 then Err(Conflict)
      else Ok(WritePublish(db, who, policy))
    case RepublishPolicy(policy, requested) =>
      if !PolicyVisible(db, policy, who.tenant) then Err(NotFound)
      else if db.policies[policy].status != Published then Err(Conflict)
      else
        var v := NewVersion(requested, db.policies[policy].version);
        if v.None? then Err(BadRequest)
        else if VersionTaken(db, who.tenant, db.policies[policy].name, v.value) then Err(Conflict)
        else Ok(WriteRepublish(db, who, policy, v.value))
    case BuildBundle(rows, sha) =>
      if !IsQueryResult(db, who.tenant, rows) then Err(ServerError)
      else Ok(WriteBundle(db, who, Assemble(db.artifacts, who.tenant, rows, sha, |db.audit|)))
  }

  datatype Call = Call(who: Caller, req: Request)

  /** A refused call changes nothing. */
  ghost function HandleAll(db: Db, h: Hash, calls: seq<Call>): Db {
    if calls == [] then db
    else
      var mid := HandleAll(db, h, calls[..|calls| - 1]);
      var r := Handle(mid, h, calls[|calls| - 1].who, calls[|calls| - 1].req);
      if r.Ok? then r.value else mid
  }

  /** The transaction that an accepted request opens. */
  function WriteOf(db: Db, req: Request): PolicyRuns.Write
    requires !req.BuildBundle?
    requires req.EditTarget? ==> req.target in db.targets
    requires req.RepublishPolicy? ==>
               req.policy in db.policies && NewVersion(req.newVersion, db.policies[req.policy].version).Some?
  {
    match req
    case UploadPolicy(n, b, raw, text) => PolicyRuns.Upload(n, b, raw, text)
    case ForkStandard(n, b, ref, s, text) => PolicyRuns.Fork(n, b, ref, s, text)
    case ExtractIr(p, ir) => PolicyRuns.ExtractIr(p, ir)
    case GenerateRego(p, gens) => PolicyRuns.Generate(p, gens)
    case EditTarget(p, t, text, _) => PolicyRuns.Edit(p, t, db.targets[t], text)
    case ApproveTarget(p, t) => PolicyRuns.Approve(p, t)
    case RejectTarget(p, t, _) => PolicyRuns.Reject(p, t)
    case PublishPolicy(p) => PolicyRuns.Publish(p)
    case RepublishPolicy(p, v) => PolicyRuns.Republish(p, NewVersion(v, db.policies[p].version).value)
  }

  /** An accepted handler call is one of the transactions that the interleaved runs are made of. */
  lemma HandlerIsGuardedWrite(db: Db, h: Hash, who: Caller, req: Request)
    requires IdsBounded(db) && !req.BuildBundle? && Handle(db, h, who, req).Ok?
    ensures req.EditTarget? ==> req.target in db.targets
    ensures req.RepublishPolicy? ==>
              req.policy in db.policies && NewVersion(req.newVersion, db.policies[req.policy].version).Some?
    ensures PolicyRuns.Commit(db, h, who, WriteOf(db, req)) == Some(Handle(db, h, who, req).value)
  {
    hide WriteUpload, WriteFork, WriteIr, WriteGenerate, WriteEdit, WritePublish, WriteRepublish, NewVersion;
    hide VersionTaken, ApprovedTargets;
  }

  /** An accepted build is a query and a finish with nothing in between. */
  lemma HandlerIsGuardedBuild(w: PolicyRuns.World, h: Hash, who: Caller, req: Request, build: Id)
    requires req.BuildBundle? && Handle(w.db, h, who, req).Ok? && build !in w.builds
    ensures var mid := PolicyRuns.Next(w, h, PolicyRuns.BeginBuild(build, who, req.rows));
            mid.Some? && PolicyRuns.Next(mid.value, h, PolicyRuns.FinishBuild(build, req.sha))
                         == Some(w.(db := Handle(w.db, h, who, req).value))
  {
    hide IsQueryResult, Assemble, WriteBundle;
    assert w.builds[build := PolicyRuns.Read(who, req.rows, |w.db.audit|)] - {build} == w.builds;
  }

  lemma HandleKeepsSound(db: Db, h: Hash, who: Caller, req: Request)
    requires Sound(db, h) && Handle(db, h, who, req).Ok?
    ensures Sound(Handle(db, h, who, req).value, h)
  {
    SoundHasIds(db, h);
    if req.BuildBundle? {
      PolicyRuns.StampKeeps(db, h, who, Assemble(db.artifacts, who.tenant, req.rows, req.sha, |db.audit|));
    } else {
      hide Sound, Handle;
      HandlerIsGuardedWrite(db, h, who, req);
      PolicyRuns.CommitKeepsSound(db, h, who, WriteOf(db, req));
    }
  }

  lemma SoundHasIds(db: Db, h: Hash)
    requires Sound(db, h)
    ensures IdsBounded(db)
  {
  }

  // ── The freeze ───────────────────────────────────────────────────────

  ghost predicate IsPublished(db: Db, p: Id) {
    p in db.policies && db.policies[p].status == Published
  }

  predicate Owns(db: Db, p: Id, t: Id) {
    t in db.targets && db.targets[t].policy == p
  }

  /** Policy p and its targets are the same in both tables, except for the stamps of bundles. */
  ghost predicate Unchanged(db: Db, db': Db, p: Id)
    requires p in db.policies
  {
    && p in db'.policies && db'.policies[p] == db.policies[p]
    && (forall t :: Owns(db, p, t) <==> Owns(db', p, t))
    && (forall t :: Owns(db, p, t) && Owns(db', p, t) ==>
          db'.targets[t].(bundleSha := None) == db.targets[t].(bundleSha := None))
  }

  predicate Regenerates(req: Request, p: Id) {
    req.GenerateRego? && req.policy == p && req.gens != []
  }

  ghost predicate TargetsBelow(db: Db) { forall t :: t in db.targets ==> t < db.nextId }

  lemma GenerateOneElsewhere(db: Db, mid: Db, h: Hash, tenant: Id, policy: Id, g: GeneratedRego, p: Id)
    requires p in db.policies && p != policy && Unchanged(db, mid, p)
    requires TargetsBelow(db) && TargetsBelow(mid) && db.nextId <= mid.nextId
    ensures Unchanged(db, GenerateOne(mid, h, tenant, policy, g), p)
    ensures TargetsBelow(GenerateOne(mid, h, tenant, policy, g)) && mid.nextId <= GenerateOne(mid, h, tenant, policy, g).nextId
  {
    hide TargetKey;
  }

  lemma {:induction false} GenerateElsewhere(
      db: Db, h: Hash, tenant: Id, policy: Id, gens: seq<GeneratedRego>, p: Id)
    requires IdsBounded(db) && p in db.policies && (p != policy || gens == [])
    ensures Unchanged(db, GenerateAll(db, h, tenant, policy, gens), p)
    ensures GenerateAll(db, h, tenant, policy, gens).nextId >= db.nextId
    ensures TargetsBelow(GenerateAll(db, h, tenant, policy, gens))
  {
    assert TargetsBelow(db);
    if gens != [] {
      hide IdsBounded, GenerateOne, Unchanged, TargetsBelow;
      GenerateElsewhere(db, h, tenant, policy, gens[..|gens| - 1], p);
      GenerateOneElsewhere(db, GenerateAll(db, h, tenant, policy, gens[..|gens| - 1]), h, tenant, policy, gens[|gens| - 1], p);
    }
  }

  /** A nonempty generation gives the policy a target that it did not have. */
  lemma GenerateChanges(db: Db, h: Hash, tenant: Id, policy: Id, gens: seq<GeneratedRego>)
    requires IdsBounded(db) && policy in db.policies && gens != []
    ensures !Unchanged(db, GenerateAll(db, h, tenant, policy, gens), policy)
  {
    var front := GenerateAll(db, h, tenant, policy, gens[..|gens| - 1]);
    PolicyRuns.GenerateExtends(db, h, tenant, policy, gens[..|gens| - 1]);
    var db' := GenerateAll(db, h, tenant, policy, gens);
    assert Owns(db', policy, front.nextId + 1);
    assert !Owns(db, policy, front.nextId + 1);
  }

  lemma RepublishLeaves(db: Db, who: Caller, parent: Id, v: string, p: Id)
    requires IdsBounded(db) && parent in db.policies && p in db.policies
    ensures Unchanged(db, WriteRepublish(db, who, parent, v), p)
  {
    hide CopiedTargets;
    var child, base := db.nextId, db.nextId + 1;
    forall n | n in CopiedTargets(db, parent, child, base)
      ensures n >= base && CopiedTargets(db, parent, child, base)[n].policy == child
    {
      CopiesAreFresh(db, parent, child, base, n);
    }
  }

  lemma NewPoliciesLeave(db: Db, h: Hash, who: Caller, req: Request, p: Id)
    requires IdsBounded(db) && IsPublished(db, p) && Handle(db, h, who, req).Ok?
    requires req.UploadPolicy? || req.ForkStandard?
    ensures Unchanged(db, Handle(db, h, who, req).value, p)
  {
  }

  lemma ReviewsLeave(db: Db, h: Hash, who: Caller, req: Request, p: Id)
    requires IsPublished(db, p) && Handle(db, h, who, req).Ok?
    requires req.EditTarget? || req.ApproveTarget? || req.RejectTarget? || req.ExtractIr? || req.PublishPolicy?
    ensures Unchanged(db, Handle(db, h, who, req).value, p)
  {
    hide ApprovedTargets;
  }

  lemma BuildsLeave(db: Db, h: Hash, who: Caller, req: Request, p: Id)
    requires IsPublished(db, p) && Handle(db, h, who, req).Ok? && req.BuildBundle?
    ensures Unchanged(db, Handle(db, h, who, req).value, p)
  {
    hide IsQueryResult, Assemble, Stampable;
  }

  /**
    An accepted call leaves a published policy and its targets as they are, if and only if it
    is not a generate call on that very policy that generates something.
   */
  lemma PublishedIsFrozen(db: Db, h: Hash, who: Caller, req: Request, p: Id)
    requires IdsBounded(db) && IsPublished(db, p) && Handle(db, h, who, req).Ok?
    ensures Unchanged(db, Handle(db, h, who, req).value, p) <==> !Regenerates(req, p)
  {
    if req.UploadPolicy? || req.ForkStandard? {
      NewPoliciesLeave(db, h, who, req, p);
    } else if req.GenerateRego? {
      GenerateLeavesUnless(db, h, who, req, p);
    } else if req.RepublishPolicy? {
      hide Unchanged, IsPublished, NewVersion;
      RepublishLeaves(db, who, req.policy, NewVersion(req.newVersion, db.policies[req.policy].version).value, p);
    } else if req.BuildBundle? {
      BuildsLeave(db, h, who, req, p);
    } else {
      ReviewsLeave(db, h, who, req, p);
    }
  }

  lemma GenerateLeavesUnless(db: Db, h: Hash, who: Caller, req: Request, p: Id)
    requires IdsBounded(db) && IsPublished(db, p) && Handle(db, h, who, req).Ok? && req.GenerateRego?
    ensures Unchanged(db, Handle(db, h, who, req).value, p) <==> !Regenerates(req, p)
  {
    hide GenerateAll;
    if Regenerates(req, p) {
      GenerateChanges(db, h, who.tenant, req.policy, req.gens);
    } else {
      GenerateElsewhere(db, h, who.tenant, req.policy, req.gens, p);
    }
  }

  /** Over any run of handlers a published policy stays as it is, unless the run regenerates it. */
  lemma {:induction false} PublishedStaysFrozen(db: Db, h: Hash, calls: seq<Call>, p: Id)
    requires Sound(db, h) && IsPublished(db, p)
    requires forall k :: 0 <= k < |calls| ==> !Regenerates(calls[k].req, p)
    ensures Sound(HandleAll(db, h, calls), h)
    ensures Unchanged(db, HandleAll(db, h, calls), p)
  {
    if calls != [] {
      hide Sound, Handle;
      var front, last := calls[..|calls| - 1], calls[|calls| - 1];
      PublishedStaysFrozen(db, h, front, p);
      var mid := HandleAll(db, h, front);
      if Handle(mid, h, last.who, last.req).Ok? {
        SoundHasIds(mid, h);
        PublishedIsFrozen(mid, h, last.who, last.req, p);
        HandleKeepsSound(mid, h, last.who, last.req);
      }
    }
  }

  /**
    The handlers check the status outside the write transaction. If a publish commits between
    the check and the write of an edit, the published policy changes.
   */
  lemma LateEditThaws(db: Db, h: Hash, who: Caller, policy: Id, target: Id, text: string)
    requires Sound(db, h)
    requires Handle(db, h, who, EditTarget(policy, target, text, true)).Ok?
    requires Handle(db, h, who, PublishPolicy(policy)).Ok?
    ensures var published := Handle(db, h, who, PublishPolicy(policy)).value;
            var late := PolicyRuns.Commit(published, h, who,
                                          PolicyRuns.Edit(policy, target, db.targets[target], text));
            IsPublished(published, policy) && late.Some? && !Unchanged(published, late.value, policy)
  {
    var published := Handle(db, h, who, PublishPolicy(policy)).value;
    assert Owns(published, policy, target);
    assert Resolves(db.artifacts, h, db.targets[target]);
  }

}
