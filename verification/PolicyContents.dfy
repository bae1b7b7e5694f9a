/**
  What the handlers put into the tables, followed to where it comes out: the text of an edit to
  the bundle's file, a republished target to its parent's, every write to its own tenant.
 */
module PolicyContents {
  import opened Common
  import opened Text
  import opened PolicyStore
  import opened PolicyProofs
  import opened BundleBuilder
  import opened PolicyHandlers
  import PolicyRuns
  import RegoGenerator
  import Semver

  /** The target's storage key leads to the text. */
  ghost predicate TextAt(db: Db, t: Id, text: string) {
    && t in db.targets && db.targets[t].key.PgRego? && db.targets[t].key.id in db.artifacts
    && db.artifacts[db.targets[t].key.id].text == text
  }

  /** The request appended one row to the audit log, in the caller's name. */
  ghost predicate Audited(db: Db, db': Db, who: Caller, policy: Option<Id>, action: Action) {
    db'.audit == db.audit + [AuditRow(who.user, who.tenant, policy, action)]
  }

  // ── What goes in ─────────────────────────────────────────────────────

  /** An accepted edit stores the text that was sent, under its own hash, for a new review. */
  lemma EditStores(db: Db, h: Hash, who: Caller, p: Id, t: Id, text: string, opaOk: bool)
    requires Handle(db, h, who, EditTarget(p, t, text, opaOk)).Ok?
    ensures opaOk && t in db.targets && db.targets[t].policy == p
    ensures var db' := Handle(db, h, who, EditTarget(p, t, text, opaOk)).value;
            && TextAt(db', t, text) && db'.targets[t].sha == h(text) && db'.targets[t].review == Pending
            && db'.artifacts[db'.targets[t].key.id].sha == h(text) && db'.artifacts[db'.targets[t].key.id].tenant == who.tenant
            && db'.targets[t] == db.targets[t].(key := db'.targets[t].key, sha := h(text), review := Pending)
            && db'.targets.Keys == db.targets.Keys && (forall u :: u in db.targets && u != t ==> db'.targets[u] == db.targets[u])
            && Audited(db, db', who, Some(p), TargetEdited(t, db.targets[t].review, db.targets[t].sha, h(text)))
  {
  }

  /** An accepted fork makes a draft with exactly one target, which holds the forked text. */
  lemma ForkStores(db: Db, h: Hash, who: Caller, name: string, bucket: string, ref: string, system: string, text: string)
    requires IdsBounded(db)
    ensures Handle(db, h, who, ForkStandard(name, bucket, ref, system, text)).Ok?
    ensures var db' := Handle(db, h, who, ForkStandard(name, bucket, ref, system, text)).value;
            exists p, t :: && p !in db.policies && t !in db.targets && p in db'.policies && TextAt(db', t, text)
                           && (forall u :: Owns(db', p, u) <==> u == t)
                           && ForkedPolicy(db'.policies[p], who, name, bucket, ref)
                           && db'.targets[t].system == system && db'.targets[t].subtype.None?
                           && db'.targets[t].sha == h(text) && db'.targets[t].review == Pending
                           && Audited(db, db', who, Some(p), Forked(h(text), system))
  {
    hide MentionsBounded;
    var db' := Handle(db, h, who, ForkStandard(name, bucket, ref, system, text)).value;
    assert TextAt(db', db.nextId + 2, text);
    assert db.nextId in db'.policies && db.nextId !in db.policies;
  }

  predicate ForkedPolicy(p: Policy, who: Caller, name: string, bucket: string, ref: string) {
    p.tenant == who.tenant && p.createdBy == who.user && p.name == name && p.bucket == bucket && p.parentRef == Some(ref)
    && p.source == ForkedOverlay && p.status == Draft && p.publishedBy.None? && p.ir.None?
  }

  predicate UploadedPolicy(p: Policy, who: Caller, name: string, bucket: string, upload: Id) {
    p.tenant == who.tenant && p.createdBy == who.user && p.name == name && p.bucket == bucket
    && p.source == ProseUpload && p.sourceKey == Some(PgUpload(upload))
    && p.status == Draft && p.publishedBy.None? && p.ir.None?
  }

  /** An accepted upload stores the extracted text under the hash of the raw bytes, in a draft without targets. */
  lemma UploadStores(db: Db, h: Hash, who: Caller, name: string, bucket: string, raw: string, text: string)
    requires IdsBounded(db)
    ensures Handle(db, h, who, UploadPolicy(name, bucket, raw, text)).Ok? <==> raw != ""
    ensures raw != "" ==>
              var db' := Handle(db, h, who, UploadPolicy(name, bucket, raw, text)).value;
              exists p, a :: && p !in db.policies && p in db'.policies && a !in db.artifacts && a in db'.artifacts
                             && db'.artifacts[a] == Artifact(who.tenant, text, h(raw))
                             && UploadedPolicy(db'.policies[p], who, name, bucket, a)
                             && db'.targets == db.targets && (forall u :: !Owns(db', p, u))
                             && Audited(db, db', who, Some(p), Uploaded(a))
  {
    hide MentionsBounded;
    if raw != "" {
      var db' := Handle(db, h, who, UploadPolicy(name, bucket, raw, text)).value;
      assert db.nextId + 1 !in db.policies && db.nextId + 1 in db'.policies;
      assert db.nextId !in db.artifacts && db.nextId in db'.artifacts;
    }
  }

  /** An IR is stored for a visible prose upload whose bytes exist, unless that would change a published policy. */
  lemma ExtractStoresIff(db: Db, h: Hash, who: Caller, p: Id, ir: string)
    ensures Handle(db, h, who, ExtractIr(p, ir)).Ok? <==>
            && p in db.policies && db.policies[p].tenant == who.tenant && db.policies[p].source == ProseUpload
            && (exists a :: db.policies[p].sourceKey == Some(PgUpload(a)) && a in db.artifacts)
            && (db.policies[p].status == Published ==> db.policies[p].ir == Some(ir))
    ensures Handle(db, h, who, ExtractIr(p, ir)).Ok? ==>
              var db' := Handle(db, h, who, ExtractIr(p, ir)).value;
              db'.policies == db.policies[p := db.policies[p].(ir := Some(ir))] && db'.targets == db.targets
              && Audited(db, db', who, Some(p), IrExtracted)
  {
  }

  /** A review is recorded for a target of a visible, unpublished policy; a rejection needs a reason that is not blank. */
  lemma ReviewIff(db: Db, h: Hash, who: Caller, p: Id, t: Id, reason: string)
    ensures var open := p in db.policies && db.policies[p].tenant == who.tenant && db.policies[p].status != Published
                        && t in db.targets && db.targets[t].policy == p;
            && (Handle(db, h, who, ApproveTarget(p, t)).Ok? <==> open)
            && (Handle(db, h, who, RejectTarget(p, t, reason)).Ok? <==>
                  open && exists i :: 0 <= i < |reason| && !IsSpace(reason[i]))
    ensures Handle(db, h, who, ApproveTarget(p, t)).Ok? ==>
              var db' := Handle(db, h, who, ApproveTarget(p, t)).value;
              db'.targets == db.targets[t := db.targets[t].(review := Approved)]
              && Audited(db, db', who, Some(p), TargetApproved(t, db.targets[t].sha))
    ensures Handle(db, h, who, RejectTarget(p, t, reason)).Ok? ==>
              var db' := Handle(db, h, who, RejectTarget(p, t, reason)).value;
              db'.targets == db.targets[t := db.targets[t].(review := Rejected)]
              && Audited(db, db', who, Some(p), TargetRejected(t, db.targets[t].sha))
  {
    BlankIff(reason);
    hide Strip;
  }

  lemma BlankIff(s: string)
    ensures Strip(s) == "" <==> forall i :: 0 <= i < |s| ==> IsSpace(s[i])
  {
    StripLeftKeeps(s);
    var r := StripLeft(s);
    hide IsSpace;
    if r != "" {
      StripRightKeeps(r);
    }
  }

  lemma {:induction false} StripLeftKeeps(s: string)
    ensures StripLeft(s) == "" <==> forall i :: 0 <= i < |s| ==> IsSpace(s[i])
    ensures forall i :: 0 <= i < |StripLeft(s)| ==> exists j :: 0 <= j < |s| && s[j] == StripLeft(s)[i]
  {
    hide IsSpace;
    if s != "" && IsSpace(s[0]) {
      StripLeftKeeps(s[1..]);
      assert forall i :: 1 <= i < |s| ==> s[i] == s[1..][i - 1];
      forall i | 0 <= i < |StripLeft(s)| ensures exists j :: 0 <= j < |s| && s[j] == StripLeft(s)[i] {
        var j :| 0 <= j < |s[1..]| && s[1..][j] == StripLeft(s[1..])[i];
        assert s[j + 1] == StripLeft(s)[i];
      }
    }
  }

  lemma {:induction false} StripRightKeeps(s: string)
    requires s != "" && !IsSpace(s[0])
    ensures StripRight(s) != ""
  {
    hide IsSpace;
    if IsSpace(s[|s| - 1]) {
      StripRightKeeps(s[..|s| - 1]);
    }
  }

  /** A generate call needs a visible policy with an IR, and nothing else; an edit a target of a visible, unpublished one and a passed check. */
  lemma GenerateAndEditIff(db: Db, h: Hash, who: Caller, p: Id, gens: seq<RegoGenerator.GeneratedRego>, t: Id, text: string, opaOk: bool)
    ensures Handle(db, h, who, GenerateRego(p, gens)).Ok? <==>
            p in db.policies && db.policies[p].tenant == who.tenant && db.policies[p].ir.Some?
    ensures Handle(db, h, who, EditTarget(p, t, text, opaOk)).Ok? <==>
            && p in db.policies && db.policies[p].tenant == who.tenant && db.policies[p].status != Published
            && t in db.targets && db.targets[t].policy == p && opaOk
  {
    hide WriteGenerate, WriteEdit;
  }

  /** A publish goes through exactly for a visible, unpublished policy with an approved target, and changes its status alone. */
  lemma PublishIff(db: Db, h: Hash, who: Caller, p: Id)
    ensures Handle(db, h, who, PublishPolicy(p)).Ok? <==>
            && p in db.policies && db.policies[p].tenant == who.tenant && db.policies[p].status != Published
            && exists t :: Owns(db, p, t) && db.targets[t].review == Approved
    ensures Handle(db, h, who, PublishPolicy(p)).Ok? ==>
              var db' := Handle(db, h, who, PublishPolicy(p)).value;
              db'.policies == db.policies[p := db.policies[p].(status := Published, publishedBy := Some(who.user))]
              && db'.targets == db.targets
              && Audited(db, db', who, Some(p), PolicyPublished(
                   |set t | t in db.targets && db.targets[t].policy == p && db.targets[t].review == Approved|,
                   db.policies[p].version))
  {
    assert ApprovedTargets(db, p) == set t | t in db.targets && db.targets[t].policy == p && db.targets[t].review == Approved;
    var approved := ApprovedTargets(db, p);
    if t :| Owns(db, p, t) && db.targets[t].review == Approved {
      assert t in approved;
    }
    if approved != {} {
      var t :| t in approved;
      assert Owns(db, p, t);
    }
  }

  /** A republish under a given version goes through exactly if that version, stripped, is not taken. */
  lemma NamedRepublishIff(db: Db, h: Hash, who: Caller, p: Id, version: string)
    requires IdsBounded(db) && version != ""
    ensures Handle(db, h, who, RepublishPolicy(p, Some(version))).Ok? <==>
            && p in db.policies && db.policies[p].tenant == who.tenant && db.policies[p].status == Published
            && !exists q :: && q in db.policies && db.policies[q].tenant == who.tenant
                            && db.policies[q].name == db.policies[p].name && db.policies[q].version == Strip(version)
    ensures Handle(db, h, who, RepublishPolicy(p, Some(version))).Ok? ==>
              var db' := Handle(db, h, who, RepublishPolicy(p, Some(version))).value;
              db'.nextId > db.nextId && db.nextId in db'.policies && db'.policies[db.nextId].version == Strip(version)
  {
    hide CopiedTargets, TargetsOf, MentionsBounded, Strip;
  }

  /** An empty version counts as none. */
  lemma EmptyVersionIsNone(db: Db, h: Hash, who: Caller, p: Id)
    ensures Handle(db, h, who, RepublishPolicy(p, Some(""))) == Handle(db, h, who, RepublishPolicy(p, None))
  {
    hide WriteRepublish, VersionTaken;
  }

  /** Two targets that differ in their policy and bundle alone. */
  predicate SameTarget(a: Target, b: Target) {
    a.(policy := b.policy, bundleSha := b.bundleSha) == b
  }

  ghost predicate CopiesParent(db: Db, db': Db, p: Id, child: Id, t: Id) {
    && t !in db.targets && t in db'.targets && db'.targets[t].bundleSha.None?
    && t in db'.copies && Owns(db, p, db'.copies[t].source)
    && SameTarget(db'.targets[t], db.targets[db'.copies[t].source])
  }

  ghost predicate Copied(db': Db, child: Id, s: Id) {
    exists t :: Owns(db', child, t) && t in db'.copies && db'.copies[t].source == s
  }

  lemma CopyOfTarget(db: Db, who: Caller, p: Id, v: string, t: Id)
    requires IdsBounded(db) && p in db.policies && Owns(WriteRepublish(db, who, p, v), db.nextId, t)
    ensures CopiesParent(db, WriteRepublish(db, who, p, v), p, db.nextId, t)
  {
    hide TargetsOf, MentionsBounded, CopiedTargets;
    var child, base := db.nextId, db.nextId + 1;
    assert t in CopiedTargets(db, p, child, base);
    CopiesAreFresh(db, p, child, base, t);
    CopyKeepsKey(db, p, child, base, t);
  }

  lemma SourceIsCopied(db: Db, who: Caller, p: Id, v: string, s: Id)
    requires IdsBounded(db) && p in db.policies && Owns(db, p, s)
    ensures Copied(WriteRepublish(db, who, p, v), db.nextId, s)
  {
    hide TargetsOf, MentionsBounded;
    var base := db.nextId + 1;
    assert IsCopy(db, p, base, base + s) && base + s in CopiedTargets(db, p, db.nextId, base);
    hide CopiedTargets;
    CopiesAreFresh(db, p, db.nextId, base, base + s);
    assert Owns(WriteRepublish(db, who, p, v), db.nextId, base + s);
  }

  lemma RepublishedPolicy(db: Db, h: Hash, who: Caller, p: Id, requested: Option<string>) returns (v: string)
    requires IdsBounded(db) && Handle(db, h, who, RepublishPolicy(p, requested)).Ok?
    ensures p in db.policies && Handle(db, h, who, RepublishPolicy(p, requested)).value == WriteRepublish(db, who, p, v)
    ensures db.nextId !in db.policies && WriteRepublish(db, who, p, v).policies == db.policies[db.nextId :=
              db.policies[p].(version := v, status := Draft, publishedBy := None, createdBy := who.user)]
  {
    hide CopiedTargets, TargetsOf, MentionsBounded, NewVersion, VersionTaken;
    v := NewVersion(requested, db.policies[p].version).value;
  }

  /** The child has one copy of each of its parent's targets, unshipped, and no other; the rest of it is the parent's. */
  lemma RepublishCopiesAll(db: Db, h: Hash, who: Caller, p: Id, requested: Option<string>)
    requires IdsBounded(db) && Handle(db, h, who, RepublishPolicy(p, requested)).Ok?
    ensures var db' := Handle(db, h, who, RepublishPolicy(p, requested)).value;
            var child := db.nextId;
            && p in db.policies && child !in db.policies && child in db'.policies
            && db'.policies == db.policies[child := db.policies[p].(
                 version := db'.policies[child].version, status := Draft, publishedBy := None, createdBy := who.user)]
            && (forall t :: Owns(db', child, t) ==> CopiesParent(db, db', p, child, t))
            && (forall s :: Owns(db, p, s) ==> Copied(db', child, s))
  {
    var v := RepublishedPolicy(db, h, who, p, requested);
    hide *;
    var db' := Handle(db, h, who, RepublishPolicy(p, requested)).value;
    forall t | Owns(db', db.nextId, t) ensures CopiesParent(db, db', p, db.nextId, t) { CopyOfTarget(db, who, p, v, t); }
    forall s | Owns(db, p, s) ensures Copied(db', db.nextId, s) { SourceIsCopied(db, who, p, v, s); }
  }

  /** The audit row of a republish names the parent, both versions, and the number of targets copied. */
  lemma RepublishAudited(db: Db, h: Hash, who: Caller, p: Id, requested: Option<string>)
    requires IdsBounded(db) && Handle(db, h, who, RepublishPolicy(p, requested)).Ok?
    ensures var db' := Handle(db, h, who, RepublishPolicy(p, requested)).value;
            && db.nextId in db'.policies && p in db.policies
            && Audited(db, db', who, Some(db.nextId), RepublishedFrom(
                 p, db.policies[p].version, db'.policies[db.nextId].version,
                 |set t | t in db.targets && db.targets[t].policy == p|))
  {
    var v := RepublishedPolicy(db, h, who, p, requested);
    assert TargetsOf(db, p) == set t | t in db.targets && db.targets[t].policy == p;
    hide CopiedTargets, MentionsBounded, Handle;
  }

  /** An accepted build adds one bundle and one audit row with its hash, the number of files' targets and of exclusions. */
  lemma BuildRecorded(db: Db, h: Hash, who: Caller, rows: seq<BuildRow>, sha: Digest)
    requires Sound(db, h) && IsQueryResult(db, who.tenant, rows)
    ensures |rows| >= |Included(rows)| && Handle(db, h, who, BuildBundle(rows, sha)).Ok?
    ensures var db' := Handle(db, h, who, BuildBundle(rows, sha)).value;
            && |db'.bundles| == |db.bundles| + 1 && db'.bundles[..|db.bundles|] == db.bundles
            && var b := db'.bundles[|db.bundles|];
               && b.tenant == who.tenant && b.sha == sha && db'.policies == db.policies
               && Audited(db, db', who, None, BundleBuilt(sha, |b.targets|, |rows| - |Included(rows)|))
  {
    hide Sound, IsQueryResult, Included, Assemble, WriteBundle, Handle, Stampable;
    PolicyRuns.AtomicBuild(db, h, who, rows, sha, |db.audit|);
    BuildWrites(db, h, who, rows, sha);
  }

  lemma BuildWrites(db: Db, h: Hash, who: Caller, rows: seq<BuildRow>, sha: Digest)
    requires IsQueryResult(db, who.tenant, rows)
    ensures Handle(db, h, who, BuildBundle(rows, sha)).Ok?
    ensures var db' := Handle(db, h, who, BuildBundle(rows, sha)).value;
            var b := Assemble(db.artifacts, who.tenant, rows, sha, |db.audit|);
            && |b.targets| == |Included(rows)|
            && db'.bundles == db.bundles + [b] && b.tenant == who.tenant && b.sha == sha && db'.policies == db.policies
            && db'.audit == db.audit + [AuditRow(who.user, who.tenant, None, BundleBuilt(sha, b.targetCount, |b.excluded|))]
  {
    hide IsQueryResult, Included, Unapproved, Missing, Shipped, Files, PolicyIds, TargetIds, Stamp;
  }

  // ── Why requests are refused ─────────────────────────────────────────

  /** The policy that a request is about, if it is about one. */
  function About(req: Request): Option<Id> {
    match req
    case UploadPolicy(_, _, _, _) => None
    case ForkStandard(_, _, _, _, _) => None
    case ExtractIr(p, _) => Some(p)
    case GenerateRego(p, _) => Some(p)
    case EditTarget(p, _, _, _) => Some(p)
    case ApproveTarget(p, _) => Some(p)
    case RejectTarget(p, _, _) => Some(p)
    case PublishPolicy(p) => Some(p)
    case RepublishPolicy(p, _) => Some(p)
    case BuildBundle(_, _) => None
  }

  /** The error of each refusal: first what is wrong with the request alone, then with the policy, then with the target or the version. */
  lemma Refusals(db: Db, h: Hash, who: Caller, req: Request, p: Id)
    requires About(req) == Some(p) && Handle(db, h, who, req).Err?
    ensures var e := Handle(db, h, who, req).error;
            if req.RejectTarget? && Strip(req.reason) == "" then e == BadRequest
            else if !(p in db.policies && db.policies[p].tenant == who.tenant) then e == NotFound
            else if db.policies[p].status == Published && !req.ExtractIr? && !req.GenerateRego? && !req.RepublishPolicy? then e == Conflict
            else match req
              case ExtractIr(_, _) =>
                e == if db.policies[p].source == ProseUpload && exists a :: db.policies[p].sourceKey == Some(PgUpload(a))
                     then ServerError else Conflict
              case EditTarget(_, t, _, _) => e == if t in db.targets && db.targets[t].policy == p then Unprocessable else NotFound
              case ApproveTarget(_, _) => e == NotFound
              case RejectTarget(_, _, _) => e == NotFound
              case RepublishPolicy(_, v) =>
                e == if db.policies[p].status == Published && (v.None? || v.value == "")
                        && Semver.Parse(db.policies[p].version).None?
                     then BadRequest else Conflict
              case _ => e == Conflict // no IR to generate from, or nothing approved to publish
  {
    hide WriteEdit, WriteGenerate, WriteIr, WritePublish, WriteRepublish, VersionTaken, ApprovedTargets, Strip, Semver.Parse;
    if req.RepublishPolicy? && p in db.policies { Semver.BumpRaisesPatch(db.policies[p].version); }
  }

  // ── What comes out ───────────────────────────────────────────────────

  /** The target keeps its policy, its label and its text. */
  ghost predicate ContentKept(db: Db, db': Db, t: Id) {
    t in db.targets && t in db'.targets
    && db'.targets[t].policy == db.targets[t].policy
    && db'.targets[t].system == db.targets[t].system && db'.targets[t].subtype == db.targets[t].subtype
    && db'.targets[t].key == db.targets[t].key && db'.targets[t].sha == db.targets[t].sha
  }

  /** The request writes the target's text or replaces its policy's targets. */
  predicate Rewrites(db: Db, req: Request, t: Id)
    requires t in db.targets
  {
    (req.EditTarget? && req.target == t) || Regenerates(req, db.targets[t].policy)
  }

  lemma GenerateKeepsContent(db: Db, h: Hash, who: Caller, req: Request, t: Id)
    requires IdsBounded(db) && t in db.targets && req.GenerateRego? && !Rewrites(db, req, t) && Handle(db, h, who, req).Ok?
    ensures ContentKept(db, Handle(db, h, who, req).value, t)
  {
    hide GenerateAll, MentionsBounded;
    GenerateElsewhere(db, h, who.tenant, req.policy, req.gens, db.targets[t].policy);
    assert Owns(db, db.targets[t].policy, t);
  }

  lemma RepublishKeepsContent(db: Db, h: Hash, who: Caller, req: Request, t: Id)
    requires IdsBounded(db) && t in db.targets && req.RepublishPolicy? && Handle(db, h, who, req).Ok?
    ensures ContentKept(db, Handle(db, h, who, req).value, t)
  {
    var v := RepublishedPolicy(db, h, who, req.policy, req.newVersion);
    hide WriteRepublish, MentionsBounded, Handle;
    RepublishLeaves(db, who, req.policy, v, db.targets[t].policy);
    assert Owns(db, db.targets[t].policy, t);
  }

  lemma OthersKeepContent(db: Db, h: Hash, who: Caller, req: Request, t: Id)
    requires IdsBounded(db) && t in db.targets && !req.GenerateRego? && !req.RepublishPolicy?
    requires !Rewrites(db, req, t) && Handle(db, h, who, req).Ok?
    ensures ContentKept(db, Handle(db, h, who, req).value, t)
  {
    hide MentionsBounded, ApprovedTargets, Assemble, IsQueryResult, Stampable;
  }

  lemma RequestKeepsContent(db: Db, h: Hash, who: Caller, req: Request, t: Id)
    requires Sound(db, h) && t in db.targets && !Rewrites(db, req, t) && Handle(db, h, who, req).Ok?
    ensures ContentKept(db, Handle(db, h, who, req).value, t)
  {
    SoundHasIds(db, h);
    hide *;
    if req.GenerateRego? { GenerateKeepsContent(db, h, who, req, t); }
    else if req.RepublishPolicy? { RepublishKeepsContent(db, h, who, req, t); }
    else { OthersKeepContent(db, h, who, req, t); }
  }

  /** Recorded artifacts stay. */
  lemma RequestExtends(db: Db, h: Hash, who: Caller, req: Request)
    requires Sound(db, h) && Handle(db, h, who, req).Ok?
    ensures Extends(db, Handle(db, h, who, req).value)
  {
    SoundHasIds(db, h);
    if req.BuildBundle? {
      hide Sound, IdsBounded, Assemble, IsQueryResult, Stamp;
    } else {
      hide *;
      HandlerIsGuardedWrite(db, h, who, req);
      PolicyRuns.CommitExtends(db, h, who, WriteOf(db, req));
    }
  }

  lemma TextStays(db: Db, db': Db, t: Id, text: string)
    requires TextAt(db, t, text) && ContentKept(db, db', t) && Extends(db, db')
    ensures TextAt(db', t, text)
  {
  }

  lemma ContentTransitive(a: Db, b: Db, c: Db, t: Id)
    requires ContentKept(a, b, t) && ContentKept(b, c, t)
    ensures ContentKept(a, c, t)
  {
  }

  /** Over any run that does not write it, a target keeps its content. */
  lemma {:induction false} RunKeepsContent(db: Db, h: Hash, calls: seq<Call>, t: Id, text: string)
    requires Sound(db, h) && TextAt(db, t, text)
    requires forall k :: 0 <= k < |calls| ==>
               !(calls[k].req.EditTarget? && calls[k].req.target == t) && !Regenerates(calls[k].req, db.targets[t].policy)
    ensures var db' := HandleAll(db, h, calls); Sound(db', h) && ContentKept(db, db', t) && TextAt(db', t, text)
  {
    if calls == [] {
      assert HandleAll(db, h, calls) == db;
    } else {
      var front, last := calls[..|calls| - 1], calls[|calls| - 1];
      RunKeepsContent(db, h, front, t, text);
      var mid := HandleAll(db, h, front);
      assert !Rewrites(mid, last.req, t);
      hide Sound, Handle, Extends;
      if Handle(mid, h, last.who, last.req).Ok? {
        var db' := Handle(mid, h, last.who, last.req).value;
        RequestKeepsContent(mid, h, last.who, last.req, t);
        RequestExtends(mid, h, last.who, last.req);
        HandleKeepsSound(mid, h, last.who, last.req);
        TextStays(mid, db', t, text);
        ContentTransitive(db, mid, db', t);
      }
    }
  }

  /** The path of a target's file. */
  function TargetPath(db: Db, t: Id): Path
    requires t in db.targets
  {
    Path(db.targets[t].policy, FileName(db.targets[t].system, db.targets[t].subtype))
  }

  /** A build writes each approved target's text to its file, if no two share one. */
  lemma BuildWritesText(db: Db, h: Hash, who: Caller, rows: seq<BuildRow>, sha: Digest, at: nat, t: Id, text: string)
    requires Sound(db, h) && IsQueryResult(db, who.tenant, rows) && PathsDistinct(Included(rows)) && TextAt(db, t, text)
    requires t in Assemble(db.artifacts, who.tenant, rows, sha, at).targets
    ensures var files := Assemble(db.artifacts, who.tenant, rows, sha, at).files;
            TargetPath(db, t) in files && files[TargetPath(db, t)] == text
  {
    var i: nat := IncludedIndex(db, who.tenant, rows, t);
    PolicyRuns.IncludedRows(db, who.tenant, rows, i);
    PolicyRuns.BundleKeepsEveryFileIff(db, h, who, rows, sha, at);
    hide Assemble, Included, IsQueryResult, Sound, PathsDistinct;
    assert PolicyRuns.FileHolds(db.artifacts, Assemble(db.artifacts, who.tenant, rows, sha, at).files, Included(rows)[i]);
  }

  lemma IncludedIndex(db: Db, tenant: Id, rows: seq<BuildRow>, t: Id) returns (i: nat)
    requires t in TargetIds(Included(rows))
    ensures i < |Included(rows)| && Included(rows)[i].target == t
  {
    hide Included;
    i :| i < |TargetIds(Included(rows))| && TargetIds(Included(rows))[i] == t;
  }

  /**
    From an edit to the bundle: the text that was sent is the file's text in every later bundle
    that ships the target, whatever else happens, unless the target is edited again, its policy
    regenerated, or its file shared. And the target ships exactly if it is approved and published by then.
   */
  lemma EditedTextShips(
      db: Db, h: Hash, who: Caller, p: Id, t: Id, text: string, calls: seq<Call>, builder: Caller, rows: seq<BuildRow>, sha: Digest)
    requires Sound(db, h) && Handle(db, h, who, EditTarget(p, t, text, true)).Ok?
    requires forall k :: 0 <= k < |calls| ==>
               !(calls[k].req.EditTarget? && calls[k].req.target == t) && !Regenerates(calls[k].req, p)
    requires IsQueryResult(HandleAll(Handle(db, h, who, EditTarget(p, t, text, true)).value, h, calls), builder.tenant, rows)
    requires PathsDistinct(Included(rows))
    ensures var db' := HandleAll(Handle(db, h, who, EditTarget(p, t, text, true)).value, h, calls);
            var b := Assemble(db'.artifacts, builder.tenant, rows, sha, |db'.audit|);
            && t in db'.targets
            && (t in b.targets <==> InPublished(db', builder.tenant, t) && db'.targets[t].review == Approved)
            && (t in b.targets ==> TargetPath(db', t) in b.files && b.files[TargetPath(db', t)] == text)
  {
    EditStores(db, h, who, p, t, text, true);
    HandleKeepsSound(db, h, who, EditTarget(p, t, text, true));
    hide Handle, Sound, HandleAll;
    var edited := Handle(db, h, who, EditTarget(p, t, text, true)).value;
    RunKeepsContent(edited, h, calls, t, text);
    var db' := HandleAll(edited, h, calls);
    PolicyRuns.ShippedTargets(db', builder.tenant, rows);
    if t in Assemble(db'.artifacts, builder.tenant, rows, sha, |db'.audit|).targets {
      BuildWritesText(db', h, builder, rows, sha, |db'.audit|, t, text);
    }
    hide IsQueryResult, Included, PathsDistinct;
  }

  // ── Whose tables ─────────────────────────────────────────────────────

  /** The policy row and its targets are the same in both tables, stamps included. */
  ghost predicate Identical(db: Db, db': Db, p: Id) {
    && p in db.policies && p in db'.policies && db'.policies[p] == db.policies[p]
    && (forall t :: Owns(db, p, t) <==> Owns(db', p, t))
    && (forall t :: Owns(db, p, t) && Owns(db', p, t) ==> db'.targets[t] == db.targets[t])
  }

  lemma {:induction false} GenerateLeavesOthers(db: Db, h: Hash, tenant: Id, policy: Id, gens: seq<RegoGenerator.GeneratedRego>, p: Id)
    requires IdsBounded(db) && p in db.policies && p != policy
    ensures Identical(db, GenerateAll(db, h, tenant, policy, gens), p)
    ensures TargetsBelow(GenerateAll(db, h, tenant, policy, gens)) && db.nextId <= GenerateAll(db, h, tenant, policy, gens).nextId
  {
    assert TargetsBelow(db);
    if gens != [] {
      hide IdsBounded, GenerateOne, Identical, TargetsBelow;
      GenerateLeavesOthers(db, h, tenant, policy, gens[..|gens| - 1], p);
      GenerateOneLeavesOthers(db, GenerateAll(db, h, tenant, policy, gens[..|gens| - 1]), h, tenant, policy, gens[|gens| - 1], p);
    }
  }

  lemma GenerateOneLeavesOthers(db: Db, mid: Db, h: Hash, tenant: Id, policy: Id, g: RegoGenerator.GeneratedRego, p: Id)
    requires p != policy && Identical(db, mid, p) && TargetsBelow(db) && TargetsBelow(mid) && db.nextId <= mid.nextId
    ensures Identical(db, GenerateOne(mid, h, tenant, policy, g), p)
    ensures TargetsBelow(GenerateOne(mid, h, tenant, policy, g)) && db.nextId <= GenerateOne(mid, h, tenant, policy, g).nextId
  {
    hide TargetKey;
  }

  lemma RepublishLeavesAll(db: Db, who: Caller, parent: Id, v: string, p: Id)
    requires IdsBounded(db) && parent in db.policies && p in db.policies
    ensures Identical(db, WriteRepublish(db, who, parent, v), p)
  {
    hide CopiedTargets, TargetsOf, MentionsBounded;
    var child, base := db.nextId, db.nextId + 1;
    forall n | n in CopiedTargets(db, parent, child, base)
      ensures n >= base && CopiedTargets(db, parent, child, base)[n].policy == child
    {
      CopiesAreFresh(db, parent, child, base, n);
    }
  }

  lemma OthersLeaveAll(db: Db, h: Hash, who: Caller, req: Request, p: Id)
    requires IdsBounded(db) && p in db.policies && db.policies[p].tenant != who.tenant && Handle(db, h, who, req).Ok?
    requires !req.GenerateRego? && !req.RepublishPolicy?
    ensures Identical(db, Handle(db, h, who, req).value, p)
  {
    hide MentionsBounded, ApprovedTargets, Assemble, IsQueryResult;
  }

  /** No accepted request changes anything of a policy of another tenant. */
  lemma TenantsAreIsolated(db: Db, h: Hash, who: Caller, req: Request, p: Id)
    requires IdsBounded(db) && p in db.policies && db.policies[p].tenant != who.tenant && Handle(db, h, who, req).Ok?
    ensures Identical(db, Handle(db, h, who, req).value, p)
  {
    if req.GenerateRego? {
      hide GenerateAll, MentionsBounded;
      GenerateLeavesOthers(db, h, who.tenant, req.policy, req.gens, p);
    } else if req.RepublishPolicy? {
      var v := RepublishedPolicy(db, h, who, req.policy, req.newVersion);
      hide WriteRepublish, Handle, Identical;
      RepublishLeavesAll(db, who, req.policy, v, p);
    } else {
      OthersLeaveAll(db, h, who, req, p);
    }
  }

  /** Every accepted request appends exactly one audit row, in its caller's name. */
  lemma OneAuditRow(db: Db, h: Hash, who: Caller, req: Request)
    requires IdsBounded(db) && Handle(db, h, who, req).Ok?
    ensures var db' := Handle(db, h, who, req).value;
            && |db'.audit| == |db.audit| + 1 && db'.audit[..|db.audit|] == db.audit
            && db'.audit[|db.audit|].user == who.user && db'.audit[|db.audit|].tenant == who.tenant
  {
    hide MentionsBounded, ApprovedTargets, Assemble, IsQueryResult, CopiedTargets, TargetsOf, Stamp, GenerateAll;
    if req.GenerateRego? { PolicyRuns.GenerateExtends(db, h, who.tenant, req.policy, req.gens); }
  }

}
