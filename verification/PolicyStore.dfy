/**
  The tables of the policy lifecycle and the transactions that change them: what each SQL
  transaction writes, apart from the checks that handlers make before they open it.
 */
module PolicyStore {
  import opened Common
  import opened RegoGenerator

  datatype PolicyStatus = Draft | InReview | Published | Archived

  datatype PolicySource = ProseUpload | ForkedOverlay | CustomerOriginal

  datatype Review = Pending | Approved | Rejected

  /** `pgupload:<id>` or `pgrego:<id>`; both point into policy_uploads. */
  datatype StorageKey = PgUpload(id: Id) | PgRego(id: Id)

  /** A row of policy_uploads. */
  datatype Artifact = Artifact(tenant: Id, text: string, sha: Digest)

  /** A row of customer_policies. */
  datatype Policy = Policy(
    tenant: Id, name: string, bucket: string, source: PolicySource, sourceKey: Option<StorageKey>,
    ir: Option<string>, parentRef: Option<string>, version: string, status: PolicyStatus,
    publishedBy: Option<Id>, createdBy: Id)

  /** A row of customer_policy_targets. */
  datatype Target = Target(
    policy: Id, system: string, subtype: Option<string>, key: StorageKey, sha: Digest,
    generation: Generation, confidence: Option<real>, review: Review, bundleSha: Option<Digest>)

  datatype Action =
    | Uploaded(upload: Id)
    | Forked(sha: Digest, system: string)
    | IrExtracted
    | RegoGenerated(total: nat, pending: nat, rejected: nat)
    | TargetEdited(target: Id, prior: Review, priorSha: Digest, newSha: Digest)
    | TargetApproved(target: Id, sha: Digest)
    | TargetRejected(target: Id, sha: Digest)
    | PolicyPublished(approvedTargets: nat, version: string)
    | RepublishedFrom(parent: Id, parentVersion: string, newVersion: string, copied: nat)
    | BundleBuilt(sha: Digest, count: int, excluded: nat)

  /** A row of policy_audit_log, which is append-only; the sequence is in id order. */
  datatype AuditRow = AuditRow(user: Id, tenant: Id, policy: Option<Id>, action: Action)

  /** Where a republished target's row was copied from, and how long the audit log was when it was read. */
  datatype Copy = Copy(source: Id, at: nat)

  /** One row of the bundle query. */
  datatype BuildRow = BuildRow(
    target: Id, policy: Id, system: string, subtype: Option<string>, key: StorageKey, review: Review)

  datatype Reason = NotApproved | NotInPgStore | ArtifactMissing

  datatype Excluded = Excluded(target: Id, policy: Id, review: Review, reason: Reason)

  /** customer/<tenant>/<policy>/<file>.rego; a bundle holds one tenant only. */
  datatype Path = Path(policy: Id, file: string)

  /** A row of policy_bundles: the files handed to `opa build`, and the manifest. */
  datatype Bundle = Bundle(
    tenant: Id, sha: Digest, files: map<Path, string>, targetCount: int, policyIds: seq<Id>,
    targets: seq<Id>, excluded: seq<Excluded>, readAt: nat)

  /**
    The tables. `copies` and the bundles' `readAt` are bookkeeping of the model: the SQL
    INSERT ... SELECT pairs each copy with its source, and a build reads its rows when the
    audit log is `readAt` rows long, but the database keeps neither fact.
   */
  datatype Db = Db(
    policies: map<Id, Policy>, targets: map<Id, Target>, artifacts: map<Id, Artifact>,
    audit: seq<AuditRow>, copies: map<Id, Copy>, bundles: seq<Bundle>, nextId: Id)

  const EMPTY := Db(map[], map[], map[], [], map[], [], 0)

  datatype Caller = Caller(user: Id, tenant: Id)

  type Hash = string -> Digest

  predicate PolicyVisible(db: Db, policy: Id, tenant: Id) {
    policy in db.policies && db.policies[policy].tenant == tenant
  }

  predicate TargetVisible(db: Db, policy: Id, target: Id, tenant: Id) {
    PolicyVisible(db, policy, tenant) && target in db.targets && db.targets[target].policy == policy
  }

  /** COALESCE(target_subtype, ''): the key under which a policy has at most one target. */
  function KeyOf(system: string, subtype: Option<string>): (string, string) {
    (system, subtype.Or(Some("")).value)
  }

  function TargetKey(t: Target): (string, string) { KeyOf(t.system, t.subtype) }

  function Log(db: Db, who: Caller, policy: Option<Id>, action: Action): Db {
    db.(audit := db.audit + [AuditRow(who.user, who.tenant, policy, action)])
  }

  // ── The transactions ─────────────────────────────────────────────────

  /** PgBundleStore.put_rego: insert-only; the id of the new row is the old nextId. */
  function PutRego(db: Db, h: Hash, tenant: Id, text: string): Db {
    db.(artifacts := db.artifacts[db.nextId := Artifact(tenant, text, h(text))], nextId := db.nextId + 1)
  }

  function InsertTarget(db: Db, t: Target): Db {
    db.(targets := db.targets[db.nextId := t], nextId := db.nextId + 1)
  }

  function InsertPolicy(db: Db, p: Policy): Db {
    db.(policies := db.policies[db.nextId := p], nextId := db.nextId + 1)
  }

  const DEFAULT_VERSION := "v0.1.0"

  function WriteUpload(db: Db, h: Hash, who: Caller, name: string, bucket: string, raw: string, text: string): Db {
    var upload := db.nextId;
    var db1 := db.(artifacts := db.artifacts[upload := Artifact(who.tenant, text, h(raw))], nextId := upload + 1);
    var p := Policy(who.tenant, name, bucket, ProseUpload, Some(PgUpload(upload)), None, None,
                    DEFAULT_VERSION, Draft, None, who.user);
    Log(InsertPolicy(db1, p), who, Some(upload + 1), Uploaded(upload))
  }

  function WriteFork(db: Db, h: Hash, who: Caller, name: string, bucket: string, ref: string,
                     system: string, text: string): Db {
    var policy := db.nextId;
    var p := Policy(who.tenant, name, bucket, ForkedOverlay, None, None, Some(ref), DEFAULT_VERSION, Draft, None, who.user);
    var db1 := PutRego(InsertPolicy(db, p), h, who.tenant, text);
    var t := Target(policy, system, None, PgRego(policy + 1), h(text), CustomerAuthored, None, Pending, None);
    Log(InsertTarget(db1, t), who, Some(policy), Forked(h(text), system))
  }

  function WriteIr(db: Db, who: Caller, policy: Id, ir: string): Db
    requires policy in db.policies
  {
    Log(db.(policies := db.policies[policy := db.policies[policy].(ir := Some(ir))]), who, Some(policy), IrExtracted)
  }

  /** DELETE ... WHERE policy = $1 AND target_system = $2 AND COALESCE(target_subtype, '') = COALESCE($3, ''). */
  function DeleteKey(targets: map<Id, Target>, policy: Id, key: (string, string)): map<Id, Target> {
    map t | t in targets && !(targets[t].policy == policy && TargetKey(targets[t]) == key) :: targets[t]
  }

  function GeneratedTarget(policy: Id, g: GeneratedRego, artifact: Id, h: Hash): Target {
    Target(policy, g.system, g.subtype, PgRego(artifact), h(g.text), g.generation, g.confidence,
           if g.pending then Pending else Rejected, None)
  }

  function GenerateOne(db: Db, h: Hash, tenant: Id, policy: Id, g: GeneratedRego): Db {
    var db1 := PutRego(db, h, tenant, g.text);
    var db2 := db1.(targets := DeleteKey(db1.targets, policy, KeyOf(g.system, g.subtype)));
    InsertTarget(db2, GeneratedTarget(policy, g, db.nextId, h))
  }

  function GenerateAll(db: Db, h: Hash, tenant: Id, policy: Id, gens: seq<GeneratedRego>): Db {
    if gens == [] then db
    else GenerateOne(GenerateAll(db, h, tenant, policy, gens[..|gens| - 1]), h, tenant, policy, gens[|gens| - 1])
  }

  function CountPending(gens: seq<GeneratedRego>): (n: nat)
    ensures n <= |gens|
  {
    if gens == [] then 0
    else CountPending(gens[..|gens| - 1]) + if gens[|gens| - 1].pending then 1 else 0
  }

  function WriteGenerate(db: Db, h: Hash, who: Caller, policy: Id, gens: seq<GeneratedRego>): Db
  {
    Log(GenerateAll(db, h, who.tenant, policy, gens), who, Some(policy),
        RegoGenerated(|gens|, CountPending(gens), |gens| - CountPending(gens)))
  }

  /** `existing` is the row as the handler read it before the transaction. */
  function WriteEdit(db: Db, h: Hash, who: Caller, policy: Id, target: Id, existing: Target, text: string): Db {
    var db1 := PutRego(db, h, who.tenant, text);
    var targets :=
      if target in db.targets then
        db.targets[target := db.targets[target].(key := PgRego(db.nextId), sha := h(text), review := Pending)]
      else db.targets;
    Log(db1.(targets := targets), who, Some(policy), TargetEdited(target, existing.review, existing.sha, h(text)))
  }

  /** UPDATE ... RETURNING; a missing row is a 404 that rolls the transaction back. */
  function WriteApprove(db: Db, who: Caller, policy: Id, target: Id): Result<Db> {
    if !TargetVisible(db, policy, target, who.tenant) then Err(NotFound)
    else
      var row := db.targets[target].(review := Approved);
      Ok(Log(db.(targets := db.targets[target := row]), who, Some(policy), TargetApproved(target, row.sha)))
  }

  function WriteReject(db: Db, who: Caller, policy: Id, target: Id): Result<Db> {
    if !TargetVisible(db, policy, target, who.tenant) then Err(NotFound)
    else
      var row := db.targets[target].(review := Rejected);
      Ok(Log(db.(targets := db.targets[target := row]), who, Some(policy), TargetRejected(target, row.sha)))
  }

  function ApprovedTargets(db: Db, policy: Id): set<Id> {
    set t | t in db.targets && db.targets[t].policy == policy && db.targets[t].review == Approved
  }

  function WritePublish(db: Db, who: Caller, policy: Id): Db
    requires policy in db.policies
  {
    var row := db.policies[policy].(status := Published, publishedBy := Some(who.user));
    Log(db.(policies := db.policies[policy := row]), who, Some(policy),
        PolicyPublished(|ApprovedTargets(db, policy)|, row.version))
  }

  function TargetsOf(db: Db, policy: Id): set<Id> {
    set t | t in db.targets && db.targets[t].policy == policy
  }

  /** The copy of source target s gets the fresh id base + s. */
  predicate IsCopy(db: Db, parent: Id, base: Id, n: Id) {
    base <= n && n - base in db.targets && db.targets[n - base].policy == parent
  }

  function CopiedTargets(db: Db, parent: Id, child: Id, base: Id): map<Id, Target> {
    map n: Id | base <= n < base + db.nextId && IsCopy(db, parent, base, n) ::
      db.targets[n - base].(policy := child, bundleSha := None)
  }

  /**
    The transaction of republish_policy. `seen` is what its INSERT ... SELECT reads: the tables
    as they were at that statement, which takes no lock on the rows it copies.
   */
  function WriteCopies(db: Db, seen: Db, who: Caller, parent: Id, newVersion: string): Db
    requires parent in seen.policies
  {
    var row := seen.policies[parent];
    var child, base := db.nextId, db.nextId + 1;
    var copied := CopiedTargets(seen, parent, child, base);
    Log(db.(policies := db.policies[child := row.(version := newVersion, status := Draft,
                                                  publishedBy := None, createdBy := who.user)],
            targets := db.targets + copied,
            copies := db.copies + (map n <- copied.Keys :: Copy(n - base, |seen.audit|)),
            nextId := base + db.nextId),
        who, Some(child), RepublishedFrom(parent, row.version, newVersion, |TargetsOf(seen, parent)|))
  }

  /** The same with nothing in between. */
  function WriteRepublish(db: Db, who: Caller, parent: Id, newVersion: string): Db
    requires parent in db.policies
  {
    WriteCopies(db, db, who, parent, newVersion)
  }

}
