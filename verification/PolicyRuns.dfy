/**
  Runs of the policy lifecycle in which every handler's check, write transaction, bundle query
  and bundle insert may interleave with every other handler's. A step is one write transaction,
  taken whatever the state is, so a run with checks in front of the writes is one of these runs.

  The source asks for no isolation level, so its transactions may also overlap. Two overlaps
  matter. A republish copies the rows that its SELECT sees and commits later: it is a pair of
  steps here. Two generate transactions may each DELETE before the other's INSERT commits: here
  a generate transaction is one step, and the module PolicyOverlaps says what that overlap does.
  Other writes to a target hold its row lock from their UPDATE to their commit, and publishing
  holds the policy's, so taking them one at a time loses nothing that this module speaks of.
 */
module PolicyRuns {
  import opened Common
  import opened RegoGenerator
  import opened PolicyStore
  import opened AuditTrail
  import opened PolicyProofs
  import opened BundleBuilder

  datatype Write =
    | Upload(name: string, bucket: string, raw: string, text: string)
    | Fork(name: string, bucket: string, ref: string, system: string, text: string)
    | ExtractIr(policy: Id, ir: string)
    | Generate(policy: Id, gens: seq<GeneratedRego>)
    | Edit(policy: Id, target: Id, existing: Target, text: string)
    | Approve(policy: Id, target: Id)
    | Reject(policy: Id, target: Id)
    | Publish(policy: Id)
    | Republish(parent: Id, newVersion: string)

  /** The write transaction; None when it refers to a row that never was or rolls back. */
  function Commit(db: Db, h: Hash, who: Caller, w: Write): Option<Db> {
    match w
    case Upload(name, bucket, raw, text) => Some(WriteUpload(db, h, who, name, bucket, raw, text))
    case Fork(name, bucket, ref, system, text) => Some(WriteFork(db, h, who, name, bucket, ref, system, text))
    case ExtractIr(policy, ir) =>
      // trg_customer_policies_published_immutable refuses to change a published policy's IR.
      if policy !in db.policies || (db.policies[policy].status == Published && db.policies[policy].ir != Some(ir)) then None
      else Some(WriteIr(db, who, policy, ir))
    case Generate(policy, gens) => if policy in db.policies then Some(WriteGenerate(db, h, who, policy, gens)) else None
    case Edit(policy, target, existing, text) =>
      if target < db.nextId then Some(WriteEdit(db, h, who, policy, target, existing, text)) else None
    case Approve(policy, target) =>
      var r := WriteApprove(db, who, policy, target); if r.Ok? then Some(r.value) else None
    case Reject(policy, target) =>
      var r := WriteReject(db, who, policy, target); if r.Ok? then Some(r.value) else None
    case Publish(policy) =>
      // Checked under the policy's row lock; the count of approved targets is not locked, so it may be stale.
      if !PolicyVisible(db, policy, who.tenant) || db.policies[policy].status == Published then None
      else Some(WritePublish(db, who, policy))
    case Republish(parent, v) => if parent in db.policies then Some(WriteRepublish(db, who, parent, v)) else None
  }

  /** The rows a build in progress has read. */
  datatype Read = Read(who: Caller, rows: seq<BuildRow>, at: nat)

  /** A republish whose SELECT has run; `seen` is what it saw. */
  datatype Copying = Copying(who: Caller, parent: Id, newVersion: string, seen: Db)

  datatype World = World(db: Db, builds: map<Id, Read>, copying: map<Id, Copying>)

  datatype Step =
    | Tx(who: Caller, write: Write)
    | BeginBuild(build: Id, reader: Caller, rows: seq<BuildRow>)
    | FinishBuild(build: Id, sha: Digest)
    | BeginRepublish(republish: Id, publisher: Caller, parent: Id, newVersion: string)
    | FinishRepublish(republish: Id)

  ghost function Next(w: World, h: Hash, step: Step): Option<World> {
    match step
    case Tx(who, write) =>
      var r := Commit(w.db, h, who, write); if r.Some? then Some(w.(db := r.value)) else None
    case BeginBuild(b, who, rows) =>
      if b in w.builds || !IsQueryResult(w.db, who.tenant, rows) then None
      else Some(w.(builds := w.builds[b := Read(who, rows, |w.db.audit|)]))
    case FinishBuild(b, sha) =>
      if b !in w.builds then None
      else
        var read := w.builds[b];
        var bundle := Assemble(w.db.artifacts, read.who.tenant, read.rows, sha, read.at);
        Some(w.(db := WriteBundle(w.db, read.who, bundle), builds := w.builds - {b}))
    case BeginRepublish(c, who, parent, v) =>
      if c in w.copying || parent !in w.db.policies then None
      else Some(w.(copying := w.copying[c := Copying(who, parent, v, w.db)]))
    case FinishRepublish(c) =>
      if c !in w.copying then None
      else
        var r := w.copying[c];
        if r.parent !in r.seen.policies then None
        else Some(w.(db := WriteCopies(w.db, r.seen, r.who, r.parent, r.newVersion), copying := w.copying - {c}))
  }

  ghost function Run(w: World, h: Hash, steps: seq<Step>): Option<World> {
    if steps == [] then Some(w)
    else
      match Run(w, h, steps[..|steps| - 1])
      case None => None
      case Some(mid) => Next(mid, h, steps[|steps| - 1])
  }

  const START := World(EMPTY, map[], map[])

  // ── Every transaction keeps the tables sound and only adds to what is recorded ──

  lemma CommitKeepsSound(db: Db, h: Hash, who: Caller, w: Write)
    requires Sound(db, h) && Commit(db, h, who, w).Some?
    ensures Sound(Commit(db, h, who, w).value, h)
  {
    hide Sound;
    match w
    case Upload(name, bucket, raw, text) => UploadKeeps(db, h, who, name, bucket, raw, text);
    case Fork(name, bucket, ref, system, text) => ForkKeeps(db, h, who, name, bucket, ref, system, text);
    case ExtractIr(policy, ir) =>
      var row := db.policies[policy].(ir := Some(ir));
      PolicyRowKeeps(db, h, policy, row);
      LogKeeps(db.(policies := db.policies[policy := row]), h, who, Some(policy), IrExtracted);
    case Generate(policy, gens) =>
      GenerateAllKeeps(db, h, who.tenant, policy, gens);
      LogKeeps(GenerateAll(db, h, who.tenant, policy, gens), h, who, Some(policy),
               RegoGenerated(|gens|, CountPending(gens), |gens| - CountPending(gens)));
    case Edit(policy, target, existing, text) => EditKeeps(db, h, who, policy, target, existing, text);
    case Approve(policy, target) => ApproveKeeps(db, h, who, policy, target);
    case Reject(policy, target) => RejectKeeps(db, h, who, policy, target);
    case Publish(policy) =>
      var row := db.policies[policy].(status := Published, publishedBy := Some(who.user));
      PolicyRowKeeps(db, h, policy, row);
      LogKeeps(db.(policies := db.policies[policy := row]), h, who, Some(policy),
               PolicyPublished(|ApprovedTargets(db, policy)|, row.version));
    case Republish(parent, v) => RepublishKeeps(db, h, who, parent, v);
  }

  lemma {:induction false} GenerateExtends(db: Db, h: Hash, tenant: Id, policy: Id, gens: seq<GeneratedRego>)
    requires IdsBounded(db)
    ensures Extends(db, GenerateAll(db, h, tenant, policy, gens))
    ensures GenerateAll(db, h, tenant, policy, gens).audit == db.audit
    ensures forall a :: a in GenerateAll(db, h, tenant, policy, gens).artifacts ==>
              a < GenerateAll(db, h, tenant, policy, gens).nextId
  {
    if gens != [] {
      GenerateExtends(db, h, tenant, policy, gens[..|gens| - 1]);
    }
  }

  lemma CommitExtends(db: Db, h: Hash, who: Caller, w: Write)
    requires IdsBounded(db) && Commit(db, h, who, w).Some?
    ensures Extends(db, Commit(db, h, who, w).value)
  {
    match w
    case Generate(policy, gens) => GenerateExtends(db, h, who.tenant, policy, gens);
    case Republish(parent, v) => RepublishExtends(db, who, parent, v);
    case _ =>
  }

  lemma StampKeeps(db: Db, h: Hash, who: Caller, b: Bundle)
    requires Sound(db, h)
    ensures Sound(WriteBundle(db, who, b), h)
  {
    var stamped := db.(bundles := db.bundles + [b], targets := Stamp(db, who.tenant, b.sha));
    StampIsSound(db, h, who.tenant, b);
    LogKeeps(stamped, h, who, None, BundleBuilt(b.sha, b.targetCount, |b.excluded|));
  }

  lemma StampIsSound(db: Db, h: Hash, tenant: Id, b: Bundle)
    requires Sound(db, h)
    ensures Sound(db.(bundles := db.bundles + [b], targets := Stamp(db, tenant, b.sha)), h)
  {
    hide Verdict, Stampable;
  }

  // ── What is in a bundle is what was approved ─────────────────────────

  /** Some listed target had an approval of exactly this text standing when the build read its rows. */
  ghost predicate Traced(db: Db, h: Hash, targets: seq<Id>, at: nat, text: string) {
    at <= |db.audit|
    && exists t :: t in targets && t < db.nextId && Verdict(db.audit, db.copies, t, at) == Some(h(text))
  }

  ghost predicate BundleTraced(db: Db, h: Hash, b: Bundle) {
    forall p :: p in b.files ==> Traced(db, h, b.targets, b.readAt, b.files[p])
  }

  /** Every approved row that a build holds still resolves to the text that was approved when it was read. */
  ghost predicate RowTraced(db: Db, h: Hash, r: BuildRow, at: nat) {
    && at <= |db.audit| && r.target < db.nextId
    && (r.review == Approved ==>
          && r.key.PgRego? && r.key.id in db.artifacts
          && Verdict(db.audit, db.copies, r.target, at) == Some(h(db.artifacts[r.key.id].text)))
  }

  ghost predicate ReadTraced(db: Db, h: Hash, read: Read) {
    forall r :: r in read.rows ==> RowTraced(db, h, r, read.at)
  }

  ghost predicate Inv(w: World, h: Hash) {
    && Sound(w.db, h)
    && (forall b :: b in w.db.bundles ==> BundleTraced(w.db, h, b))
    && (forall b :: b in w.builds ==> ReadTraced(w.db, h, w.builds[b]))
    && (forall c :: c in w.copying ==> Earlier(w.copying[c].seen, w.db, h))
  }

  lemma TracedStays(db: Db, db': Db, h: Hash, targets: seq<Id>, at: nat, text: string)
    requires Extends(db, db') && Traced(db, h, targets, at, text)
    ensures Traced(db', h, targets, at, text)
  {
    var t :| t in targets && t < db.nextId && Verdict(db.audit, db.copies, t, at) == Some(h(text));
    VerdictStays(db, db', t, at);
  }

  lemma BundleStays(db: Db, db': Db, h: Hash, b: Bundle)
    requires Extends(db, db') && BundleTraced(db, h, b)
    ensures BundleTraced(db', h, b)
  {
    hide Extends, Traced;
    forall p | p in b.files
      ensures Traced(db', h, b.targets, b.readAt, b.files[p])
    {
      TracedStays(db, db', h, b.targets, b.readAt, b.files[p]);
    }
  }

  lemma ReadStays(db: Db, db': Db, h: Hash, read: Read)
    requires Extends(db, db') && ReadTraced(db, h, read)
    ensures ReadTraced(db', h, read)
  {
    hide Verdict;
    forall r | r in read.rows
      ensures RowTraced(db', h, r, read.at)
    {
      assert RowTraced(db, h, r, read.at);
      VerdictStays(db, db', r.target, read.at);
    }
  }

  lemma InvStays(w: World, db': Db, h: Hash)
    requires Inv(w, h) && Extends(w.db, db') && Sound(db', h) && db'.bundles == w.db.bundles
    ensures Inv(w.(db := db'), h)
  {
    hide Sound, Extends, BundleTraced, ReadTraced;
    forall b | b in db'.bundles
      ensures BundleTraced(db', h, b)
    {
      BundleStays(w.db, db', h, b);
    }
    forall b | b in w.builds
      ensures ReadTraced(db', h, w.builds[b])
    {
      ReadStays(w.db, db', h, w.builds[b]);
    }
    forall c | c in w.copying
      ensures Earlier(w.copying[c].seen, db', h)
    {
      EarlierStays(w.copying[c].seen, w.db, db', h);
    }
  }

  lemma EarlierStays(seen: Db, db: Db, db': Db, h: Hash)
    requires Earlier(seen, db, h) && Extends(db, db')
    ensures Earlier(seen, db', h)
  {
    hide Sound;
    ExtendsTransitive(seen, db, db');
  }

  lemma FinishRepublishKeepsInv(w: World, h: Hash, c: Id)
    requires Inv(w, h) && Next(w, h, FinishRepublish(c)).Some?
    ensures Inv(Next(w, h, FinishRepublish(c)).value, h)
  {
    var r := w.copying[c];
    var db' := WriteCopies(w.db, r.seen, r.who, r.parent, r.newVersion);
    assert Sound(w.db, h) && Earlier(r.seen, w.db, h) && db'.bundles == w.db.bundles;
    hide *;
    CopiesKeepSound(w.db, r.seen, h, r.who, r.parent, r.newVersion);
    CopiesExtend(w.db, r.seen, r.who, r.parent, r.newVersion);
    InvStays(w, db', h);
    CopyingForgotten(w, h, c);
  }

  lemma CopyingForgotten(w: World, h: Hash, c: Id)
    requires Next(w, h, FinishRepublish(c)).Some?
    ensures var r := w.copying[c];
            Inv(w.(db := WriteCopies(w.db, r.seen, r.who, r.parent, r.newVersion)), h)
            ==> Inv(Next(w, h, FinishRepublish(c)).value, h)
  {
    hide Sound, BundleTraced, ReadTraced, Earlier, WriteCopies;
  }

  /** A build that reads its rows now holds traced rows. */
  lemma ReadIsTraced(db: Db, h: Hash, who: Caller, rows: seq<BuildRow>)
    requires Sound(db, h) && IsQueryResult(db, who.tenant, rows)
    ensures ReadTraced(db, h, Read(who, rows, |db.audit|))
  {
    hide Verdict, KeysUnique;
    forall r | r in rows
      ensures RowTraced(db, h, r, |db.audit|)
    {
      var i :| 0 <= i < |rows| && rows[i] == r;
      assert r == RowOf(r.target, db.targets[r.target]);
      assert VerdictMatches(db.audit, db.copies, r.target, db.targets[r.target]);
    }
  }

  lemma ShippedIsListed(artifacts: map<Id, Artifact>, rows: seq<BuildRow>, r: BuildRow)
    requires r in Shipped(artifacts, Included(rows))
    ensures r in rows && r.review == Approved && r.key.PgRego? && r.key.id in artifacts
    ensures r.target in TargetIds(Included(rows))
  {
    var included := Included(rows);
    var k :| 0 <= k < |included| && included[k] == r;
    assert TargetIds(included)[k] == r.target;
  }

  /** Whatever happened since the rows were read, the bundle holds what was approved then. */
  lemma AssembledIsTraced(db: Db, h: Hash, read: Read, sha: Digest)
    requires ReadTraced(db, h, read)
    ensures BundleTraced(db, h, Assemble(db.artifacts, read.who.tenant, read.rows, sha, read.at))
  {
    hide Verdict, Included, Shipped, Unapproved, Missing, Files, PolicyIds, TargetIds, PathOf, HasPath;
    var shipped := Shipped(db.artifacts, Included(read.rows));
    var b := Assemble(db.artifacts, read.who.tenant, read.rows, sha, read.at);
    forall p | p in b.files
      ensures Traced(db, h, b.targets, b.readAt, b.files[p])
    {
      PathWritten(db.artifacts, shipped, p);
      var i :| 0 <= i < |shipped| && PathOf(shipped[i]) == p
               && Files(db.artifacts, shipped)[p] == db.artifacts[shipped[i].key.id].text;
      ShippedIsListed(db.artifacts, read.rows, shipped[i]);
      assert RowTraced(db, h, shipped[i], read.at);
    }
  }

  lemma FinishKeepsInv(w: World, h: Hash, b: Id, sha: Digest)
    requires Inv(w, h) && b in w.builds
    ensures Inv(Next(w, h, FinishBuild(b, sha)).value, h)
  {
    hide Sound, BundleTraced, ReadTraced, Assemble;
    var w' := Next(w, h, FinishBuild(b, sha)).value;
    var read := w.builds[b];
    var bundle := Assemble(w.db.artifacts, read.who.tenant, read.rows, sha, read.at);
    StampKeeps(w.db, h, read.who, bundle);
    AssembledIsTraced(w.db, h, read, sha);
    assert Extends(w.db, w'.db);
    forall x | x in w'.db.bundles
      ensures BundleTraced(w'.db, h, x)
    {
      assert x in w.db.bundles || x == bundle;
      BundleStays(w.db, w'.db, h, x);
    }
    forall x | x in w'.builds
      ensures ReadTraced(w'.db, h, w'.builds[x])
    {
      ReadStays(w.db, w'.db, h, w.builds[x]);
    }
    forall c | c in w.copying
      ensures Earlier(w.copying[c].seen, w'.db, h)
    {
      EarlierStays(w.copying[c].seen, w.db, w'.db, h);
    }
  }

  lemma CommitKeepsBundles(db: Db, h: Hash, who: Caller, w: Write)
    requires Commit(db, h, who, w).Some?
    ensures Commit(db, h, who, w).value.bundles == db.bundles
  {
    if w.Generate? { GenerateKeepsBundles(db, h, who.tenant, w.policy, w.gens); }
  }

  lemma {:induction false} GenerateKeepsBundles(db: Db, h: Hash, tenant: Id, policy: Id, gens: seq<GeneratedRego>)
    ensures GenerateAll(db, h, tenant, policy, gens).bundles == db.bundles
  {
    if gens != [] { GenerateKeepsBundles(db, h, tenant, policy, gens[..|gens| - 1]); }
  }

  lemma StepKeepsInv(w: World, h: Hash, step: Step)
    requires Inv(w, h) && Next(w, h, step).Some?
    ensures Inv(Next(w, h, step).value, h)
  {
    match step
    case Tx(who, write) =>
      CommitKeepsSound(w.db, h, who, write);
      CommitExtends(w.db, h, who, write);
      CommitKeepsBundles(w.db, h, who, write);
      InvStays(w, Commit(w.db, h, who, write).value, h);
    case BeginBuild(b, who, rows) =>
      ReadIsTraced(w.db, h, who, rows);
    case FinishBuild(b, sha) =>
      FinishKeepsInv(w, h, b, sha);
    case BeginRepublish(c, who, parent, v) =>
      ExtendsReflexive(w.db);
    case FinishRepublish(c) =>
      FinishRepublishKeepsInv(w, h, c);
  }

  lemma {:induction false} RunKeepsInv(h: Hash, steps: seq<Step>)
    requires Run(START, h, steps).Some?
    ensures Inv(Run(START, h, steps).value, h)
  {
    if steps != [] {
      RunKeepsInv(h, steps[..|steps| - 1]);
      StepKeepsInv(Run(START, h, steps[..|steps| - 1]).value, h, steps[|steps| - 1]);
    }
  }

  /**
    Provenance: in every interleaved run, each text in each bundle has the hash of a
    TARGET_APPROVED audit row for a target listed in the bundle, or for the ancestor that
    carried that target's content then; and between that row and the build's query no audit
    row edits, rejects or re-approves the content on the way from the ancestor to the target.
   */
  lemma BundleProvenance(h: Hash, steps: seq<Step>, b: Bundle, p: Path)
    requires Run(START, h, steps).Some?
    requires b in Run(START, h, steps).value.db.bundles && p in b.files
    ensures var db := Run(START, h, steps).value.db;
            && b.readAt <= |db.audit|
            && exists t, i :: t in b.targets && StandingApproval(db.audit, db.copies, t, h(b.files[p]), i, b.readAt)
  {
    RunKeepsInv(h, steps);
    var db := Run(START, h, steps).value.db;
    assert BundleTraced(db, h, b);
    assert Traced(db, h, b.targets, b.readAt, b.files[p]);
    var t :| t in b.targets && Verdict(db.audit, db.copies, t, b.readAt) == Some(h(b.files[p]));
    VerdictIsStandingApproval(db.audit, db.copies, t, h(b.files[p]), b.readAt);
  }

  /** In every interleaved run the audit log and the copies determine which targets are approved, and for what. */
  lemma ApprovedIffAudited(h: Hash, steps: seq<Step>, t: Id)
    requires Run(START, h, steps).Some? && t in Run(START, h, steps).value.db.targets
    ensures var db := Run(START, h, steps).value.db;
            db.targets[t].review == Approved <==>
            exists i :: StandingApproval(db.audit, db.copies, t, db.targets[t].sha, i, |db.audit|)
  {
    RunKeepsInv(h, steps);
    var db := Run(START, h, steps).value.db;
    assert VerdictMatches(db.audit, db.copies, t, db.targets[t]);
    VerdictIsStandingApproval(db.audit, db.copies, t, db.targets[t].sha, |db.audit|);
  }

  // ── Builds ───────────────────────────────────────────────────────────

  predicate HasArtifact(artifacts: map<Id, Artifact>, r: BuildRow) {
    r.key.PgRego? && r.key.id in artifacts
  }

  ghost predicate AllShip(artifacts: map<Id, Artifact>, included: seq<BuildRow>) {
    Missing(artifacts, included) == [] && Shipped(artifacts, included) == included
  }

  lemma OneMoreShips(artifacts: map<Id, Artifact>, front: seq<BuildRow>, last: BuildRow)
    requires AllShip(artifacts, front) && HasArtifact(artifacts, last)
    ensures AllShip(artifacts, front + [last])
  {
    var all := front + [last];
    assert all[..|all| - 1] == front && all[|all| - 1] == last;
    assert Missing(artifacts, all) == Missing(artifacts, front) + [];
    assert Shipped(artifacts, all) == Shipped(artifacts, front) + [last];
  }

  /** In sound tables every approved row has its artifact, so nothing approved is left out of a bundle. */
  lemma {:induction false} NothingMissing(artifacts: map<Id, Artifact>, included: seq<BuildRow>)
    requires forall i :: 0 <= i < |included| ==> HasArtifact(artifacts, included[i])
    ensures AllShip(artifacts, included)
  {
    if included != [] {
      hide *;
      var front, last := included[..|included| - 1], included[|included| - 1];
      NothingMissing(artifacts, front);
      OneMoreShips(artifacts, front, last);
      assert front + [last] == included;
    }
  }

  lemma IncludedRows(db: Db, tenant: Id, rows: seq<BuildRow>, i: nat)
    requires IsQueryResult(db, tenant, rows) && i < |Included(rows)|
    ensures var r := Included(rows)[i]; r in rows && r.target in db.targets && r == RowOf(r.target, db.targets[r.target])
  {
    var r := Included(rows)[i];
    assert r in Included(rows);
    hide Included, RowOf;
    var k :| 0 <= k < |rows| && rows[k] == r;
  }

  lemma AllIncludedShip(db: Db, h: Hash, tenant: Id, rows: seq<BuildRow>)
    requires Sound(db, h) && IsQueryResult(db, tenant, rows)
    ensures Missing(db.artifacts, Included(rows)) == [] && Shipped(db.artifacts, Included(rows)) == Included(rows)
    ensures forall i :: 0 <= i < |Included(rows)| ==> HasArtifact(db.artifacts, Included(rows)[i])
  {
    hide Missing, Shipped, IdsBounded, KeysUnique, VerdictsMatch, Included, IsQueryResult;
    var included := Included(rows);
    forall i: nat | i < |included| ensures HasArtifact(db.artifacts, included[i]) {
      IncludedRows(db, tenant, rows, i);
      assert Resolves(db.artifacts, h, db.targets[included[i].target]);
    }
    NothingMissing(db.artifacts, included);
  }

  ghost predicate FromTarget(db: Db, targets: seq<Id>, p: Id) {
    exists t :: t in targets && t in db.targets && db.targets[t].policy == p
  }

  lemma PoliciesOfTargets(db: Db, tenant: Id, rows: seq<BuildRow>, p: Id)
    requires IsQueryResult(db, tenant, rows)
    ensures p in PolicyIds(Included(rows)) <==> FromTarget(db, TargetIds(Included(rows)), p)
  {
    var included := Included(rows);
    hide Included, PolicyIds, TargetIds;
    if p in PolicyIds(included) {
      var r :| r in included && r.policy == p;
      var i :| 0 <= i < |included| && included[i] == r;
      assert TargetIds(included)[i] == r.target && r in rows;
    }
    if FromTarget(db, TargetIds(included), p) {
      var t :| t in TargetIds(included) && t in db.targets && db.targets[t].policy == p;
      var i :| 0 <= i < |included| && TargetIds(included)[i] == t;
      assert included[i] in included && included[i] in rows;
    }
  }

  /**
    An atomic build of sound tables ships exactly the approved targets of the published
    policies: neither artifact exclusion occurs, target_count is their number, the policy ids
    are distinct and exactly theirs, and exactly the shipped targets get the bundle's hash.
   */
  lemma AtomicBuild(db: Db, h: Hash, who: Caller, rows: seq<BuildRow>, sha: Digest, at: nat)
    requires Sound(db, h) && IsQueryResult(db, who.tenant, rows)
    ensures var b := Assemble(db.artifacts, who.tenant, rows, sha, at);
            && (forall t :: t in b.targets <==> Stampable(db, who.tenant, t))
            && (forall i, j :: 0 <= i < j < |b.targets| ==> b.targets[i] != b.targets[j])
            && b.targetCount == |b.targets|
            && (forall e :: e in b.excluded ==> e.reason == NotApproved)
            && b.targetCount + |b.excluded| == |rows|
            && (forall i, j :: 0 <= i < j < |b.policyIds| ==> b.policyIds[i] != b.policyIds[j])
            && (forall p :: p in b.policyIds <==> FromTarget(db, b.targets, p))
            && StampedExactly(db, WriteBundle(db, who, b), b)
  {
    AllIncludedShip(db, h, who.tenant, rows);
    Reasons(db.artifacts, rows);
    BuildConserves(db.artifacts, who.tenant, rows, sha, at);
    ShippedTargets(db, who.tenant, rows);
    DistinctTargets(db, who.tenant, rows);
    forall p ensures p in PolicyIds(Included(rows)) <==> FromTarget(db, TargetIds(Included(rows)), p) {
      PoliciesOfTargets(db, who.tenant, rows, p);
    }
    hide Sound, IsQueryResult, Included, Unapproved, Missing, Shipped, Files, PolicyIds, TargetIds, Stampable, FromTarget;
    var b := Assemble(db.artifacts, who.tenant, rows, sha, at);
    StampsExactly(db, who, b);
  }

  /** The targets listed in the bundle got its hash; no other target changed. */
  ghost predicate StampedExactly(db: Db, db': Db, b: Bundle) {
    db'.targets.Keys == db.targets.Keys
    && forall t :: t in db.targets && t in db'.targets ==>
         db'.targets[t] == if t in b.targets then db.targets[t].(bundleSha := Some(b.sha)) else db.targets[t]
  }

  lemma StampsExactly(db: Db, who: Caller, b: Bundle)
    requires forall t :: t in b.targets <==> Stampable(db, who.tenant, t)
    ensures StampedExactly(db, WriteBundle(db, who, b), b)
  {
    hide Stampable;
  }

  lemma DistinctTargets(db: Db, tenant: Id, rows: seq<BuildRow>)
    requires IsQueryResult(db, tenant, rows)
    ensures var ids := TargetIds(Included(rows)); forall i, j :: 0 <= i < j < |ids| ==> ids[i] != ids[j]
  {
    IncludedDistinct(rows);
  }

  /** Rows of different targets have different paths when no system name holds an underscore. */
  lemma PlainRowsDoNotCollide(db: Db, r: BuildRow, q: BuildRow)
    requires KeysUnique(db.targets) && r.target in db.targets && q.target in db.targets
    requires r == RowOf(r.target, db.targets[r.target]) && q == RowOf(q.target, db.targets[q.target])
    requires '_' !in r.system && '_' !in q.system
    ensures PathOf(r) == PathOf(q) ==> r.target == q.target
  {
    if PathOf(r) == PathOf(q) {
      PlainSystemsDoNotCollide(r.system, r.subtype, q.system, q.subtype);
      assert TargetKey(db.targets[r.target]) == TargetKey(db.targets[q.target]);
    }
  }

  lemma PlainPathsDistinct(db: Db, tenant: Id, rows: seq<BuildRow>)
    requires KeysUnique(db.targets) && IsQueryResult(db, tenant, rows)
    requires forall r :: r in rows ==> '_' !in r.system
    ensures PathsDistinct(Included(rows))
  {
    var included := Included(rows);
    IncludedDistinct(rows);
    hide IsQueryResult, KeysUnique, Included, PathOf, RowOf;
    forall i: nat, j: nat | i < j < |included| ensures PathOf(included[i]) != PathOf(included[j]) {
      IncludedRows(db, tenant, rows, i);
      IncludedRows(db, tenant, rows, j);
      PlainRowsDoNotCollide(db, included[i], included[j]);
    }
  }

  ghost predicate FileHolds(artifacts: map<Id, Artifact>, files: map<Path, string>, r: BuildRow) {
    r.key.id in artifacts && PathOf(r) in files && files[PathOf(r)] == artifacts[r.key.id].text
  }

  ghost predicate HoldsEveryText(artifacts: map<Id, Artifact>, files: map<Path, string>, rows: seq<BuildRow>) {
    forall i: nat :: i < |rows| ==> FileHolds(artifacts, files, rows[i])
  }

  lemma DistinctPathsKeepEveryFile(artifacts: map<Id, Artifact>, shipped: seq<BuildRow>)
    requires forall r :: r in shipped ==> r.key.id in artifacts
    ensures |Files(artifacts, shipped)| == |shipped| <==> PathsDistinct(shipped)
    ensures PathsDistinct(shipped) ==> HoldsEveryText(artifacts, Files(artifacts, shipped), shipped)
  {
    NoOverwriteIff(artifacts, shipped);
    if PathsDistinct(shipped) {
      forall i: nat | i < |shipped| ensures FileHolds(artifacts, Files(artifacts, shipped), shipped[i]) {
        DistinctPathsShipAll(artifacts, shipped, i);
        hide PathsDistinct, Files, PathOf;
      }
    }
  }

  lemma AssembledFiles(artifacts: map<Id, Artifact>, tenant: Id, rows: seq<BuildRow>, sha: Digest, at: nat)
    ensures Assemble(artifacts, tenant, rows, sha, at).files == Files(artifacts, Shipped(artifacts, Included(rows)))
  {
    hide Files, Shipped, Included, Unapproved, Missing, PolicyIds, TargetIds;
  }

  /**
    An atomic build has a file for each approved target exactly when their paths differ, and
    each file then holds its target's text.
   */
  lemma BundleKeepsEveryFileIff(db: Db, h: Hash, who: Caller, rows: seq<BuildRow>, sha: Digest, at: nat)
    requires Sound(db, h) && IsQueryResult(db, who.tenant, rows)
    ensures var b := Assemble(db.artifacts, who.tenant, rows, sha, at);
            && (|b.files| == b.targetCount <==> PathsDistinct(Included(rows)))
            && (PathsDistinct(Included(rows)) ==> HoldsEveryText(db.artifacts, b.files, Included(rows)))
  {
    hide *;
    var shipped := Shipped(db.artifacts, Included(rows));
    AllIncludedShip(db, h, who.tenant, rows);
    BuildConserves(db.artifacts, who.tenant, rows, sha, at);
    AssembledFiles(db.artifacts, who.tenant, rows, sha, at);
    DistinctPathsKeepEveryFile(db.artifacts, shipped);
  }

  /** No system name with an underscore: then no file of an atomic build overwrites another. */
  lemma PlainBundlesKeepEveryFile(db: Db, h: Hash, who: Caller, rows: seq<BuildRow>, sha: Digest, at: nat)
    requires Sound(db, h) && IsQueryResult(db, who.tenant, rows)
    requires forall r :: r in rows ==> '_' !in r.system
    ensures var b := Assemble(db.artifacts, who.tenant, rows, sha, at);
            |b.files| == b.targetCount && HoldsEveryText(db.artifacts, b.files, Included(rows))
  {
    assert KeysUnique(db.targets);
    hide *;
    PlainPathsDistinct(db, who.tenant, rows);
    BundleKeepsEveryFileIff(db, h, who, rows, sha, at);
  }

  lemma ShippedTargets(db: Db, tenant: Id, rows: seq<BuildRow>)
    requires IsQueryResult(db, tenant, rows)
    ensures forall t :: t in TargetIds(Included(rows)) <==> Stampable(db, tenant, t)
  {
    var included := Included(rows);
    forall t | t in TargetIds(included)
      ensures Stampable(db, tenant, t)
    {
      var i :| 0 <= i < |included| && TargetIds(included)[i] == t;
      assert included[i] in included;
      assert included[i] in rows;
    }
    forall t | Stampable(db, tenant, t)
      ensures t in TargetIds(included)
    {
      var i :| 0 <= i < |rows| && rows[i].target == t;
      assert rows[i] in included;
      var k :| 0 <= k < |included| && included[k] == rows[i];
      assert TargetIds(included)[k] == t;
    }
  }

  lemma {:induction false} IncludedDistinct(rows: seq<BuildRow>)
    requires forall i, j :: 0 <= i < j < |rows| ==> rows[i].target != rows[j].target
    ensures forall i, j :: 0 <= i < j < |Included(rows)| ==> Included(rows)[i].target != Included(rows)[j].target
  {
    if rows != [] {
      var front, last := rows[..|rows| - 1], rows[|rows| - 1];
      IncludedDistinct(front);
      forall r | r in Included(front)
        ensures r.target != last.target
      {
        assert r in front;
      }
      assert forall i :: 0 <= i < |Included(front)| ==> Included(front)[i] in Included(front);
    }
  }

}
