/**
  What every transaction of the policy lifecycle keeps, with no assumption about what the
  handler checked before it opened the transaction. A run of such transactions is therefore
  any interleaving of any handlers.
 */
module PolicyProofs {
  import opened Common
  import opened RegoGenerator
  import opened PolicyStore
  import opened AuditTrail

  /** Every id in use is below nextId. */
  ghost predicate IdsBounded(db: Db) {
    && (forall p :: p in db.policies ==> p < db.nextId)
    && (forall t :: t in db.targets ==> t < db.nextId && db.targets[t].policy in db.policies)
    && (forall a :: a in db.artifacts ==> a < db.nextId)
    && (forall c :: c in db.copies ==> db.copies[c].source < c < db.nextId && db.copies[c].at <= |db.audit|)
    && MentionsBounded(db.audit, db.nextId)
  }

  ghost predicate MentionsBounded(audit: seq<AuditRow>, bound: Id) {
    forall j, t: Id :: 0 <= j < |audit| && Mentions(audit[j], t) ==> t < bound
  }

  /** The row's storage key resolves to a stored artifact, and the row's hash is that of its text. */
  ghost predicate Resolves(artifacts: map<Id, Artifact>, h: Hash, t: Target) {
    t.key.PgRego? && t.key.id in artifacts && artifacts[t.key.id].sha == t.sha == h(artifacts[t.key.id].text)
  }

  ghost predicate ArtifactsResolve(db: Db, h: Hash) {
    forall t :: t in db.targets ==> Resolves(db.artifacts, h, db.targets[t])
  }

  /** A policy has at most one target per (system, subtype-or-empty). */
  ghost predicate KeysUnique(targets: map<Id, Target>) {
    forall t, u :: t in targets && u in targets
                   && targets[t].policy == targets[u].policy && TargetKey(targets[t]) == TargetKey(targets[u])
                   ==> t == u
  }

  /** A row is approved exactly when the audit log says so, and then for the row's own hash. */
  ghost predicate VerdictMatches(audit: seq<AuditRow>, copies: map<Id, Copy>, t: Id, row: Target) {
    Verdict(audit, copies, t, |audit|) == if row.review == Approved then Some(row.sha) else None
  }

  ghost predicate VerdictsMatch(db: Db) {
    forall t :: t in db.targets ==> VerdictMatches(db.audit, db.copies, t, db.targets[t])
  }

  ghost predicate Sound(db: Db, h: Hash) {
    IdsBounded(db) && ArtifactsResolve(db, h) && KeysUnique(db.targets) && VerdictsMatch(db)
  }

  /** Nothing that was recorded is ever changed: the audit log, the artifacts, the copies, the bundles. */
  ghost predicate Extends(db: Db, db': Db) {
    && db.nextId <= db'.nextId
    && db.audit <= db'.audit
    && (forall a :: a in db.artifacts ==> a in db'.artifacts && db'.artifacts[a] == db.artifacts[a])
    && (forall c :: c < db.nextId ==> (c in db'.copies <==> c in db.copies))
    && (forall c :: c < db.nextId && c in db.copies ==> db'.copies[c] == db.copies[c])
    && db.bundles <= db'.bundles
  }

  // ── Logging ──────────────────────────────────────────────────────────

  lemma LogKeeps(db: Db, h: Hash, who: Caller, policy: Option<Id>, action: Action)
    requires Sound(db, h)
    requires !action.TargetEdited? && !action.TargetApproved? && !action.TargetRejected?
    ensures Sound(Log(db, who, policy, action), h)
  {
    var e := AuditRow(who.user, who.tenant, policy, action);
    forall t | t in db.targets
      ensures VerdictMatches(db.audit + [e], db.copies, t, db.targets[t])
    {
      VerdictAppend(db.audit, e, db.copies, t);
    }
  }

  // ── Inserting ────────────────────────────────────────────────────────

  lemma PutRegoKeeps(db: Db, h: Hash, tenant: Id, text: string)
    requires Sound(db, h)
    ensures Sound(PutRego(db, h, tenant, text), h)
  {
    hide Verdict;
  }

  lemma InsertPolicyKeeps(db: Db, h: Hash, p: Policy)
    requires Sound(db, h)
    ensures Sound(InsertPolicy(db, p), h)
  {
    hide Verdict;
  }

  lemma InsertTargetKeeps(db: Db, h: Hash, t: Target)
    requires Sound(db, h)
    requires t.policy in db.policies && t.review != Approved && Resolves(db.artifacts, h, t)
    requires forall u :: u in db.targets && db.targets[u].policy == t.policy ==> TargetKey(db.targets[u]) != TargetKey(t)
    ensures Sound(InsertTarget(db, t), h)
  {
    VerdictFresh(db.audit, db.copies, db.nextId, |db.audit|);
    hide Verdict, Resolves, TargetKey;
  }

  lemma UploadKeeps(db: Db, h: Hash, who: Caller, name: string, bucket: string, raw: string, text: string)
    requires Sound(db, h)
    ensures Sound(WriteUpload(db, h, who, name, bucket, raw, text), h)
  {
    hide Verdict, Sound;
    var upload := db.nextId;
    var db1 := db.(artifacts := db.artifacts[upload := Artifact(who.tenant, text, h(raw))], nextId := upload + 1);
    PutUploadKeeps(db, h, Artifact(who.tenant, text, h(raw)));
    var p := Policy(who.tenant, name, bucket, ProseUpload, Some(PgUpload(upload)), None, None,
                    DEFAULT_VERSION, Draft, None, who.user);
    InsertPolicyKeeps(db1, h, p);
    LogKeeps(InsertPolicy(db1, p), h, who, Some(upload + 1), Uploaded(upload));
  }

  lemma PutUploadKeeps(db: Db, h: Hash, a: Artifact)
    requires Sound(db, h)
    ensures Sound(db.(artifacts := db.artifacts[db.nextId := a], nextId := db.nextId + 1), h)
  {
    hide Verdict;
  }

  lemma ForkKeeps(db: Db, h: Hash, who: Caller, name: string, bucket: string, ref: string, system: string, text: string)
    requires Sound(db, h)
    ensures Sound(WriteFork(db, h, who, name, bucket, ref, system, text), h)
  {
    var policy := db.nextId;
    var p := Policy(who.tenant, name, bucket, ForkedOverlay, None, None, Some(ref), DEFAULT_VERSION, Draft, None, who.user);
    InsertPolicyKeeps(db, h, p);
    PutRegoKeeps(InsertPolicy(db, p), h, who.tenant, text);
    var db1 := PutRego(InsertPolicy(db, p), h, who.tenant, text);
    var t := Target(policy, system, None, PgRego(policy + 1), h(text), CustomerAuthored, None, Pending, None);
    InsertTargetKeeps(db1, h, t);
    LogKeeps(InsertTarget(db1, t), h, who, Some(policy), Forked(h(text), system));
  }

  lemma DeleteKeyKeeps(db: Db, h: Hash, policy: Id, key: (string, string))
    requires Sound(db, h)
    ensures Sound(db.(targets := DeleteKey(db.targets, policy, key)), h)
  {
    hide Verdict, Resolves, TargetKey;
  }

  lemma GenerateOneKeeps(db: Db, h: Hash, tenant: Id, policy: Id, g: GeneratedRego)
    requires Sound(db, h) && policy in db.policies
    ensures Sound(GenerateOne(db, h, tenant, policy, g), h)
  {
    hide Sound;
    var db1 := PutRego(db, h, tenant, g.text);
    PutRegoKeeps(db, h, tenant, g.text);
    DeleteKeyKeeps(db1, h, policy, KeyOf(g.system, g.subtype));
    var db2 := db1.(targets := DeleteKey(db1.targets, policy, KeyOf(g.system, g.subtype)));
    InsertTargetKeeps(db2, h, GeneratedTarget(policy, g, db.nextId, h));
  }

  lemma {:induction false} GenerateAllKeeps(db: Db, h: Hash, tenant: Id, policy: Id, gens: seq<GeneratedRego>)
    requires Sound(db, h) && policy in db.policies
    ensures Sound(GenerateAll(db, h, tenant, policy, gens), h)
    ensures GenerateAll(db, h, tenant, policy, gens).policies == db.policies
  {
    hide Sound;
    if gens != [] {
      GenerateAllKeeps(db, h, tenant, policy, gens[..|gens| - 1]);
      GenerateOneKeeps(GenerateAll(db, h, tenant, policy, gens[..|gens| - 1]), h, tenant, policy, gens[|gens| - 1]);
    }
  }

  // ── Reviewing ────────────────────────────────────────────────────────

  lemma EditKeepsVerdicts(db: Db, h: Hash, who: Caller, policy: Id, target: Id, existing: Target, text: string)
    requires Sound(db, h)
    ensures VerdictsMatch(WriteEdit(db, h, who, policy, target, existing, text))
  {
    hide ArtifactsResolve, KeysUnique, Verdict;
    var db' := WriteEdit(db, h, who, policy, target, existing, text);
    var e := db'.audit[|db.audit|];
    forall t | t in db.targets
      ensures VerdictMatches(db'.audit, db'.copies, t, db'.targets[t])
    {
      VerdictAppend(db.audit, e, db.copies, t);
    }
  }

  lemma EditKeeps(db: Db, h: Hash, who: Caller, policy: Id, target: Id, existing: Target, text: string)
    requires Sound(db, h) && target < db.nextId
    ensures Sound(WriteEdit(db, h, who, policy, target, existing, text), h)
  {
    EditKeepsVerdicts(db, h, who, policy, target, existing, text);
    hide Verdict, VerdictsMatch;
  }

  /** Approving or rejecting changes one row's review and logs it. */
  lemma ReviewKeeps(db: Db, h: Hash, target: Id, review: Review, e: AuditRow)
    requires Sound(db, h) && target in db.targets
    requires (review == Approved && e.action == TargetApproved(target, db.targets[target].sha))
             || (review == Rejected && e.action == TargetRejected(target, db.targets[target].sha))
    ensures Sound(db.(targets := db.targets[target := db.targets[target].(review := review)],
                      audit := db.audit + [e]), h)
  {
    var targets := db.targets[target := db.targets[target].(review := review)];
    forall t | t in targets
      ensures VerdictMatches(db.audit + [e], db.copies, t, targets[t])
    {
      VerdictAppend(db.audit, e, db.copies, t);
    }
    hide Verdict, VerdictMatches;
  }

  lemma ApproveKeeps(db: Db, h: Hash, who: Caller, policy: Id, target: Id)
    requires Sound(db, h) && WriteApprove(db, who, policy, target).Ok?
    ensures Sound(WriteApprove(db, who, policy, target).value, h)
  {
    hide Sound;
    ReviewKeeps(db, h, target, Approved,
                AuditRow(who.user, who.tenant, Some(policy), TargetApproved(target, db.targets[target].sha)));
  }

  lemma RejectKeeps(db: Db, h: Hash, who: Caller, policy: Id, target: Id)
    requires Sound(db, h) && WriteReject(db, who, policy, target).Ok?
    ensures Sound(WriteReject(db, who, policy, target).value, h)
  {
    hide Sound;
    ReviewKeeps(db, h, target, Rejected,
                AuditRow(who.user, who.tenant, Some(policy), TargetRejected(target, db.targets[target].sha)));
  }

  lemma PolicyRowKeeps(db: Db, h: Hash, policy: Id, row: Policy)
    requires Sound(db, h) && policy in db.policies
    ensures Sound(db.(policies := db.policies[policy := row]), h)
  {
    hide Verdict;
  }

  // ── Republishing ─────────────────────────────────────────────────────

  /** The tables as an earlier statement saw them. */
  ghost predicate Earlier(seen: Db, db: Db, h: Hash) {
    Sound(seen, h) && Extends(seen, db)
  }

  lemma VerdictStays(db: Db, db': Db, t: Id, upto: nat)
    requires Extends(db, db') && t < db.nextId && upto <= |db.audit|
    ensures Verdict(db'.audit, db'.copies, t, upto) == Verdict(db.audit, db.copies, t, upto)
  {
    VerdictOldCopies(db'.audit, db.copies, db'.copies, db.nextId, t, upto);
    VerdictPrefix(db.audit, db'.audit, db.copies, t, upto);
  }

  lemma CopiesAreFresh(db: Db, parent: Id, child: Id, base: Id, n: Id)
    requires n in CopiedTargets(db, parent, child, base)
    ensures base <= n < base + db.nextId && n - base in db.targets
    ensures CopiedTargets(db, parent, child, base)[n] == db.targets[n - base].(policy := child, bundleSha := None)
  {
  }

  lemma CopiesExtend(db: Db, seen: Db, who: Caller, parent: Id, newVersion: string)
    requires parent in seen.policies
    ensures Extends(db, WriteCopies(db, seen, who, parent, newVersion))
  {
    hide CopiedTargets, TargetsOf;
    var child, base := db.nextId, db.nextId + 1;
    forall c | c < db.nextId
      ensures c !in CopiedTargets(seen, parent, child, base)
    {
      if c in CopiedTargets(seen, parent, child, base) { CopiesAreFresh(seen, parent, child, base, c); }
    }
  }

  /** Where a row of the new table comes from: it was there, or it copies a row that was seen. */
  lemma CopyOrigin(db: Db, seen: Db, who: Caller, parent: Id, newVersion: string, n: Id)
    requires parent in seen.policies && forall t :: t in seen.targets ==> t < seen.nextId
    ensures var db' := WriteCopies(db, seen, who, parent, newVersion);
            n in db'.targets && n <= db.nextId ==> n in db.targets && db'.targets[n] == db.targets[n]
    ensures var db' := WriteCopies(db, seen, who, parent, newVersion);
            n in db'.targets && n > db.nextId && n !in db.targets ==>
              var s := n - (db.nextId + 1);
              && s in seen.targets && s < seen.nextId
              && db'.targets[n] == seen.targets[s].(policy := db.nextId, bundleSha := None)
              && n in db'.copies && db'.copies[n] == Copy(s, |seen.audit|)
    ensures var db' := WriteCopies(db, seen, who, parent, newVersion);
            |db'.audit| == |db.audit| + 1 && db'.audit[|db.audit|].action.RepublishedFrom?
            && db'.audit[..|db.audit|] == db.audit
  {
    hide CopiedTargets, TargetsOf;
    var child, base := db.nextId, db.nextId + 1;
    if n in CopiedTargets(seen, parent, child, base) { CopiesAreFresh(seen, parent, child, base, n); }
  }

  lemma SkipLast(audit: seq<AuditRow>, copies: map<Id, Copy>, t: Id)
    requires audit != [] && audit[|audit| - 1].action.RepublishedFrom?
    ensures Verdict(audit, copies, t, |audit|) == Verdict(audit, copies, t, |audit| - 1)
  {
  }

  lemma OldVerdict(db: Db, seen: Db, who: Caller, parent: Id, newVersion: string, n: Id)
    requires parent in seen.policies && n < db.nextId && forall t :: t in seen.targets ==> t < seen.nextId
    ensures var db' := WriteCopies(db, seen, who, parent, newVersion);
            Verdict(db'.audit, db'.copies, n, |db'.audit|) == Verdict(db.audit, db.copies, n, |db.audit|)
  {
    CopiesExtend(db, seen, who, parent, newVersion);
    CopyOrigin(db, seen, who, parent, newVersion, n);
    hide *;
    var db' := WriteCopies(db, seen, who, parent, newVersion);
    VerdictStays(db, db', n, |db.audit|);
    SkipLast(db'.audit, db'.copies, n);
  }

  lemma CopiesLog(db: Db, seen: Db, who: Caller, parent: Id, newVersion: string)
    requires MentionsBounded(db.audit, db.nextId) && parent in seen.policies
    ensures MentionsBounded(WriteCopies(db, seen, who, parent, newVersion).audit, db.nextId)
  {
    hide CopiedTargets, TargetsOf;
    var audit := WriteCopies(db, seen, who, parent, newVersion).audit;
    assert audit[..|db.audit|] == db.audit && audit[|db.audit|].action.RepublishedFrom?;
    hide WriteCopies;
    forall j, t: Id | 0 <= j < |audit| && Mentions(audit[j], t) ensures t < db.nextId {
      if j < |db.audit| { assert audit[j] == db.audit[j]; }
    }
  }

  /** A copy's verdict is the one that its source had when it was read. */
  lemma CopyVerdict(db: Db, seen: Db, h: Hash, who: Caller, parent: Id, newVersion: string, n: Id)
    requires IdsBounded(db) && Earlier(seen, db, h) && parent in seen.policies
    requires n > db.nextId && n !in db.targets && n in WriteCopies(db, seen, who, parent, newVersion).targets
    ensures var db' := WriteCopies(db, seen, who, parent, newVersion);
            VerdictMatches(db'.audit, db'.copies, n, db'.targets[n])
  {
    hide *;
    var db' := WriteCopies(db, seen, who, parent, newVersion);
    var s := n - (db.nextId + 1);
    EarlierIsBounded(seen, db, h);
    MentionsAreBounded(db);
    CopyOrigin(db, seen, who, parent, newVersion, n);
    CopiesExtend(db, seen, who, parent, newVersion);
    CopiesLog(db, seen, who, parent, newVersion);
    SeenVerdict(seen, h, s);
    CopyVerdictChain(db', db, seen, n, s);
    SameVerdict(db'.audit, db'.copies, n, db'.targets[n], seen.audit, seen.copies, s, seen.targets[s]);
  }

  lemma EarlierIsBounded(seen: Db, db: Db, h: Hash)
    requires Earlier(seen, db, h)
    ensures Sound(seen, h) && Extends(seen, db) && |seen.audit| <= |db.audit| && seen.nextId <= db.nextId
    ensures forall t :: t in seen.targets ==> t < seen.nextId
  {
  }

  lemma MentionsAreBounded(db: Db)
    requires IdsBounded(db)
    ensures MentionsBounded(db.audit, db.nextId)
  {
  }

  lemma SeenVerdict(seen: Db, h: Hash, s: Id)
    requires Sound(seen, h) && s in seen.targets
    ensures VerdictMatches(seen.audit, seen.copies, s, seen.targets[s])
  {
    hide Verdict;
  }

  lemma SameVerdict(audit: seq<AuditRow>, copies: map<Id, Copy>, t: Id, row: Target,
                    audit': seq<AuditRow>, copies': map<Id, Copy>, t': Id, row': Target)
    requires VerdictMatches(audit', copies', t', row') && row.review == row'.review && row.sha == row'.sha
    requires Verdict(audit, copies, t, |audit|) == Verdict(audit', copies', t', |audit'|)
    ensures VerdictMatches(audit, copies, t, row)
  {
  }

  lemma CopyVerdictChain(db': Db, db: Db, seen: Db, n: Id, s: Id)
    requires Extends(seen, db) && Extends(db, db') && s < seen.nextId && s < n
    requires n in db'.copies && db'.copies[n] == Copy(s, |seen.audit|)
    requires |seen.audit| <= |db.audit| && MentionsBounded(db'.audit, db.nextId) && n >= db.nextId
    ensures Verdict(db'.audit, db'.copies, n, |db'.audit|) == Verdict(seen.audit, seen.copies, s, |seen.audit|)
  {
    var at := |seen.audit|;
    assert at <= |db'.audit|;
    ExtendsTransitive(seen, db, db');
    VerdictStays(seen, db', s, at);
    forall j: nat | at <= j < |db'.audit| ensures !Mentions(db'.audit[j], n) {}
    hide *;
    VerdictOfCopy(db'.audit, db'.copies, n, at);
    VerdictSince(db'.audit, db'.copies, n, at, |db'.audit|);
  }

  lemma CopyKeepsKey(db: Db, parent: Id, child: Id, base: Id, n: Id)
    requires n in CopiedTargets(db, parent, child, base)
    ensures n - base in db.targets && db.targets[n - base].policy == parent
    ensures CopiedTargets(db, parent, child, base)[n].policy == child
    ensures TargetKey(CopiedTargets(db, parent, child, base)[n]) == TargetKey(db.targets[n - base])
  {
    assert IsCopy(db, parent, base, n);
  }

  lemma CopiedKeysUnique(db: Db, seen: Db, parent: Id)
    requires IdsBounded(db) && KeysUnique(db.targets) && KeysUnique(seen.targets) && parent in seen.policies
    ensures KeysUnique(db.targets + CopiedTargets(seen, parent, db.nextId, db.nextId + 1))
  {
    hide MentionsBounded, TargetKey;
    var base := db.nextId + 1;
    forall n | n in CopiedTargets(seen, parent, db.nextId, base)
      ensures n - base in seen.targets && CopiedTargets(seen, parent, db.nextId, base)[n].policy == db.nextId
      ensures TargetKey(CopiedTargets(seen, parent, db.nextId, base)[n]) == TargetKey(seen.targets[n - base])
      ensures seen.targets[n - base].policy == parent
    {
      CopyKeepsKey(seen, parent, db.nextId, base, n);
    }
    hide CopiedTargets;
    var all := db.targets + CopiedTargets(seen, parent, db.nextId, base);
    forall t, u | t in all && u in all
                  && all[t].policy == all[u].policy && TargetKey(all[t]) == TargetKey(all[u])
      ensures t == u
    {
      if t !in db.targets && u !in db.targets {
        assert t - base in seen.targets && u - base in seen.targets;
      }
    }
  }

  lemma CopiesKeepRows(db: Db, seen: Db, who: Caller, parent: Id, newVersion: string)
    requires IdsBounded(db) && parent in seen.policies && seen.nextId <= db.nextId && |seen.audit| <= |db.audit|
    ensures var db' := WriteCopies(db, seen, who, parent, newVersion);
            && (forall t :: t in db'.targets ==> t < db'.nextId && db'.targets[t].policy in db'.policies)
            && (forall c :: c in db'.copies ==> db'.copies[c].source < c < db'.nextId && db'.copies[c].at <= |db'.audit|)
  {
    hide CopiedTargets, TargetsOf, Mentions;
    var child, base := db.nextId, db.nextId + 1;
    forall n | n in CopiedTargets(seen, parent, child, base)
      ensures base <= n < base + seen.nextId && n - base in seen.targets
      ensures CopiedTargets(seen, parent, child, base)[n].policy == child
    {
      CopiesAreFresh(seen, parent, child, base, n);
    }
  }

  lemma CopiesKeepIds(db: Db, seen: Db, who: Caller, parent: Id, newVersion: string)
    requires IdsBounded(db) && IdsBounded(seen) && parent in seen.policies
    requires seen.nextId <= db.nextId && |seen.audit| <= |db.audit|
    ensures IdsBounded(WriteCopies(db, seen, who, parent, newVersion))
  {
    hide *;
    var db' := WriteCopies(db, seen, who, parent, newVersion);
    MentionsAreBounded(db);
    CopiesKeepRows(db, seen, who, parent, newVersion);
    CopiesKeepKeys(db, seen, who, parent, newVersion);
    CopiesLog(db, seen, who, parent, newVersion);
    MentionsWiden(db'.audit, db.nextId, db'.nextId);
    AllBounded(db');
  }

  lemma CopiesKeepKeys(db: Db, seen: Db, who: Caller, parent: Id, newVersion: string)
    requires IdsBounded(db) && parent in seen.policies
    ensures var db' := WriteCopies(db, seen, who, parent, newVersion);
            && (forall p :: p in db'.policies ==> p < db'.nextId)
            && (forall a :: a in db'.artifacts ==> a < db'.nextId)
            && db.nextId <= db'.nextId
  {
    hide CopiedTargets, TargetsOf, MentionsBounded;
  }

  lemma AllBounded(db: Db)
    requires forall p :: p in db.policies ==> p < db.nextId
    requires forall t :: t in db.targets ==> t < db.nextId && db.targets[t].policy in db.policies
    requires forall a :: a in db.artifacts ==> a < db.nextId
    requires forall c :: c in db.copies ==> db.copies[c].source < c < db.nextId && db.copies[c].at <= |db.audit|
    requires MentionsBounded(db.audit, db.nextId)
    ensures IdsBounded(db)
  {
  }

  lemma MentionsWiden(audit: seq<AuditRow>, bound: Id, bound': Id)
    requires MentionsBounded(audit, bound) && bound <= bound'
    ensures MentionsBounded(audit, bound')
  {
  }

  lemma CopiesKeepArtifacts(db: Db, seen: Db, h: Hash, who: Caller, parent: Id, newVersion: string)
    requires ArtifactsResolve(db, h) && ArtifactsResolve(seen, h) && Extends(seen, db) && parent in seen.policies
    ensures ArtifactsResolve(WriteCopies(db, seen, who, parent, newVersion), h)
  {
    hide CopiedTargets, TargetsOf;
    var child, base := db.nextId, db.nextId + 1;
    forall n | n in CopiedTargets(seen, parent, child, base)
      ensures Resolves(db.artifacts, h, CopiedTargets(seen, parent, child, base)[n])
    {
      CopiesAreFresh(seen, parent, child, base, n);
      assert Resolves(seen.artifacts, h, seen.targets[n - base]);
    }
  }

  /** Whatever committed between the SELECT of a republish and its end, the republish keeps the tables sound. */
  lemma CopiesKeepSound(db: Db, seen: Db, h: Hash, who: Caller, parent: Id, newVersion: string)
    requires Sound(db, h) && Earlier(seen, db, h) && parent in seen.policies
    ensures Sound(WriteCopies(db, seen, who, parent, newVersion), h)
  {
    hide IdsBounded, KeysUnique, VerdictMatches, ArtifactsResolve, CopiedTargets, TargetsOf;
    assert parent in seen.policies && seen.nextId <= db.nextId && |seen.audit| <= |db.audit|;
    CopiedKeysUnique(db, seen, parent);
    CopiesKeepIds(db, seen, who, parent, newVersion);
    CopiesKeepArtifacts(db, seen, h, who, parent, newVersion);
    hide Extends;
    var db' := WriteCopies(db, seen, who, parent, newVersion);
    forall n | n in db'.targets
      ensures VerdictMatches(db'.audit, db'.copies, n, db'.targets[n])
    {
      CopiesKeepVerdict(db, seen, h, who, parent, newVersion, n);
    }
  }

  lemma CopiesKeepVerdict(db: Db, seen: Db, h: Hash, who: Caller, parent: Id, newVersion: string, n: Id)
    requires Sound(db, h) && Earlier(seen, db, h) && parent in seen.policies
    requires n in WriteCopies(db, seen, who, parent, newVersion).targets
    ensures var db' := WriteCopies(db, seen, who, parent, newVersion);
            VerdictMatches(db'.audit, db'.copies, n, db'.targets[n])
  {
    hide *;
    EarlierIsBounded(seen, db, h);
    SoundIds(db, h);
    CopyOrigin(db, seen, who, parent, newVersion, n);
    var db' := WriteCopies(db, seen, who, parent, newVersion);
    if n > db.nextId && n !in db.targets {
      CopyVerdict(db, seen, h, who, parent, newVersion, n);
    } else {
      OldRowStays(db, seen, who, parent, newVersion, n);
      SeenVerdict(db, h, n);
      OldVerdict(db, seen, who, parent, newVersion, n);
      SameVerdict(db'.audit, db'.copies, n, db'.targets[n], db.audit, db.copies, n, db.targets[n]);
    }
  }

  lemma OldRowStays(db: Db, seen: Db, who: Caller, parent: Id, newVersion: string, n: Id)
    requires IdsBounded(db) && parent in seen.policies && n in WriteCopies(db, seen, who, parent, newVersion).targets
    requires n <= db.nextId || n in db.targets
    ensures n in db.targets && n < db.nextId && WriteCopies(db, seen, who, parent, newVersion).targets[n] == db.targets[n]
  {
    hide CopiedTargets, TargetsOf, MentionsBounded;
    if n in CopiedTargets(seen, parent, db.nextId, db.nextId + 1) {
      CopiesAreFresh(seen, parent, db.nextId, db.nextId + 1, n);
    }
  }

  lemma SoundIds(db: Db, h: Hash)
    requires Sound(db, h)
    ensures IdsBounded(db)
  {
  }

  lemma ExtendsReflexive(db: Db)
    ensures Extends(db, db)
  {
  }

  lemma ExtendsTransitive(a: Db, b: Db, c: Db)
    requires Extends(a, b) && Extends(b, c)
    ensures Extends(a, c)
  {
  }

  lemma RepublishExtends(db: Db, who: Caller, parent: Id, newVersion: string)
    requires parent in db.policies
    ensures Extends(db, WriteRepublish(db, who, parent, newVersion))
  {
    hide WriteCopies;
    CopiesExtend(db, db, who, parent, newVersion);
  }

  lemma RepublishKeeps(db: Db, h: Hash, who: Caller, parent: Id, newVersion: string)
    requires Sound(db, h) && parent in db.policies
    ensures Sound(WriteRepublish(db, who, parent, newVersion), h)
  {
    hide WriteCopies, Sound;
    ExtendsReflexive(db);
    CopiesKeepSound(db, db, h, who, parent, newVersion);
  }

}
