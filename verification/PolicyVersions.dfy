/** What regenerating does to a policy's targets, and what republishing does to its version. */
module PolicyVersions {
  import opened Common
  import opened RegoGenerator
  import opened PolicyStore
  import opened PolicyProofs
  import opened PolicyHandlers
  import PolicyRuns
  import Semver

  // ── Regeneration ─────────────────────────────────────────────────────

  /** The last result of a generation for a key. */
  function LastFor(gens: seq<GeneratedRego>, key: (string, string)): Option<GeneratedRego> {
    if gens == [] then None
    else
      var last := gens[|gens| - 1];
      if KeyOf(last.system, last.subtype) == key then Some(last) else LastFor(gens[..|gens| - 1], key)
  }

  /** A target row that holds a generation result. */
  ghost predicate Holds(db: Db, h: Hash, row: Target, policy: Id, g: GeneratedRego) {
    && row.policy == policy && row.system == g.system && row.subtype == g.subtype
    && row.key.PgRego? && row.key.id in db.artifacts && db.artifacts[row.key.id].text == g.text
    && row.sha == h(g.text) && row.generation == g.generation && row.confidence == g.confidence
    && row.review == (if g.pending then Pending else Rejected)
    && row.bundleSha == None
  }

  /** After generating, a key that was generated holds its last result, and any other row is an old one. */
  ghost predicate Regenerated(db: Db, db': Db, h: Hash, policy: Id, gens: seq<GeneratedRego>, t: Id)
    requires t in db'.targets
  {
    var row := db'.targets[t];
    var g := if row.policy == policy then LastFor(gens, TargetKey(row)) else None;
    if g.Some? then t >= db.nextId && Holds(db', h, row, policy, g.value)
    else t in db.targets && db.targets[t] == row
  }

  lemma GenerateOneRow(db: Db, mid: Db, h: Hash, tenant: Id, policy: Id, gens: seq<GeneratedRego>, t: Id)
    requires gens != [] && db.nextId <= mid.nextId
    requires forall a :: a in mid.artifacts ==> a < mid.nextId
    requires forall u :: u in mid.targets ==> u < mid.nextId && Regenerated(db, mid, h, policy, gens[..|gens| - 1], u)
    requires t in GenerateOne(mid, h, tenant, policy, gens[|gens| - 1]).targets
    ensures Regenerated(db, GenerateOne(mid, h, tenant, policy, gens[|gens| - 1]), h, policy, gens, t)
  {
    if t in mid.targets {
      assert Regenerated(db, mid, h, policy, gens[..|gens| - 1], t);
    }
  }

  lemma {:induction false} GenerateBounds(db: Db, h: Hash, tenant: Id, policy: Id, gens: seq<GeneratedRego>)
    requires IdsBounded(db)
    ensures var db' := GenerateAll(db, h, tenant, policy, gens);
            && db.nextId <= db'.nextId
            && (forall a :: a in db'.artifacts ==> a < db'.nextId)
            && (forall t :: t in db'.targets ==> t < db'.nextId)
  {
    if gens != [] { GenerateBounds(db, h, tenant, policy, gens[..|gens| - 1]); }
  }

  /** A generate call leaves each generated key with exactly its last result and makes no other row. */
  lemma {:induction false} GenerateLeavesLast(db: Db, h: Hash, tenant: Id, policy: Id, gens: seq<GeneratedRego>)
    requires IdsBounded(db) && policy in db.policies
    ensures var db' := GenerateAll(db, h, tenant, policy, gens);
            forall t :: t in db'.targets ==> Regenerated(db, db', h, policy, gens, t)
  {
    if gens != [] {
      hide Regenerated, GenerateOne;
      var mid := GenerateAll(db, h, tenant, policy, gens[..|gens| - 1]);
      GenerateLeavesLast(db, h, tenant, policy, gens[..|gens| - 1]);
      GenerateBounds(db, h, tenant, policy, gens[..|gens| - 1]);
      forall t | t in GenerateAll(db, h, tenant, policy, gens).targets
        ensures Regenerated(db, GenerateAll(db, h, tenant, policy, gens), h, policy, gens, t)
      {
        GenerateOneRow(db, mid, h, tenant, policy, gens, t);
      }
    } else {
      assert GenerateAll(db, h, tenant, policy, gens) == db;
    }
  }

  /** The results that passed their check, and those that did not. */
  function PendingOf(gens: seq<GeneratedRego>): set<int> {
    set i | 0 <= i < |gens| && gens[i].pending
  }

  function RejectedOf(gens: seq<GeneratedRego>): set<int> {
    set i | 0 <= i < |gens| && !gens[i].pending
  }

  lemma {:induction false} PendingCounted(gens: seq<GeneratedRego>)
    ensures CountPending(gens) == |PendingOf(gens)| && |gens| - CountPending(gens) == |RejectedOf(gens)|
  {
    if gens != [] {
      PendingCounted(gens[..|gens| - 1]);
      PendingStep(gens);
      hide PendingOf, RejectedOf;
    }
  }

  lemma PendingStep(gens: seq<GeneratedRego>)
    requires gens != []
    ensures var front, n := gens[..|gens| - 1], |gens| - 1;
            && n !in PendingOf(front) && n !in RejectedOf(front)
            && PendingOf(gens) == PendingOf(front) + (if gens[n].pending then {n} else {})
            && RejectedOf(gens) == RejectedOf(front) + (if gens[n].pending then {} else {n})
  {
  }

  /** The audit row of a generate call counts its results, those put up for review, and the others. */
  lemma GenerateIsCounted(db: Db, h: Hash, who: Caller, policy: Id, gens: seq<GeneratedRego>)
    requires IdsBounded(db) && Handle(db, h, who, GenerateRego(policy, gens)).Ok?
    ensures Handle(db, h, who, GenerateRego(policy, gens)).value.audit
            == db.audit + [AuditRow(who.user, who.tenant, Some(policy),
                                    RegoGenerated(|gens|, |PendingOf(gens)|, |RejectedOf(gens)|))]
  {
    PendingCounted(gens);
    GenerateLeavesAudit(db, h, who.tenant, policy, gens);
    hide PendingOf, RejectedOf, CountPending, IdsBounded;
  }

  lemma {:induction false} GenerateLeavesAudit(db: Db, h: Hash, tenant: Id, policy: Id, gens: seq<GeneratedRego>)
    ensures GenerateAll(db, h, tenant, policy, gens).audit == db.audit
  {
    if gens != [] { GenerateLeavesAudit(db, h, tenant, policy, gens[..|gens| - 1]); }
  }

  ghost predicate HasKey(db: Db, policy: Id, key: (string, string)) {
    exists t :: Owns(db, policy, t) && TargetKey(db.targets[t]) == key
  }

  /** It keeps every row whose key it did not generate, and every generated key has a row. */
  lemma {:induction false} GenerateKeepsTheRest(
      db: Db, h: Hash, tenant: Id, policy: Id, gens: seq<GeneratedRego>, key: (string, string))
    requires IdsBounded(db)
    ensures var db' := GenerateAll(db, h, tenant, policy, gens);
            && (forall t :: t in db.targets && !(db.targets[t].policy == policy && LastFor(gens, TargetKey(db.targets[t])).Some?)
                  ==> t in db'.targets && db'.targets[t] == db.targets[t])
            && (LastFor(gens, key).Some? ==> HasKey(db', policy, key))
  {
    if gens != [] {
      hide TargetKey;
      var front, last := gens[..|gens| - 1], gens[|gens| - 1];
      GenerateKeepsTheRest(db, h, tenant, policy, front, key);
      GenerateBounds(db, h, tenant, policy, front);
      var mid, db' := GenerateAll(db, h, tenant, policy, front), GenerateAll(db, h, tenant, policy, gens);
      GeneratedKey(policy, last, mid.nextId, h);
      if KeyOf(last.system, last.subtype) == key {
        assert db'.targets[mid.nextId + 1] == GeneratedTarget(policy, last, mid.nextId, h);
        assert Owns(db', policy, mid.nextId + 1) && TargetKey(db'.targets[mid.nextId + 1]) == key;
        assert HasKey(db', policy, key);
      } else if t: Id :| Owns(mid, policy, t) && TargetKey(mid.targets[t]) == key {
        assert Owns(db', policy, t) && TargetKey(db'.targets[t]) == key;
      } else {
        assert LastFor(gens, key) == LastFor(front, key);
      }
    }
  }

  lemma KeyWasThere(db: Db, h: Hash, tenant: Id, policy: Id, gens: seq<GeneratedRego>, key: (string, string))
    requires IdsBounded(db) && policy in db.policies
    requires HasKey(GenerateAll(db, h, tenant, policy, gens), policy, key) && LastFor(gens, key).None?
    ensures HasKey(db, policy, key)
  {
    hide GenerateAll, IdsBounded, TargetKey;
    var db' := GenerateAll(db, h, tenant, policy, gens);
    GenerateLeavesLast(db, h, tenant, policy, gens);
    var t: Id :| Owns(db', policy, t) && TargetKey(db'.targets[t]) == key;
    assert t in db.targets && db.targets[t] == db'.targets[t];
    assert Owns(db, policy, t) && TargetKey(db.targets[t]) == key;
  }

  /** After a generate call the policy has a key exactly when it was generated or was there before. */
  lemma GenerateKeysIff(db: Db, h: Hash, tenant: Id, policy: Id, gens: seq<GeneratedRego>, key: (string, string))
    requires IdsBounded(db) && policy in db.policies
    ensures HasKey(GenerateAll(db, h, tenant, policy, gens), policy, key) <==>
            HasKey(db, policy, key) || LastFor(gens, key).Some?
  {
    var db' := GenerateAll(db, h, tenant, policy, gens);
    GenerateKeepsTheRest(db, h, tenant, policy, gens, key);
    hide GenerateAll, IdsBounded, TargetKey, Regenerated;
    if HasKey(db', policy, key) && LastFor(gens, key).None? { KeyWasThere(db, h, tenant, policy, gens, key); }
    if t: Id :| Owns(db, policy, t) && TargetKey(db.targets[t]) == key {
      if LastFor(gens, key).None? { assert Owns(db', policy, t) && TargetKey(db'.targets[t]) == key; }
    }
  }

  lemma GeneratedKey(policy: Id, g: GeneratedRego, artifact: Id, h: Hash)
    ensures TargetKey(GeneratedTarget(policy, g, artifact, h)) == KeyOf(g.system, g.subtype)
  {
  }

  // ── One row per result? ──────────────────────────────────────────────

  /** The target rows that came since. */
  function Fresh(db: Db, db': Db): set<Id> { set t | t in db'.targets && t >= db.nextId }

  function ResultKey(g: GeneratedRego): (string, string) { KeyOf(g.system, g.subtype) }

  function ResultKeys(gens: seq<GeneratedRego>): set<(string, string)> { set g | g in gens :: ResultKey(g) }

  /** No two results of the call have one (system, subtype-or-empty) key. */
  ghost predicate KeysDiffer(gens: seq<GeneratedRego>) {
    forall i, j :: 0 <= i < j < |gens| ==> ResultKey(gens[i]) != ResultKey(gens[j])
  }

  lemma {:induction false} LastForIff(gens: seq<GeneratedRego>, key: (string, string))
    ensures LastFor(gens, key).Some? <==> key in ResultKeys(gens)
  {
    if gens != [] {
      LastForIff(gens[..|gens| - 1], key);
      ResultKeysStep(gens);
    }
  }

  lemma ResultKeysStep(gens: seq<GeneratedRego>)
    requires gens != []
    ensures ResultKeys(gens) == ResultKeys(gens[..|gens| - 1]) + {ResultKey(gens[|gens| - 1])}
  {
    assert forall g :: g in gens <==> g in gens[..|gens| - 1] || g == gens[|gens| - 1];
  }

  lemma KeysDifferStep(gens: seq<GeneratedRego>)
    requires gens != []
    ensures var front, last := gens[..|gens| - 1], gens[|gens| - 1];
            KeysDiffer(gens) <==> KeysDiffer(front) && ResultKey(last) !in ResultKeys(front)
  {
    var front, last := gens[..|gens| - 1], gens[|gens| - 1];
    hide ResultKey;
    if KeysDiffer(front) && ResultKey(last) !in ResultKeys(front) {
      assert forall i :: 0 <= i < |front| ==> front[i] in front && ResultKey(front[i]) in ResultKeys(front);
    }
    if KeysDiffer(gens) {
      forall g | g in front ensures ResultKey(g) != ResultKey(last) {
        var i :| 0 <= i < |front| && front[i] == g;
        assert gens[i] == g;
      }
    }
  }

  /** There are as many keys as results exactly when the keys differ. */
  lemma {:induction false} KeyCount(gens: seq<GeneratedRego>)
    ensures |ResultKeys(gens)| <= |gens|
    ensures |ResultKeys(gens)| == |gens| <==> KeysDiffer(gens)
  {
    if gens != [] {
      var front, last := gens[..|gens| - 1], gens[|gens| - 1];
      KeyCount(front);
      ResultKeysStep(gens);
      KeysDifferStep(gens);
      hide ResultKeys, KeysDiffer, ResultKey;
    }
  }

  /** Rows of a policy that come since have different keys. */
  ghost predicate FreshOnce(db: Db, db': Db) {
    forall t, u :: t in Fresh(db, db') && u in Fresh(db, db') && TargetKey(db'.targets[t]) == TargetKey(db'.targets[u]) ==> t == u
  }

  ghost predicate FreshOwned(db: Db, db': Db, policy: Id) {
    forall t :: t in Fresh(db, db') ==> db'.targets[t].policy == policy
  }

  lemma FreshStep(db: Db, mid: Db, h: Hash, tenant: Id, policy: Id, g: GeneratedRego)
    requires FreshOnce(db, mid) && FreshOwned(db, mid, policy)
    ensures FreshOnce(db, GenerateOne(mid, h, tenant, policy, g)) && FreshOwned(db, GenerateOne(mid, h, tenant, policy, g), policy)
  {
    GeneratedKey(policy, g, mid.nextId, h);
    hide TargetKey;
  }

  lemma {:induction false} FreshRowsDiffer(db: Db, h: Hash, tenant: Id, policy: Id, gens: seq<GeneratedRego>)
    requires IdsBounded(db)
    ensures FreshOnce(db, GenerateAll(db, h, tenant, policy, gens)) && FreshOwned(db, GenerateAll(db, h, tenant, policy, gens), policy)
  {
    if gens == [] {
      assert Fresh(db, db) == {};
    } else {
      hide FreshOnce, FreshOwned, GenerateOne, IdsBounded;
      FreshRowsDiffer(db, h, tenant, policy, gens[..|gens| - 1]);
      FreshStep(db, GenerateAll(db, h, tenant, policy, gens[..|gens| - 1]), h, tenant, policy, gens[|gens| - 1]);
    }
  }

  function FreshKeys(db: Db, db': Db): set<(string, string)> { set t | t in Fresh(db, db') :: TargetKey(db'.targets[t]) }

  /** The keys of the fresh rows are exactly the generated ones. */
  lemma FreshKeysAreGenerated(db: Db, h: Hash, tenant: Id, policy: Id, gens: seq<GeneratedRego>)
    requires IdsBounded(db) && policy in db.policies
    ensures FreshKeys(db, GenerateAll(db, h, tenant, policy, gens)) == ResultKeys(gens)
  {
    var db' := GenerateAll(db, h, tenant, policy, gens);
    forall key ensures key in FreshKeys(db, db') <==> key in ResultKeys(gens) {
      FreshKeyIff(db, h, tenant, policy, gens, key);
    }
  }

  lemma FreshKeyIff(db: Db, h: Hash, tenant: Id, policy: Id, gens: seq<GeneratedRego>, key: (string, string))
    requires IdsBounded(db) && policy in db.policies
    ensures key in FreshKeys(db, GenerateAll(db, h, tenant, policy, gens)) <==> key in ResultKeys(gens)
  {
    var db' := GenerateAll(db, h, tenant, policy, gens);
    LastForIff(gens, key);
    GenerateKeepsTheRest(db, h, tenant, policy, gens, key);
    assert forall t :: t in db.targets ==> t < db.nextId;
    hide GenerateAll, IdsBounded, TargetKey, ResultKeys, LastFor;
    if key in FreshKeys(db, db') {
      var t :| t in Fresh(db, db') && TargetKey(db'.targets[t]) == key;
      RowIsRegenerated(db, h, tenant, policy, gens, t);
    }
    if key in ResultKeys(gens) {
      var t: Id :| Owns(db', policy, t) && TargetKey(db'.targets[t]) == key;
      RowIsRegenerated(db, h, tenant, policy, gens, t);
      assert t in Fresh(db, db');
    }
  }

  lemma RowIsRegenerated(db: Db, h: Hash, tenant: Id, policy: Id, gens: seq<GeneratedRego>, t: Id)
    requires IdsBounded(db) && policy in db.policies && t in GenerateAll(db, h, tenant, policy, gens).targets
    ensures Regenerated(db, GenerateAll(db, h, tenant, policy, gens), h, policy, gens, t)
  {
    hide Regenerated;
    GenerateLeavesLast(db, h, tenant, policy, gens);
  }

  lemma {:induction false} AsManyKeys(rows: map<Id, Target>, ids: set<Id>)
    requires ids <= rows.Keys
    requires forall t, u :: t in ids && u in ids && TargetKey(rows[t]) == TargetKey(rows[u]) ==> t == u
    ensures |set t | t in ids :: TargetKey(rows[t])| == |ids|
    decreases |ids|
  {
    hide TargetKey;
    var keys := set t | t in ids :: TargetKey(rows[t]);
    if t :| t in ids {
      AsManyKeys(rows, ids - {t});
      var rest := set u | u in ids - {t} :: TargetKey(rows[u]);
      assert keys == rest + {TargetKey(rows[t])};
      assert TargetKey(rows[t]) !in rest;
    }
  }

  /**
    A generate call leaves one row for each of its results, as the response and the audit row
    count them, exactly when no two results have one key; otherwise it leaves fewer.
   */
  lemma EachResultHasItsRowIff(db: Db, h: Hash, who: Caller, policy: Id, gens: seq<GeneratedRego>)
    requires IdsBounded(db) && policy in db.policies
    ensures var db' := WriteGenerate(db, h, who, policy, gens);
            && |Fresh(db, db')| <= |gens|
            && (|Fresh(db, db')| == |gens| <==> KeysDiffer(gens))
            && |db'.audit| == |db.audit| + 1 && db'.audit[|db.audit|].action.RegoGenerated?
            && db'.audit[|db.audit|].action.total == |gens|
  {
    var db' := GenerateAll(db, h, who.tenant, policy, gens);
    PolicyRuns.GenerateExtends(db, h, who.tenant, policy, gens);
    FreshRowsDiffer(db, h, who.tenant, policy, gens);
    FreshKeysAreGenerated(db, h, who.tenant, policy, gens);
    AsManyKeys(db'.targets, Fresh(db, db'));
    KeyCount(gens);
    hide GenerateAll, FreshOnce, KeysDiffer, ResultKeys, TargetKey;
  }

  // ── Versions ─────────────────────────────────────────────────────────

  ghost predicate SameIdentity(db: Db, db': Db, p: Id)
    requires p in db.policies
  {
    p in db'.policies && db'.policies[p].version == db.policies[p].version
    && db'.policies[p].name == db.policies[p].name && db'.policies[p].tenant == db.policies[p].tenant
  }

  lemma {:induction false} GenerateKeepsPolicies(db: Db, h: Hash, tenant: Id, policy: Id, gens: seq<GeneratedRego>)
    ensures GenerateAll(db, h, tenant, policy, gens).policies == db.policies
  {
    if gens != [] { GenerateKeepsPolicies(db, h, tenant, policy, gens[..|gens| - 1]); }
  }

  /** No handler changes the version or the name of a policy that exists. */
  lemma VersionIsFixed(db: Db, h: Hash, who: Caller, req: Request, p: Id)
    requires IdsBounded(db) && p in db.policies && Handle(db, h, who, req).Ok?
    ensures SameIdentity(db, Handle(db, h, who, req).value, p)
  {
    if req.GenerateRego? { GenerateKeepsPolicies(db, h, who.tenant, req.policy, req.gens); }
  }

  lemma {:induction false} VersionStays(db: Db, h: Hash, calls: seq<Call>, p: Id)
    requires Sound(db, h) && p in db.policies
    ensures Sound(HandleAll(db, h, calls), h)
    ensures SameIdentity(db, HandleAll(db, h, calls), p)
  {
    if calls != [] {
      hide Sound, Handle;
      var front, last := calls[..|calls| - 1], calls[|calls| - 1];
      VersionStays(db, h, front, p);
      var mid := HandleAll(db, h, front);
      if Handle(mid, h, last.who, last.req).Ok? {
        SoundHasIds(mid, h);
        VersionIsFixed(mid, h, last.who, last.req, p);
        HandleKeepsSound(mid, h, last.who, last.req);
      }
    }
  }

  /** A republish of a published policy without a version is accepted exactly when its version parses and the next patch is free. */
  lemma AutoRepublishIff(db: Db, h: Hash, who: Caller, p: Id)
    requires PolicyVisible(db, p, who.tenant) && db.policies[p].status == Published
    ensures Handle(db, h, who, RepublishPolicy(p, None)).Ok? <==>
            && Semver.Parse(db.policies[p].version).Some?
            && !VersionTaken(db, who.tenant, db.policies[p].name, Semver.BumpPatch(db.policies[p].version).value)
  {
    Semver.BumpRaisesPatch(db.policies[p].version);
    hide Semver.BumpPatch, Semver.Parse, VersionTaken, WriteRepublish;
  }

  /** An accepted republish without a version makes a draft of the same name with the bumped version, which was free. */
  lemma AutoRepublish(db: Db, h: Hash, who: Caller, p: Id)
    requires IdsBounded(db) && Handle(db, h, who, RepublishPolicy(p, None)).Ok?
    ensures p in db.policies && Semver.BumpPatch(db.policies[p].version).Some?
    ensures var db' := Handle(db, h, who, RepublishPolicy(p, None)).value;
            && db.nextId in db'.policies && db.nextId !in db.policies
            && db'.policies[db.nextId].version == Semver.BumpPatch(db.policies[p].version).value
            && db'.policies[db.nextId].name == db.policies[p].name
            && db'.policies[db.nextId].status == Draft
            && Semver.Parse(db.policies[p].version).Some?
            && (var v := Semver.Parse(db.policies[p].version).value;
                Semver.Parse(db'.policies[db.nextId].version) == Some(v.(patch := v.patch + 1)))
            && !VersionTaken(db, who.tenant, db.policies[p].name, db'.policies[db.nextId].version)
  {
    RepublishedRow(db, h, who, p);
    Semver.BumpRaisesPatch(db.policies[p].version);
    hide Handle, Semver.BumpPatch, Semver.Parse, VersionTaken;
  }

  lemma RepublishedRow(db: Db, h: Hash, who: Caller, p: Id)
    requires IdsBounded(db) && Handle(db, h, who, RepublishPolicy(p, None)).Ok?
    ensures p in db.policies && db.nextId !in db.policies && Semver.BumpPatch(db.policies[p].version).Some?
    ensures var version := Semver.BumpPatch(db.policies[p].version).value;
            var db' := Handle(db, h, who, RepublishPolicy(p, None)).value;
            && db.nextId in db'.policies
            && db'.policies[db.nextId] == db.policies[p].(version := version, status := Draft,
                                                          publishedBy := None, createdBy := who.user)
            && !VersionTaken(db, who.tenant, db.policies[p].name, version)
  {
    hide CopiedTargets, TargetsOf, Semver.BumpPatch, VersionTaken, MentionsBounded;
  }

  /** Any calls, then a republish of the policy at hand without naming a version. */
  datatype Hop = Hop(between: seq<Call>, who: Caller)

  /** Follow a chain of republishes from policy p: the tables and the last successor. */
  ghost function Follow(db: Db, h: Hash, p: Id, hops: seq<Hop>): Option<(Db, Id)> {
    if hops == [] then Some((db, p))
    else
      match Follow(db, h, p, hops[..|hops| - 1])
      case None => None
      case Some((mid, q)) =>
        var last := hops[|hops| - 1];
        var ready := HandleAll(mid, h, last.between);
        var r := Handle(ready, h, last.who, RepublishPolicy(q, None));
        if r.Ok? then Some((r.value, ready.nextId)) else None
  }

  lemma FollowNone(db: Db, h: Hash, p: Id)
    ensures Follow(db, h, p, []) == Some((db, p))
  {
  }

  lemma FollowStep(db: Db, h: Hash, p: Id, hops: seq<Hop>)
    requires hops != [] && Follow(db, h, p, hops).Some?
    ensures var r, hop := Follow(db, h, p, hops[..|hops| - 1]), hops[|hops| - 1];
            && r.Some?
            && var ready := HandleAll(r.value.0, h, hop.between);
               var last := Handle(ready, h, hop.who, RepublishPolicy(r.value.1, None));
               last.Ok? && Follow(db, h, p, hops) == Some((last.value, ready.nextId))
  {
    hide Handle, HandleAll;
  }

  lemma HopRaises(mid: Db, h: Hash, q: Id, v: Semver.Version, hop: Hop)
    requires Sound(mid, h) && q in mid.policies && Semver.Parse(mid.policies[q].version) == Some(v)
    requires Handle(HandleAll(mid, h, hop.between), h, hop.who, RepublishPolicy(q, None)).Ok?
    ensures var ready := HandleAll(mid, h, hop.between);
            var db' := Handle(ready, h, hop.who, RepublishPolicy(q, None)).value;
            && Sound(db', h) && ready.nextId in db'.policies
            && Semver.Parse(db'.policies[ready.nextId].version) == Some(v.(patch := v.patch + 1))
            && db'.policies[ready.nextId].name == mid.policies[q].name
  {
    hide Sound, Handle, HandleAll, Semver.Parse, Semver.BumpPatch;
    var ready := HandleAll(mid, h, hop.between);
    VersionStays(mid, h, hop.between, q);
    SoundHasIds(ready, h);
    AutoRepublish(ready, h, hop.who, q);
    HandleKeepsSound(ready, h, hop.who, RepublishPolicy(q, None));
  }

  /**
    However many auto-versioned republishes lead from a policy to its successor, and whatever
    calls come between them, the successor's version parses back to the first one with the
    patch raised by exactly the number of republishes.
   */
  lemma {:induction false} RepublishChain(db: Db, h: Hash, p: Id, v: Semver.Version, hops: seq<Hop>)
    requires Sound(db, h) && p in db.policies && Semver.Parse(db.policies[p].version) == Some(v)
    requires Follow(db, h, p, hops).Some?
    ensures var (db', q) := Follow(db, h, p, hops).value;
            && Sound(db', h) && q in db'.policies
            && Semver.Parse(db'.policies[q].version) == Some(v.(patch := v.patch + |hops|))
            && db'.policies[q].name == db.policies[p].name
  {
    hide *;
    if hops == [] {
      FollowNone(db, h, p);
      assert v.(patch := v.patch + 0) == v;
    } else {
      FollowStep(db, h, p, hops);
      var front, last := hops[..|hops| - 1], hops[|hops| - 1];
      RepublishChain(db, h, p, v, front);
      var (mid, q) := Follow(db, h, p, front).value;
      HopRaises(mid, h, q, v.(patch := v.patch + |front|), last);
    }
  }

}
