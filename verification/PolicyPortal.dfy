/** The policy handlers as they run: checks, then row-by-row updates of the tables. */
module PolicyPortal {
  import opened Common
  import opened Text
  import opened RegoGenerator
  import opened PolicyStore
  import opened PolicyProofs
  import opened BundleBuilder
  import opened PolicyHandlers
  import Semver

  const CHUNK_SIZE: nat := 64 * 1024

  /**
    The bounded read loop of upload_policy. The buffer never exceeds the cap, and the whole
    file is returned exactly when it fits.
   */
  method ReadCapped(file: string, cap: nat) returns (r: Result<string>)
    ensures |file| <= cap ==> r == Ok(file)
    ensures |file| > cap ==> r == Err(TooLarge)
  {
    var raw := "";
    while |raw| < |file|
      invariant |raw| <= cap && |raw| <= |file| && raw == file[..|raw|]
    {
      var chunk := file[|raw|..if |raw| + CHUNK_SIZE <= |file| then |raw| + CHUNK_SIZE else |file|];
      if |raw| + |chunk| > cap { return Err(TooLarge); }
      raw := raw + chunk;
    }
    assert file[..|file|] == file;
    return Ok(raw);
  }

  /** A handler does what Handle says: its writes on success, its error and no write otherwise. */
  ghost predicate Effect<T>(before: Db, h: Hash, who: Caller, req: Request, after: Db, r: Result<T>) {
    match Handle(before, h, who, req)
    case Err(e) => r == Err(e) && after == before
    case Ok(db) => r.Ok? && after == db
  }

  lemma CopiesBySource(db: Db, parent: Id, child: Id, base: Id)
    requires forall t :: t in db.targets ==> t < db.nextId
    ensures forall n :: n in CopiedTargets(db, parent, child, base) <==> base <= n && n - base in TargetsOf(db, parent)
    ensures forall n :: n in CopiedTargets(db, parent, child, base) ==>
              CopiedTargets(db, parent, child, base)[n] == db.targets[n - base].(policy := child, bundleSha := None)
  {
  }

  lemma StampNeedsNoBundles(db: Db, db': Db, tenant: Id, sha: Digest)
    requires db'.targets == db.targets && db'.policies == db.policies
    ensures Stamp(db', tenant, sha) == Stamp(db, tenant, sha)
  {
  }

  ghost predicate Listed(rows: seq<BuildRow>, t: Id) {
    exists i :: 0 <= i < |rows| && rows[i].target == t
  }

  lemma ListedStep(rows: seq<BuildRow>, last: BuildRow)
    ensures forall t :: Listed(rows, t) || t == last.target ==> Listed(rows + [last], t)
  {
    forall t | Listed(rows, t) || t == last.target ensures Listed(rows + [last], t) {
      if t == last.target {
        assert (rows + [last])[|rows|].target == t;
      } else {
        var i :| 0 <= i < |rows| && rows[i].target == t;
        assert (rows + [last])[i].target == t;
      }
    }
  }

  class Portal {
    const sha256: string -> Digest
    var policies: map<Id, Policy>
    var targets: map<Id, Target>
    var artifacts: map<Id, Artifact>
    var audit: seq<AuditRow>
    ghost var copies: map<Id, Copy>
    var bundles: seq<Bundle>
    var nextId: Id

    ghost function Tables(): Db
      reads this
    {
      Db(policies, targets, artifacts, audit, copies, bundles, nextId)
    }

    ghost predicate Valid()
      reads this
    {
      Sound(Tables(), sha256)
    }

    constructor (sha256: string -> Digest)
      ensures Valid() && Tables() == EMPTY && this.sha256 == sha256
    {
      this.sha256 := sha256;
      policies, targets, artifacts, audit, copies, bundles, nextId := map[], map[], map[], [], map[], [], 0;
    }

    method PutRego(tenant: Id, text: string) returns (key: StorageKey)
      modifies this
      ensures Tables() == PolicyStore.PutRego(old(Tables()), sha256, tenant, text)
      ensures key == PgRego(old(nextId))
    {
      key := PgRego(nextId);
      artifacts := artifacts[nextId := Artifact(tenant, text, sha256(text))];
      nextId := nextId + 1;
    }

    method Audit(who: Caller, policy: Option<Id>, action: Action)
      modifies this`audit
      ensures Tables() == Log(old(Tables()), who, policy, action)
    {
      audit := audit + [AuditRow(who.user, who.tenant, policy, action)];
    }

    /** `declared` is the Content-Length header; `parsed` is what the document parser makes of the bytes. */
    method Upload(who: Caller, name: string, bucket: string, declared: Option<nat>, file: string, cap: nat,
                  parsed: Result<string>) returns (r: Result<Id>)
      requires Valid()
      modifies this
      ensures Valid()
      ensures (declared.Some? && declared.value > cap) || |file| > cap ==>
                r == Err(TooLarge) && Tables() == old(Tables())
      ensures !(declared.Some? && declared.value > cap) && 0 < |file| <= cap && parsed.Err? ==>
                r == Err(parsed.error) && Tables() == old(Tables())
      ensures !(declared.Some? && declared.value > cap) && |file| <= cap && (file == "" || parsed.Ok?) ==>
                Effect(old(Tables()), sha256, who,
                       UploadPolicy(name, bucket, file, if parsed.Ok? then parsed.value else ""), Tables(), r)
    {
      hide Sound;
      if declared.Some? && declared.value > cap { return Err(TooLarge); }
      var raw := ReadCapped(file, cap);
      if raw.Err? { return Err(raw.error); }
      if raw.value == "" { return Err(BadRequest); }
      if parsed.Err? { return Err(parsed.error); }
      HandleKeepsSound(Tables(), sha256, who, UploadPolicy(name, bucket, raw.value, parsed.value));
      var upload := nextId;
      artifacts := artifacts[upload := Artifact(who.tenant, parsed.value, sha256(raw.value))];
      policies := policies[upload + 1 := Policy(
        who.tenant, name, bucket, ProseUpload, Some(PgUpload(upload)), None, None,
        DEFAULT_VERSION, Draft, None, who.user)];
      nextId := nextId + 2;
      Audit(who, Some(upload + 1), Uploaded(upload));
      return Ok(upload + 1);
    }

    method Fork(who: Caller, name: string, bucket: string, ref: string, system: string, text: string)
      returns (r: Result<Id>)
      requires Valid()
      modifies this
      ensures Valid()
      ensures Effect(old(Tables()), sha256, who, ForkStandard(name, bucket, ref, system, text), Tables(), r)
    {
      hide Sound;
      HandleKeepsSound(Tables(), sha256, who, ForkStandard(name, bucket, ref, system, text));
      var policy := nextId;
      policies := policies[policy := Policy(
        who.tenant, name, bucket, ForkedOverlay, None, None, Some(ref), DEFAULT_VERSION, Draft, None, who.user)];
      nextId := nextId + 1;
      var key := PutRego(who.tenant, text);
      targets := targets[nextId := Target(
        policy, system, None, key, sha256(text), CustomerAuthored, None, Pending, None)];
      nextId := nextId + 1;
      Audit(who, Some(policy), Forked(sha256(text), system));
      return Ok(policy);
    }

    method Extract(who: Caller, policy: Id, ir: string) returns (r: Result<()>)
      requires Valid()
      modifies this
      ensures Valid()
      ensures Effect(old(Tables()), sha256, who, ExtractIr(policy, ir), Tables(), r)
    {
      hide Sound;
      if policy !in policies || policies[policy].tenant != who.tenant { return Err(NotFound); }
      var row := policies[policy];
      if row.source != ProseUpload || row.sourceKey.None? || !row.sourceKey.value.PgUpload? { return Err(Conflict); }
      if row.sourceKey.value.id !in artifacts { return Err(ServerError); }
      if row.status == Published && row.ir != Some(ir) { return Err(ServerError); }
      HandleKeepsSound(Tables(), sha256, who, ExtractIr(policy, ir));
      policies := policies[policy := row.(ir := Some(ir))];
      Audit(who, Some(policy), IrExtracted);
      return Ok(());
    }

    /** One round of generate_policy_rego: store the text, delete the key's old row, insert the new one. */
    method StoreGenerated(tenant: Id, policy: Id, g: GeneratedRego)
      modifies this
      ensures Tables() == GenerateOne(old(Tables()), sha256, tenant, policy, g)
    {
      hide TargetKey;
      var key := PutRego(tenant, g.text);
      targets := map t | t in targets && !(targets[t].policy == policy && TargetKey(targets[t]) == KeyOf(g.system, g.subtype))
        :: targets[t];
      targets := targets[nextId := Target(
        policy, g.system, g.subtype, key, sha256(g.text), g.generation, g.confidence,
        if g.pending then Pending else Rejected, None)];
      nextId := nextId + 1;
    }

    /** `gens` is what the generator made of the policy's controls. */
    method Generate(who: Caller, policy: Id, gens: seq<GeneratedRego>) returns (r: Result<()>)
      requires Valid()
      modifies this
      ensures Valid()
      ensures Effect(old(Tables()), sha256, who, GenerateRego(policy, gens), Tables(), r)
    {
      hide Sound, GenerateOne;
      if policy !in policies || policies[policy].tenant != who.tenant { return Err(NotFound); }
      if policies[policy].ir.None? { return Err(Conflict); }
      HandleKeepsSound(Tables(), sha256, who, GenerateRego(policy, gens));
      ghost var before := Tables();
      var pending := 0;
      for i := 0 to |gens|
        invariant Tables() == GenerateAll(before, sha256, who.tenant, policy, gens[..i])
        invariant pending == CountPending(gens[..i])
      {
        assert gens[..i + 1][..i] == gens[..i];
        var g := gens[i];
        StoreGenerated(who.tenant, policy, g);
        if g.pending { pending := pending + 1; }
      }
      assert gens[..|gens|] == gens;
      Audit(who, Some(policy), RegoGenerated(|gens|, pending, |gens| - pending));
      return Ok(());
    }

    method FetchForTargetAction(who: Caller, policy: Id) returns (e: Option<Error>)
      ensures e == TargetActionError(Tables(), policy, who.tenant)
    {
      if policy !in policies || policies[policy].tenant != who.tenant { return Some(NotFound); }
      if policies[policy].status == Published { return Some(Conflict); }
      return None;
    }

    method Edit(who: Caller, policy: Id, target: Id, text: string, opaOk: bool) returns (r: Result<()>)
      requires Valid()
      modifies this
      ensures Valid()
      ensures Effect(old(Tables()), sha256, who, EditTarget(policy, target, text, opaOk), Tables(), r)
    {
      hide Sound;
      var e := FetchForTargetAction(who, policy);
      if e.Some? { return Err(e.value); }
      if target !in targets || targets[target].policy != policy { return Err(NotFound); }
      var existing := targets[target];
      if !opaOk { return Err(Unprocessable); }
      HandleKeepsSound(Tables(), sha256, who, EditTarget(policy, target, text, opaOk));
      var key := PutRego(who.tenant, text);
      targets := targets[target := existing.(key := key, sha := sha256(text), review := Pending)];
      Audit(who, Some(policy), TargetEdited(target, existing.review, existing.sha, sha256(text)));
      return Ok(());
    }

    method Approve(who: Caller, policy: Id, target: Id) returns (r: Result<()>)
      requires Valid()
      modifies this
      ensures Valid()
      ensures Effect(old(Tables()), sha256, who, ApproveTarget(policy, target), Tables(), r)
    {
      hide Sound;
      var e := FetchForTargetAction(who, policy);
      if e.Some? { return Err(e.value); }
      if target !in targets || targets[target].policy != policy { return Err(NotFound); }
      HandleKeepsSound(Tables(), sha256, who, ApproveTarget(policy, target));
      targets := targets[target := targets[target].(review := Approved)];
      Audit(who, Some(policy), TargetApproved(target, targets[target].sha));
      return Ok(());
    }

    method Reject(who: Caller, policy: Id, target: Id, reason: string) returns (r: Result<()>)
      requires Valid()
      modifies this
      ensures Valid()
      ensures Effect(old(Tables()), sha256, who, RejectTarget(policy, target, reason), Tables(), r)
    {
      hide Sound;
      if Strip(reason) == "" { return Err(BadRequest); }
      var e := FetchForTargetAction(who, policy);
      if e.Some? { return Err(e.value); }
      if target !in targets || targets[target].policy != policy { return Err(NotFound); }
      HandleKeepsSound(Tables(), sha256, who, RejectTarget(policy, target, reason));
      targets := targets[target := targets[target].(review := Rejected)];
      Audit(who, Some(policy), TargetRejected(target, targets[target].sha));
      return Ok(());
    }

    method Publish(who: Caller, policy: Id) returns (r: Result<()>)
      requires Valid()
      modifies this
      ensures Valid()
      ensures Effect(old(Tables()), sha256, who, PublishPolicy(policy), Tables(), r)
    {
      hide Sound;
      if policy !in policies || policies[policy].tenant != who.tenant { return Err(NotFound); }
      if policies[policy].status == Published { return Err(Conflict); }
      var approved := set t | t in targets && targets[t].policy == policy && targets[t].review == Approved;
      assert approved == ApprovedTargets(Tables(), policy);
      if |approved| == 0 { return Err(Conflict); }
      HandleKeepsSound(Tables(), sha256, who, PublishPolicy(policy));
      policies := policies[policy := policies[policy].(status := Published, publishedBy := Some(who.user))];
      Audit(who, Some(policy), PolicyPublished(|approved|, policies[policy].version));
      return Ok(());
    }

    /** INSERT ... SELECT: copy the parent's targets, in whatever order, to fresh ids. */
    method CopyTargets(parent: Id, child: Id, base: Id) returns (copied: nat)
      requires base > nextId && child < base && child !in targets && parent != child
      requires forall t :: t in targets ==> t < nextId
      modifies this`targets, this`copies
      ensures targets == old(targets) + CopiedTargets(old(Tables()), parent, child, base)
      ensures copies == old(copies)
                + (map n <- CopiedTargets(old(Tables()), parent, child, base).Keys :: Copy(n - base, |audit|))
      ensures copied == |TargetsOf(old(Tables()), parent)|
    {
      hide CopiedTargets, IsCopy;
      var sources := set t | t in targets && targets[t].policy == parent;
      assert sources == TargetsOf(Tables(), parent);
      copied := |sources|;
      CopiesBySource(Tables(), parent, child, base);
      var rows := CopyRows(sources, child, base);
      assert rows == CopiedTargets(Tables(), parent, child, base);
      targets, copies := targets + rows, copies + (map n <- rows.Keys :: Copy(n - base, |audit|));
    }

    method CopyRows(sources: set<Id>, child: Id, base: Id) returns (rows: map<Id, Target>)
      requires sources <= targets.Keys
      ensures forall n :: n in rows <==> base <= n && n - base in sources
      ensures forall n :: n in rows ==> n - base in targets && rows[n] == targets[n - base].(policy := child, bundleSha := None)
    {
      rows := map[];
      var todo := sources;
      while todo != {}
        invariant todo <= sources
        invariant forall n :: n in rows <==> base <= n && n - base in sources - todo
        invariant forall n :: n in rows ==> n - base in targets && rows[n] == targets[n - base].(policy := child, bundleSha := None)
        decreases |todo|
      {
        var s :| s in todo;
        rows := rows[base + s := targets[s].(policy := child, bundleSha := None)];
        todo := todo - {s};
      }
    }

    /** The transaction of republish_policy. */
    method InsertRepublished(who: Caller, parent: Id, version: string) returns (child: Id)
      requires parent in policies && IdsBounded(Tables())
      modifies this
      ensures child == old(nextId) && Tables() == WriteRepublish(old(Tables()), who, parent, version)
    {
      hide CopiedTargets, TargetsOf;
      child := nextId;
      var copied := CopyTargets(parent, child, child + 1);
      policies := policies[child := policies[parent].(
        version := version, status := Draft, publishedBy := None, createdBy := who.user)];
      nextId := child + 1 + child;
      Audit(who, Some(child), RepublishedFrom(parent, policies[parent].version, version, copied));
    }

    method Republish(who: Caller, policy: Id, requested: Option<string>) returns (r: Result<Id>)
      requires Valid()
      modifies this
      ensures Valid()
      ensures Effect(old(Tables()), sha256, who, RepublishPolicy(policy, requested), Tables(), r)
    {
      hide Sound, WriteRepublish;
      if policy !in policies || policies[policy].tenant != who.tenant { return Err(NotFound); }
      var parent := policies[policy];
      if parent.status != Published { return Err(Conflict); }
      var version :=
        if requested.Some? && requested.value != "" then Some(Strip(requested.value))
        else Semver.BumpPatch(parent.version);
      if version.None? { return Err(BadRequest); }
      if exists p :: p in policies && policies[p].tenant == who.tenant
                     && policies[p].name == parent.name && policies[p].version == version.value {
        return Err(Conflict);
      }
      HandleKeepsSound(Tables(), sha256, who, RepublishPolicy(policy, requested));
      SoundHasIds(Tables(), sha256);
      var child := InsertRepublished(who, policy, version.value);
      return Ok(child);
    }

    /** The bundle query, in whatever order the rows come. */
    method QueryRows(tenant: Id) returns (rows: seq<BuildRow>)
      ensures IsQueryResult(Tables(), tenant, rows)
    {
      rows := [];
      var todo := set t | t in targets && InPublishedRow(tenant, t);
      ghost var all := todo;
      while todo != {}
        invariant todo <= all
        invariant forall i :: 0 <= i < |rows| ==>
                    rows[i].target in all - todo && rows[i] == RowOf(rows[i].target, targets[rows[i].target])
        invariant forall i, j :: 0 <= i < j < |rows| ==> rows[i].target != rows[j].target
        invariant forall t :: t in all ==> t in todo || Listed(rows, t)
        decreases todo
      {
        var t :| t in todo;
        ListedStep(rows, RowOf(t, targets[t]));
        rows := rows + [RowOf(t, targets[t])];
        todo := todo - {t};
      }
      forall t | InPublished(Tables(), tenant, t) ensures Listed(rows, t) {
        assert t in all;
      }
    }

    predicate InPublishedRow(tenant: Id, t: Id)
      requires t in targets
      reads this
      ensures InPublishedRow(tenant, t) <==> InPublished(Tables(), tenant, t)
    {
      targets[t].policy in policies
      && policies[targets[t].policy].tenant == tenant && policies[targets[t].policy].status == Published
    }

    /** The partition loop of build_tenant_bundle. */
    method Partition(rows: seq<BuildRow>) returns (included: seq<BuildRow>, excluded: seq<Excluded>)
      ensures included == Included(rows) && excluded == Unapproved(rows)
    {
      included, excluded := [], [];
      for i := 0 to |rows|
        invariant included == Included(rows[..i]) && excluded == Unapproved(rows[..i])
      {
        assert rows[..i + 1][..i] == rows[..i];
        if rows[i].review == Approved {
          included := included + [rows[i]];
        } else {
          excluded := excluded + [Excluded(rows[i].target, rows[i].policy, rows[i].review, NotApproved)];
        }
      }
      assert rows[..|rows|] == rows;
    }

    /** The file loop of build_tenant_bundle. */
    method WriteFiles(included: seq<BuildRow>)
      returns (excluded: seq<Excluded>, files: map<Path, string>, policyIds: seq<Id>)
      ensures excluded == Missing(artifacts, included)
      ensures files == Files(artifacts, Shipped(artifacts, included))
      ensures policyIds == PolicyIds(Shipped(artifacts, included))
    {
      hide PathOf;
      excluded, files, policyIds := [], map[], [];
      ghost var shipped: seq<BuildRow> := [];
      for i := 0 to |included|
        invariant shipped == Shipped(artifacts, included[..i])
        invariant excluded == Missing(artifacts, included[..i])
        invariant files == Files(artifacts, shipped)
        invariant policyIds == PolicyIds(shipped)
      {
        assert included[..i + 1][..i] == included[..i];
        var row := included[i];
        if row.key.PgUpload? {
          excluded := excluded + [Excluded(row.target, row.policy, row.review, NotInPgStore)];
        } else if row.key.id !in artifacts {
          excluded := excluded + [Excluded(row.target, row.policy, row.review, ArtifactMissing)];
        } else {
          files := files[PathOf(row) := artifacts[row.key.id].text];
          if row.policy !in policyIds { policyIds := policyIds + [row.policy]; }
          assert (shipped + [row])[..|shipped|] == shipped;
          shipped := shipped + [row];
        }
      }
      assert included[..|included|] == included;
    }

    /** build_tenant_bundle; `sha` is the digest of what `opa build` makes of the files. */
    method Build(tenant: Id, rows: seq<BuildRow>, sha: Digest) returns (b: Bundle)
      ensures b == Assemble(artifacts, tenant, rows, sha, |audit|) && b.sha == sha
    {
      var included, unapproved := Partition(rows);
      var missing, files, policyIds := WriteFiles(included);
      var excluded := unapproved + missing;
      b := Bundle(tenant, sha, files, |included| - CountUnlessNotApproved(excluded), policyIds,
                  TargetIds(included), excluded, |audit|);
    }

    method StampApproved(tenant: Id, sha: Digest)
      modifies this`targets
      ensures targets == Stamp(old(Tables()), tenant, sha)
    {
      ghost var stamped := Stamp(Tables(), tenant, sha);
      targets := map t | t in targets ::
        if InPublishedRow(tenant, t) && targets[t].review == Approved
        then targets[t].(bundleSha := Some(sha)) else targets[t];
      assert targets == stamped;
    }

    method BuildBundle(who: Caller, sha: Digest) returns (b: Bundle, ghost rows: seq<BuildRow>)
      requires Valid()
      modifies this
      ensures Valid()
      ensures Effect(old(Tables()), sha256, who, PolicyHandlers.BuildBundle(rows, sha), Tables(), Ok(b))
      ensures bundles == old(bundles) + [b]
    {
      hide Sound, IsQueryResult, Assemble, Stamp;
      var found := QueryRows(who.tenant);
      rows := found;
      HandleKeepsSound(Tables(), sha256, who, PolicyHandlers.BuildBundle(rows, sha));
      b := Build(who.tenant, found, sha);
      ghost var before := Tables();
      bundles := bundles + [b];
      StampNeedsNoBundles(before, Tables(), who.tenant, sha);
      StampApproved(who.tenant, sha);
      Audit(who, None, BundleBuilt(sha, b.targetCount, |b.excluded|));
      assert Tables() == WriteBundle(old(Tables()), who, b);
    }
  }

}
