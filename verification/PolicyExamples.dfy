/** Runs from the empty tables that show where the freeze and the one-file-per-target rule fail. */
module PolicyExamples {
  import opened Common
  import opened RegoGenerator
  import opened PolicyStore
  import opened PolicyProofs
  import opened BundleBuilder
  import opened PolicyHandlers
  import PolicyRuns

  const ANN := Caller(7, 1)
  const LLM := GeneratedRego("linux_rhel", None, "package a", LlmFallback, None, true, true, 1)
  const MAPPED := GeneratedRego("linux", Some("rhel"), "package b", TemplateMapped, Some(1.0), true, true, 0)

  /** Ann uploads a prose policy, extracts its IR, generates two targets and approves both. */
  const DRAFTING: seq<Request> := [
    UploadPolicy("Passwords", "access", "raw", "text"), ExtractIr(1, "ir"), GenerateRego(1, [LLM, MAPPED]),
    ApproveTarget(1, 3), ApproveTarget(1, 5)]

  function ByAnn(reqs: seq<Request>): seq<PolicyHandlers.Call> {
    seq(|reqs|, i requires 0 <= i < |reqs| => PolicyHandlers.Call(ANN, reqs[i]))
  }

  ghost function Reached(h: Hash, reqs: seq<Request>): Db { HandleAll(EMPTY, h, ByAnn(reqs)) }

  lemma ReachedStep(h: Hash, reqs: seq<Request>, req: Request)
    ensures var r := Handle(Reached(h, reqs), h, ANN, req);
            Reached(h, reqs + [req]) == if r.Ok? then r.value else Reached(h, reqs)
  {
    var calls := ByAnn(reqs + [req]);
    assert calls[..|calls| - 1] == ByAnn(reqs);
    hide Handle;
  }

  /** What the examples need to know of the tables. */
  ghost predicate At(db: Db, status: PolicyStatus, ir: Option<string>, targets: map<Id, Target>, next: Id) {
    && db.policies.Keys == {1} && db.policies[1].tenant == 1 && db.policies[1].status == status
    && db.policies[1].source == ProseUpload && db.policies[1].sourceKey == Some(PgUpload(0))
    && db.policies[1].ir == ir && 0 in db.artifacts && db.targets == targets && db.nextId == next
  }

  lemma EmptyIsSound(h: Hash)
    ensures Sound(EMPTY, h)
  {
  }

  function LlmTarget(h: Hash, review: Review): Target { GeneratedTarget(1, LLM, 2, h).(review := review) }

  function MappedTarget(h: Hash, review: Review): Target { GeneratedTarget(1, MAPPED, 4, h).(review := review) }

  lemma Uploads(h: Hash)
    ensures var r := Handle(EMPTY, h, ANN, DRAFTING[0]);
            r.Ok? && At(r.value, Draft, None, map[], 2)
  {
  }

  lemma Extracts(db: Db, h: Hash)
    requires At(db, Draft, None, map[], 2)
    ensures var r := Handle(db, h, ANN, DRAFTING[1]);
            r.Ok? && At(r.value, Draft, Some("ir"), map[], 2)
  {
  }

  lemma Generates(db: Db, h: Hash)
    requires At(db, Draft, Some("ir"), map[], 2)
    ensures var r := Handle(db, h, ANN, DRAFTING[2]);
            r.Ok? && At(r.value, Draft, Some("ir"), map[3 := LlmTarget(h, Pending), 5 := MappedTarget(h, Pending)], 6)
  {
    var gens := [LLM, MAPPED];
    assert gens[..1] == [LLM] && gens[..1][..0] == [];
    var one := GenerateOne(db, h, 1, 1, LLM);
    assert GenerateAll(db, h, 1, 1, [LLM]) == one;
    GeneratesOne(db, h);
    GeneratesTwo(one, h);
    assert GenerateAll(db, h, 1, 1, gens) == GenerateOne(one, h, 1, 1, MAPPED);
    hide GenerateOne, GenerateAll, LlmTarget, MappedTarget;
  }

  lemma GeneratesOne(db: Db, h: Hash)
    requires At(db, Draft, Some("ir"), map[], 2)
    ensures At(GenerateOne(db, h, 1, 1, LLM), Draft, Some("ir"), map[3 := LlmTarget(h, Pending)], 4)
  {
  }

  lemma GeneratesTwo(db: Db, h: Hash)
    requires At(db, Draft, Some("ir"), map[3 := LlmTarget(h, Pending)], 4)
    ensures At(GenerateOne(db, h, 1, 1, MAPPED), Draft, Some("ir"),
               map[3 := LlmTarget(h, Pending), 5 := MappedTarget(h, Pending)], 6)
  {
  }

  lemma Approves(db: Db, h: Hash, a: Review, b: Review)
    requires At(db, Draft, Some("ir"), map[3 := LlmTarget(h, a), 5 := MappedTarget(h, b)], 6)
    ensures var r := Handle(db, h, ANN, ApproveTarget(1, 3));
            r.Ok? && At(r.value, Draft, Some("ir"), map[3 := LlmTarget(h, Approved), 5 := MappedTarget(h, b)], 6)
    ensures var r := Handle(db, h, ANN, ApproveTarget(1, 5));
            r.Ok? && At(r.value, Draft, Some("ir"), map[3 := LlmTarget(h, a), 5 := MappedTarget(h, Approved)], 6)
  {
  }

  lemma Publishes(db: Db, h: Hash)
    requires At(db, Draft, Some("ir"), map[3 := LlmTarget(h, Approved), 5 := MappedTarget(h, Approved)], 6)
    ensures var r := Handle(db, h, ANN, PublishPolicy(1));
            r.Ok? && At(r.value, Published, Some("ir"), map[3 := LlmTarget(h, Approved), 5 := MappedTarget(h, Approved)], 6)
  {
    assert 3 in ApprovedTargets(db, 1);
    assert ApprovedTargets(db, 1) != {};
  }

  lemma NothingReached(h: Hash)
    ensures Reached(h, []) == EMPTY
  {
  }

  lemma ExtractionReached(h: Hash)
    ensures At(Reached(h, DRAFTING[..2]), Draft, Some("ir"), map[], 2)
  {
    hide At, Handle;
    NothingReached(h);
    hide Reached;
    assert DRAFTING[..1] == [] + [DRAFTING[0]] && DRAFTING[..2] == DRAFTING[..1] + [DRAFTING[1]];
    ReachedStep(h, [], DRAFTING[0]);
    Uploads(h);
    ReachedStep(h, DRAFTING[..1], DRAFTING[1]);
    Extracts(Reached(h, DRAFTING[..1]), h);
  }

  /** The draft with its two approved targets, from the empty tables. */
  lemma DraftReached(h: Hash)
    ensures At(Reached(h, DRAFTING), Draft, Some("ir"), map[3 := LlmTarget(h, Approved), 5 := MappedTarget(h, Approved)], 6)
  {
    hide At, Handle, LlmTarget, MappedTarget;
    ExtractionReached(h);
    hide Reached;
    assert DRAFTING[..3] == DRAFTING[..2] + [DRAFTING[2]] && DRAFTING[..4] == DRAFTING[..3] + [DRAFTING[3]];
    assert DRAFTING == DRAFTING[..4] + [DRAFTING[4]];
    ReachedStep(h, DRAFTING[..2], DRAFTING[2]);
    Generates(Reached(h, DRAFTING[..2]), h);
    ReachedStep(h, DRAFTING[..3], DRAFTING[3]);
    Approves(Reached(h, DRAFTING[..3]), h, Pending, Pending);
    ReachedStep(h, DRAFTING[..4], DRAFTING[4]);
    Approves(Reached(h, DRAFTING[..4]), h, Approved, Pending);
  }

  lemma {:induction false} ReachedIsSound(h: Hash, reqs: seq<Request>)
    ensures Sound(Reached(h, reqs), h)
  {
    hide Sound, Handle, Reached;
    if reqs == [] {
      EmptyIsSound(h);
      assert Reached(h, []) == EMPTY by { NothingReached(h); }
    } else {
      var front, last := reqs[..|reqs| - 1], reqs[|reqs| - 1];
      ReachedIsSound(h, front);
      ReachedStep(h, front, last);
      assert reqs == front + [last];
      if Handle(Reached(h, front), h, ANN, last).Ok? { HandleKeepsSound(Reached(h, front), h, ANN, last); }
    }
  }

  lemma PublicationReached(h: Hash)
    ensures At(Reached(h, DRAFTING + [PublishPolicy(1)]), Published, Some("ir"),
               map[3 := LlmTarget(h, Approved), 5 := MappedTarget(h, Approved)], 6)
  {
    hide At, Handle, LlmTarget, MappedTarget, Reached;
    DraftReached(h);
    ReachedStep(h, DRAFTING, PublishPolicy(1));
    Publishes(Reached(h, DRAFTING), h);
  }

  // ── The examples ─────────────────────────────────────────────────────

  /** Publishing and then generating again changes the published policy's targets. */
  lemma RegeneratingThaws(h: Hash)
    ensures var db := Reached(h, DRAFTING + [PublishPolicy(1)]);
            var r := Handle(db, h, ANN, GenerateRego(1, [LLM]));
            IsPublished(db, 1) && r.Ok? && !Unchanged(db, r.value, 1)
  {
    var db := Reached(h, DRAFTING + [PublishPolicy(1)]);
    PublicationReached(h);
    ReachedIsSound(h, DRAFTING + [PublishPolicy(1)]);
    SoundHasIds(db, h);
    hide Reached, Sound, IdsBounded, Unchanged, WriteGenerate;
    PublishedIsFrozen(db, h, ANN, GenerateRego(1, [LLM]), 1);
  }

  /** An edit that is checked before the publish and written after it changes the published policy. */
  lemma LateEditHappens(h: Hash)
    ensures var db := Reached(h, DRAFTING);
            var r := Handle(db, h, ANN, PublishPolicy(1));
            && Handle(db, h, ANN, EditTarget(1, 3, "package c", true)).Ok? && r.Ok? && 3 in db.targets
            && var late := PolicyRuns.Commit(r.value, h, ANN, PolicyRuns.Edit(1, 3, db.targets[3], "package c"));
               IsPublished(r.value, 1) && late.Some? && !Unchanged(r.value, late.value, 1)
  {
    var db := Reached(h, DRAFTING);
    DraftReached(h);
    ReachedIsSound(h, DRAFTING);
    Publishes(db, h);
    hide Reached, Sound, Unchanged, ApprovedTargets, WriteEdit, WritePublish;
    LateEditThaws(db, h, ANN, 1, 3, "package c");
  }

  /** A build that reads these rows counts two targets and writes fewer files. */
  ghost predicate Overwrites(db: Db, rows: seq<BuildRow>, sha: Digest, at: nat) {
    var b := Assemble(db.artifacts, 1, rows, sha, at);
    IsQueryResult(db, 1, rows) && b.targetCount == 2 && |b.files| < b.targetCount
  }

  /** Both targets are approved and shipped, to one file. */
  lemma BundleOverwrites(h: Hash, sha: Digest, at: nat)
    ensures exists rows :: Overwrites(Reached(h, DRAFTING + [PublishPolicy(1)]), rows, sha, at)
  {
    var db := Reached(h, DRAFTING + [PublishPolicy(1)]);
    PublicationReached(h);
    ReachedIsSound(h, DRAFTING + [PublishPolicy(1)]);
    hide Reached, Sound;
    var r, q := RowOf(3, LlmTarget(h, Approved)), RowOf(5, MappedTarget(h, Approved));
    var rows := [r, q];
    assert rows[0].target == 3 && rows[1].target == 5;
    assert IsQueryResult(db, 1, rows);
    assert rows[..1] == [r] && rows[..1][..0] == [];
    assert Included([r]) == [r] && Included(rows) == rows;
    FileNamesCollide();
    assert PathOf(rows[0]) == PathOf(rows[1]);
    assert !PathsDistinct(rows);
    hide IsQueryResult, Included, At, PathOf, PathsDistinct;
    PolicyRuns.AtomicBuild(db, h, ANN, rows, sha, at);
    PolicyRuns.BundleKeepsEveryFileIff(db, h, ANN, rows, sha, at);
    FewerFiles(db, rows, sha, at);
    assert Overwrites(db, rows, sha, at);
  }

  lemma FewerFiles(db: Db, rows: seq<BuildRow>, sha: Digest, at: nat)
    ensures var b := Assemble(db.artifacts, 1, rows, sha, at); |b.files| <= b.targetCount && |b.targets| == |Included(rows)|
  {
    PolicyRuns.AssembledFiles(db.artifacts, 1, rows, sha, at);
    BuildConserves(db.artifacts, 1, rows, sha, at);
    NoOverwriteIff(db.artifacts, Shipped(db.artifacts, Included(rows)));
  }

  const FIRST := GeneratedRego("linux", None, "package passwords", TemplateMapped, Some(1.0), true, true, 0)
  const SECOND := GeneratedRego("linux", None, "package sessions", TemplateMapped, Some(1.0), true, true, 0)

  lemma GeneratesFirst(db: Db, h: Hash)
    requires At(db, Draft, Some("ir"), map[], 2)
    ensures At(GenerateOne(db, h, 1, 1, FIRST), Draft, Some("ir"), map[3 := GeneratedTarget(1, FIRST, 2, h)], 4)
  {
  }

  lemma GeneratesSecond(db: Db, h: Hash)
    requires At(db, Draft, Some("ir"), map[3 := GeneratedTarget(1, FIRST, 2, h)], 4)
    ensures At(GenerateOne(db, h, 1, 1, SECOND), Draft, Some("ir"), map[5 := GeneratedTarget(1, SECOND, 4, h)], 6)
  {
  }

  /** Two controls for Linux, both of whose modules pass their checks: the second replaces the first, and both are counted. */
  lemma SecondControlReplacesFirst(h: Hash)
    ensures var db := Reached(h, DRAFTING[..2]);
            var r := Handle(db, h, ANN, GenerateRego(1, [FIRST, SECOND]));
            && r.Ok? && r.value.targets == map[5 := GeneratedTarget(1, SECOND, 4, h)]
            && r.value.audit == db.audit + [AuditRow(ANN.user, ANN.tenant, Some(1), RegoGenerated(2, 2, 0))]
  {
    var db := Reached(h, DRAFTING[..2]);
    ExtractionReached(h);
    hide Reached;
    GeneratesFirst(db, h);
    GeneratesSecond(GenerateOne(db, h, 1, 1, FIRST), h);
    TwoResults(db, h);
    hide GenerateOne, GenerateAll, GeneratedTarget;
  }

  lemma TwoResults(db: Db, h: Hash)
    ensures GenerateAll(db, h, 1, 1, [FIRST, SECOND]) == GenerateOne(GenerateOne(db, h, 1, 1, FIRST), h, 1, 1, SECOND)
    ensures GenerateAll(db, h, 1, 1, [FIRST, SECOND]).audit == db.audit
    ensures CountPending([FIRST, SECOND]) == 2
  {
    assert [FIRST, SECOND][..1] == [FIRST] && [FIRST][..0] == [];
    assert GenerateAll(db, h, 1, 1, [FIRST]) == GenerateOne(db, h, 1, 1, FIRST);
  }

}
