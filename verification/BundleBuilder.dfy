/** What a bundle build computes from the rows it read (bundle_builder.py) and then stamps (bundles.py). */
module BundleBuilder {
  import opened Common
  import opened PolicyStore
  import opened Text

  function RowOf(target: Id, t: Target): BuildRow {
    BuildRow(target, t.policy, t.system, t.subtype, t.key, t.review)
  }

  predicate InPublished(db: Db, tenant: Id, target: Id) {
    && target in db.targets
    && db.targets[target].policy in db.policies
    && db.policies[db.targets[target].policy].tenant == tenant
    && db.policies[db.targets[target].policy].status == Published
  }

  /** The rows are the targets of the tenant's published policies, each once. Any order will do. */
  ghost predicate IsQueryResult(db: Db, tenant: Id, rows: seq<BuildRow>) {
    && (forall i :: 0 <= i < |rows| ==>
          InPublished(db, tenant, rows[i].target) && rows[i] == RowOf(rows[i].target, db.targets[rows[i].target]))
    && (forall i, j :: 0 <= i < j < |rows| ==> rows[i].target != rows[j].target)
    && (forall t :: InPublished(db, tenant, t) ==> exists i :: 0 <= i < |rows| && rows[i].target == t)
  }

  function Included(rows: seq<BuildRow>): (s: seq<BuildRow>)
    ensures forall r :: r in s <==> r in rows && r.review == Approved
  {
    if rows == [] then []
    else
      var last := rows[|rows| - 1];
      Included(rows[..|rows| - 1]) + if last.review == Approved then [last] else []
  }

  function Exclusion(r: BuildRow, reason: Reason): Excluded {
    Excluded(r.target, r.policy, r.review, reason)
  }

  /** The exclusions of the first loop. */
  function Unapproved(rows: seq<BuildRow>): seq<Excluded> {
    if rows == [] then []
    else
      var last := rows[|rows| - 1];
      Unapproved(rows[..|rows| - 1]) + if last.review == Approved then [] else [Exclusion(last, NotApproved)]
  }

  /** The exclusions of the second loop: approved rows whose artifact is not to be had. */
  function Missing(artifacts: map<Id, Artifact>, included: seq<BuildRow>): seq<Excluded> {
    if included == [] then []
    else
      var last := included[|included| - 1];
      Missing(artifacts, included[..|included| - 1])
        + if last.key.PgUpload? then [Exclusion(last, NotInPgStore)]
          else if last.key.id !in artifacts then [Exclusion(last, ArtifactMissing)]
          else []
  }

  /** The rows whose text is written to a file. */
  function Shipped(artifacts: map<Id, Artifact>, included: seq<BuildRow>): (s: seq<BuildRow>)
    ensures forall r :: r in s <==> r in included && r.key.PgRego? && r.key.id in artifacts
  {
    if included == [] then []
    else
      var last := included[|included| - 1];
      Shipped(artifacts, included[..|included| - 1])
        + if last.key.PgRego? && last.key.id in artifacts then [last] else []
  }

  function FileName(system: string, subtype: Option<string>): string {
    if subtype.None? || subtype.value == "" then system else system + "_" + subtype.value
  }

  function PathOf(r: BuildRow): Path {
    Path(r.policy, FileName(r.system, r.subtype))
  }

  /** Writing the files in order; a later file replaces an earlier one of the same path. */
  function Files(artifacts: map<Id, Artifact>, shipped: seq<BuildRow>): map<Path, string>
    requires forall r :: r in shipped ==> r.key.id in artifacts
  {
    if shipped == [] then map[]
    else
      var last := shipped[|shipped| - 1];
      Files(artifacts, shipped[..|shipped| - 1])[PathOf(last) := artifacts[last.key.id].text]
  }

  function PolicyIds(shipped: seq<BuildRow>): (ids: seq<Id>)
    ensures forall i, j :: 0 <= i < j < |ids| ==> ids[i] != ids[j]
    ensures forall p :: p in ids <==> exists r :: r in shipped && r.policy == p
  {
    if shipped == [] then []
    else
      var last := shipped[|shipped| - 1];
      assert forall r :: r in shipped <==> r in shipped[..|shipped| - 1] || r == last;
      var ids := PolicyIds(shipped[..|shipped| - 1]);
      if last.policy in ids then ids else ids + [last.policy]
  }

  function CountUnlessNotApproved(excluded: seq<Excluded>): nat {
    if excluded == [] then 0
    else
      CountUnlessNotApproved(excluded[..|excluded| - 1])
        + if excluded[|excluded| - 1].reason != NotApproved then 1 else 0
  }

  function TargetIds(rows: seq<BuildRow>): (ids: seq<Id>)
    ensures |ids| == |rows| && forall i :: 0 <= i < |rows| ==> ids[i] == rows[i].target
  {
    seq(|rows|, i requires 0 <= i < |rows| => rows[i].target)
  }

  /** build_tenant_bundle: `sha` is the digest of whatever `opa build` made of the files. */
  function Assemble(artifacts: map<Id, Artifact>, tenant: Id, rows: seq<BuildRow>, sha: Digest, readAt: nat): Bundle {
    var included := Included(rows);
    var shipped := Shipped(artifacts, included);
    var excluded := Unapproved(rows) + Missing(artifacts, included);
    Bundle(tenant, sha, Files(artifacts, shipped), |included| - CountUnlessNotApproved(excluded),
           PolicyIds(shipped), TargetIds(included), excluded, readAt)
  }

  predicate Stampable(db: Db, tenant: Id, t: Id) {
    InPublished(db, tenant, t) && db.targets[t].review == Approved
  }

  function Stamp(db: Db, tenant: Id, sha: Digest): map<Id, Target> {
    map t | t in db.targets ::
      if Stampable(db, tenant, t) then db.targets[t].(bundleSha := Some(sha)) else db.targets[t]
  }

  /** The transaction of build_bundle: insert the bundle, stamp the approved published targets, log. */
  function WriteBundle(db: Db, who: Caller, b: Bundle): Db {
    Log(db.(bundles := db.bundles + [b], targets := Stamp(db, who.tenant, b.sha)),
        who, None, BundleBuilt(b.sha, b.targetCount, |b.excluded|))
  }

  // ── Conservation ─────────────────────────────────────────────────────

  lemma {:induction false} IncludedOrUnapproved(rows: seq<BuildRow>)
    ensures |Included(rows)| + |Unapproved(rows)| == |rows|
  {
    if rows != [] { IncludedOrUnapproved(rows[..|rows| - 1]); }
  }

  lemma {:induction false} ShippedOrMissing(artifacts: map<Id, Artifact>, included: seq<BuildRow>)
    ensures |Shipped(artifacts, included)| + |Missing(artifacts, included)| == |included|
  {
    if included != [] { ShippedOrMissing(artifacts, included[..|included| - 1]); }
  }

  lemma {:induction false} CountAppend(a: seq<Excluded>, b: seq<Excluded>)
    ensures CountUnlessNotApproved(a + b) == CountUnlessNotApproved(a) + CountUnlessNotApproved(b)
  {
    if b == [] {
      assert a + b == a;
    } else {
      CountAppend(a, b[..|b| - 1]);
      assert (a + b)[..|a + b| - 1] == a + b[..|b| - 1];
    }
  }

  lemma {:induction false} CountUnapproved(rows: seq<BuildRow>)
    ensures CountUnlessNotApproved(Unapproved(rows)) == 0
  {
    if rows != [] {
      CountUnapproved(rows[..|rows| - 1]);
      CountAppend(Unapproved(rows[..|rows| - 1]), if rows[|rows| - 1].review == Approved then [] else [Exclusion(rows[|rows| - 1], NotApproved)]);
    }
  }

  lemma {:induction false} Reasons(artifacts: map<Id, Artifact>, rows: seq<BuildRow>)
    ensures forall e :: e in Unapproved(rows) ==> e.reason == NotApproved
    ensures forall e :: e in Missing(artifacts, rows) ==> e.reason != NotApproved
  {
    if rows != [] { Reasons(artifacts, rows[..|rows| - 1]); }
  }

  lemma {:induction false} CountMissing(missing: seq<Excluded>)
    requires forall e :: e in missing ==> e.reason != NotApproved
    ensures CountUnlessNotApproved(missing) == |missing|
  {
    if missing != [] { CountMissing(missing[..|missing| - 1]); }
  }

  /**
    For any rows and any store: target_count is the number of files written (counting
    overwritten ones), and every row read is either written or excluded, exactly once.
   */
  lemma BuildConserves(artifacts: map<Id, Artifact>, tenant: Id, rows: seq<BuildRow>, sha: Digest, at: nat)
    ensures var b := Assemble(artifacts, tenant, rows, sha, at);
            && b.targetCount == |Shipped(artifacts, Included(rows))|
            && b.targetCount + |b.excluded| == |rows|
  {
    var included := Included(rows);
    IncludedOrUnapproved(rows);
    ShippedOrMissing(artifacts, included);
    CountUnapproved(rows);
    Reasons(artifacts, included);
    CountMissing(Missing(artifacts, included));
    CountAppend(Unapproved(rows), Missing(artifacts, included));
  }

  // ── Overwriting ──────────────────────────────────────────────────────

  ghost predicate PathsDistinct(rows: seq<BuildRow>) {
    forall i, j :: 0 <= i < j < |rows| ==> PathOf(rows[i]) != PathOf(rows[j])
  }

  ghost predicate HasPath(rows: seq<BuildRow>, path: Path) {
    exists i :: 0 <= i < |rows| && PathOf(rows[i]) == path
  }

  /** A path is written exactly when a shipped row has it, and it then holds such a row's text. */
  lemma {:induction false} PathWritten(artifacts: map<Id, Artifact>, shipped: seq<BuildRow>, path: Path)
    requires forall r :: r in shipped ==> r.key.id in artifacts
    ensures path in Files(artifacts, shipped) <==> HasPath(shipped, path)
    ensures path in Files(artifacts, shipped) ==>
              exists i :: 0 <= i < |shipped| && PathOf(shipped[i]) == path
                          && Files(artifacts, shipped)[path] == artifacts[shipped[i].key.id].text
  {
    if shipped != [] {
      var front, last := shipped[..|shipped| - 1], shipped[|shipped| - 1];
      PathWritten(artifacts, front, path);
      if path == PathOf(last) {
        assert PathOf(shipped[|front|]) == path;
      } else if path in Files(artifacts, front) {
        var i :| 0 <= i < |front| && PathOf(front[i]) == path
                 && Files(artifacts, front)[path] == artifacts[front[i].key.id].text;
        assert PathOf(shipped[i]) == path;
      }
    }
  }

  lemma DistinctStep(front: seq<BuildRow>, last: BuildRow)
    ensures PathsDistinct(front + [last]) <==>
            PathsDistinct(front) && !HasPath(front, PathOf(last))
  {
    hide PathOf;
    var rows := front + [last];
    assert forall i :: 0 <= i < |front| ==> rows[i] == front[i];
    assert rows[|front|] == last;
  }

  lemma FilesStep(artifacts: map<Id, Artifact>, front: seq<BuildRow>, last: BuildRow)
    requires forall r :: r in front + [last] ==> r.key.id in artifacts
    ensures |Files(artifacts, front + [last])| ==
            |Files(artifacts, front)| + if PathOf(last) in Files(artifacts, front) then 0 else 1
  {
    hide PathOf;
    var rows := front + [last];
    assert rows[..|rows| - 1] == front && rows[|rows| - 1] == last;
    var files := Files(artifacts, front);
    var files' := files[PathOf(last) := artifacts[last.key.id].text];
    assert Files(artifacts, rows) == files';
    assert files'.Keys == files.Keys + {PathOf(last)};
  }

  /** The bundle holds as many files as it counts targets exactly when no two shipped rows share a file name. */
  lemma {:induction false} NoOverwriteIff(artifacts: map<Id, Artifact>, shipped: seq<BuildRow>)
    requires forall r :: r in shipped ==> r.key.id in artifacts
    ensures |Files(artifacts, shipped)| <= |shipped|
    ensures |Files(artifacts, shipped)| == |shipped| <==> PathsDistinct(shipped)
  {
    if shipped != [] {
      hide PathOf, PathsDistinct, Files, HasPath;
      var front, last := shipped[..|shipped| - 1], shipped[|shipped| - 1];
      NoOverwriteIff(artifacts, front);
      assert shipped == front + [last];
      FilesStep(artifacts, front, last);
      PathWritten(artifacts, front, PathOf(last));
      DistinctStep(front, last);
    }
  }

  /** Without overwriting, every shipped row's text is in the bundle. */
  lemma {:induction false} DistinctPathsShipAll(artifacts: map<Id, Artifact>, shipped: seq<BuildRow>, i: nat)
    requires forall r :: r in shipped ==> r.key.id in artifacts
    requires PathsDistinct(shipped) && i < |shipped|
    ensures PathOf(shipped[i]) in Files(artifacts, shipped)
    ensures Files(artifacts, shipped)[PathOf(shipped[i])] == artifacts[shipped[i].key.id].text
  {
    var front := shipped[..|shipped| - 1];
    if i < |front| {
      DistinctPathsShipAll(artifacts, front, i);
    }
  }

  /** Two different targets of one policy can share a file name. */
  lemma FileNamesCollide()
    ensures KeyOf("linux_rhel", None) != KeyOf("linux", Some("rhel"))
    ensures FileName("linux_rhel", None) == FileName("linux", Some("rhel"))
  {
    assert "linux" + "_" + "rhel" == "linux_rhel";
    assert "linux_rhel"[5] != "linux"[..][4];
  }

  lemma SystemOfFileName(system: string, subtype: Option<string>)
    requires '_' !in system
    ensures Split(FileName(system, subtype), '_')[0] == system
  {
    SplitPlain(system, '_');
    if subtype.Some? {
      SplitFirst(system, subtype.value, '_');
    }
  }

  /** They cannot when no system name holds an underscore: then the file name determines the key. */
  lemma PlainSystemsDoNotCollide(s1: string, t1: Option<string>, s2: string, t2: Option<string>)
    requires '_' !in s1 && '_' !in s2
    requires FileName(s1, t1) == FileName(s2, t2)
    ensures KeyOf(s1, t1) == KeyOf(s2, t2)
  {
    SystemOfFileName(s1, t1);
    SystemOfFileName(s2, t2);
    var n := FileName(s1, t1);
    var k1, k2 := KeyOf(s1, t1).1, KeyOf(s2, t2).1;
    assert n == if k1 == "" then s1 else s1 + "_" + k1;
    assert n == if k2 == "" then s1 else s1 + "_" + k2;
    if k1 != "" && k2 != "" {
      assert n[|s1| + 1..] == k1;
      assert n[|s1| + 1..] == k2;
    }
  }

}
