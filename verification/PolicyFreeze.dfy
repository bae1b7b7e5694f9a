/**
  The freeze of published policies when handlers' checks and writes interleave: which write
  transactions break it, at every state and over every run.
 */
module PolicyFreeze {
  import opened Common
  import opened PolicyStore
  import opened PolicyProofs
  import opened BundleBuilder
  import opened PolicyRuns
  import PolicyHandlers

  /** What a late write must be to change a published policy or its targets. */
  predicate Thaws(db: Db, w: Write, p: Id) {
    match w
    case Generate(policy, gens) => policy == p && gens != []
    case Edit(_, target, _, _) => PolicyHandlers.Owns(db, p, target)
    case Approve(_, target) => PolicyHandlers.Owns(db, p, target) && db.targets[target].review != Approved
    case Reject(_, target) => PolicyHandlers.Owns(db, p, target) && db.targets[target].review != Rejected
    case _ => false
  }

  // ── One write ────────────────────────────────────────────────────────

  lemma EditThawsIff(db: Db, h: Hash, who: Caller, w: Write, p: Id)
    requires Sound(db, h) && PolicyHandlers.IsPublished(db, p) && w.Edit? && Commit(db, h, who, w).Some?
    ensures PolicyHandlers.Unchanged(db, Commit(db, h, who, w).value, p) <==> !Thaws(db, w, p)
  {
    var db' := Commit(db, h, who, w).value;
    if w.target in db.targets {
      assert Resolves(db.artifacts, h, db.targets[w.target]);
      assert PolicyHandlers.Owns(db, p, w.target) <==> PolicyHandlers.Owns(db', p, w.target);
    }
    hide Sound, Resolves;
  }

  lemma ReviewThawsIff(db: Db, h: Hash, who: Caller, w: Write, p: Id)
    requires PolicyHandlers.IsPublished(db, p) && (w.Approve? || w.Reject?) && Commit(db, h, who, w).Some?
    ensures PolicyHandlers.Unchanged(db, Commit(db, h, who, w).value, p) <==> !Thaws(db, w, p)
  {
    var db' := Commit(db, h, who, w).value;
    assert PolicyHandlers.Owns(db, p, w.target) <==> PolicyHandlers.Owns(db', p, w.target);
  }

  lemma GenerateThawsIff(db: Db, h: Hash, who: Caller, w: Write, p: Id)
    requires IdsBounded(db) && PolicyHandlers.IsPublished(db, p) && w.Generate? && Commit(db, h, who, w).Some?
    ensures PolicyHandlers.Unchanged(db, Commit(db, h, who, w).value, p) <==> !Thaws(db, w, p)
  {
    hide GenerateAll;
    if Thaws(db, w, p) {
      PolicyHandlers.GenerateChanges(db, h, who.tenant, w.policy, w.gens);
    } else {
      PolicyHandlers.GenerateElsewhere(db, h, who.tenant, w.policy, w.gens, p);
    }
  }

  lemma CopiesLeave(db: Db, seen: Db, who: Caller, parent: Id, newVersion: string, p: Id)
    requires IdsBounded(db) && parent in seen.policies && p in db.policies
    ensures PolicyHandlers.Unchanged(db, WriteCopies(db, seen, who, parent, newVersion), p)
  {
    hide CopiedTargets, TargetsOf, MentionsBounded;
    var child, base := db.nextId, db.nextId + 1;
    forall n | n in CopiedTargets(seen, parent, child, base)
      ensures n >= base && CopiedTargets(seen, parent, child, base)[n].policy == child
    {
      CopiesAreFresh(seen, parent, child, base, n);
    }
  }

  lemma OthersLeave(db: Db, h: Hash, who: Caller, w: Write, p: Id)
    requires IdsBounded(db) && PolicyHandlers.IsPublished(db, p) && Commit(db, h, who, w).Some?
    requires w.Upload? || w.Fork? || w.ExtractIr? || w.Publish?
    ensures PolicyHandlers.Unchanged(db, Commit(db, h, who, w).value, p)
  {
    hide ApprovedTargets, MentionsBounded;
  }

  /**
    A write transaction that commits, whatever its handler checked and when, leaves a published
    policy and its targets alone if and only if it does not thaw them.
   */
  lemma WriteThawsIff(db: Db, h: Hash, who: Caller, w: Write, p: Id)
    requires Sound(db, h) && PolicyHandlers.IsPublished(db, p) && Commit(db, h, who, w).Some?
    ensures PolicyHandlers.Unchanged(db, Commit(db, h, who, w).value, p) <==> !Thaws(db, w, p)
  {
    SoundIds(db, h);
    if w.Edit? {
      EditThawsIff(db, h, who, w, p);
    } else if w.Approve? || w.Reject? {
      ReviewThawsIff(db, h, who, w, p);
    } else if w.Generate? {
      GenerateThawsIff(db, h, who, w, p);
    } else if w.Republish? {
      assert p in db.policies;
      hide Sound, PolicyHandlers.Unchanged, WriteCopies;
      CopiesLeave(db, db, who, w.parent, w.newVersion, p);
    } else {
      hide Sound;
      OthersLeave(db, h, who, w, p);
    }
  }

  // ── Runs ─────────────────────────────────────────────────────────────

  predicate StepThaws(w: World, step: Step, p: Id) {
    step.Tx? && Thaws(w.db, step.write, p)
  }

  lemma StampLeaves(db: Db, who: Caller, b: Bundle, p: Id)
    requires p in db.policies
    ensures PolicyHandlers.Unchanged(db, WriteBundle(db, who, b), p)
  {
    hide Stampable;
  }

  lemma StepThawsIff(w: World, h: Hash, step: Step, p: Id)
    requires Inv(w, h) && PolicyHandlers.IsPublished(w.db, p) && Next(w, h, step).Some?
    ensures PolicyHandlers.Unchanged(w.db, Next(w, h, step).value.db, p) <==> !StepThaws(w, step, p)
  {
    assert Sound(w.db, h);
    SoundIds(w.db, h);
    hide Inv, Sound, IdsBounded, WriteBundle, WriteCopies, Assemble, IsQueryResult;
    match step
    case Tx(who, write) =>
      hide PolicyHandlers.Unchanged;
      WriteThawsIff(w.db, h, who, write, p);
    case FinishBuild(b, sha) =>
      hide PolicyHandlers.Unchanged;
      var read := w.builds[b];
      StampLeaves(w.db, read.who, Assemble(w.db.artifacts, read.who.tenant, read.rows, sha, read.at), p);
    case FinishRepublish(c) =>
      hide PolicyHandlers.Unchanged;
      var r := w.copying[c];
      CopiesLeave(w.db, r.seen, r.who, r.parent, r.newVersion, p);
    case _ =>
  }

  lemma UnchangedTransitive(a: Db, b: Db, c: Db, p: Id)
    requires p in a.policies && PolicyHandlers.Unchanged(a, b, p)
    ensures PolicyHandlers.Unchanged(b, c, p) <==> PolicyHandlers.Unchanged(a, c, p)
  {
    assert forall t :: PolicyHandlers.Owns(a, p, t) <==> PolicyHandlers.Owns(b, p, t);
  }

  lemma UnchangedIsPublished(a: Db, b: Db, p: Id)
    requires PolicyHandlers.IsPublished(a, p) && PolicyHandlers.Unchanged(a, b, p)
    ensures PolicyHandlers.IsPublished(b, p)
  {
  }

  /** No step from the given one on thaws p. */
  ghost predicate NoThaw(h: Hash, steps: seq<Step>, from: nat, p: Id)
    requires from <= |steps|
  {
    forall k :: from <= k < |steps| && Run(START, h, steps[..k]).Some? ==> !StepThaws(Run(START, h, steps[..k]).value, steps[k], p)
  }

  lemma RunFront(h: Hash, steps: seq<Step>)
    requires steps != [] && Run(START, h, steps).Some?
    ensures var front := Run(START, h, steps[..|steps| - 1]);
            front.Some? && Run(START, h, steps) == Next(front.value, h, steps[|steps| - 1])
  {
    hide Next;
  }

  /**
    From any moment of any interleaved run at which p is published, p and its targets stay as
    they are up to the first step that thaws them, and that step changes them.
   */
  lemma {:induction false} FrozenUntilThawed(h: Hash, steps: seq<Step>, from: nat, p: Id)
    requires from <= |steps| && Run(START, h, steps).Some? && Run(START, h, steps[..from]).Some?
    requires PolicyHandlers.IsPublished(Run(START, h, steps[..from]).value.db, p)
    requires from < |steps| ==> NoThaw(h, steps[..|steps| - 1], from, p)
    ensures var db, db' := Run(START, h, steps[..from]).value.db, Run(START, h, steps).value.db;
            PolicyHandlers.Unchanged(db, db', p) <==> NoThaw(h, steps, from, p)
    decreases |steps|
  {
    hide *;
    if from == |steps| {
      assert steps[..from] == steps;
      NothingYet(h, steps, p);
    } else {
      var front, last := steps[..|steps| - 1], steps[|steps| - 1];
      RunFront(h, steps);
      assert front[..from] == steps[..from];
      NoThawFront(h, steps, from, p);
      FrozenUntilThawed(h, front, from, p);
      RunKeepsInv(h, front);
      var db, mid := Run(START, h, steps[..from]).value.db, Run(START, h, front).value;
      UnchangedIsPublished(db, mid.db, p);
      StepThawsIff(mid, h, last, p);
      PublishedExists(db, p);
      UnchangedTransitive(db, mid.db, Run(START, h, steps).value.db, p);
    }
  }

  lemma NothingYet(h: Hash, steps: seq<Step>, p: Id)
    requires Run(START, h, steps).Some? && PolicyHandlers.IsPublished(Run(START, h, steps).value.db, p)
    ensures NoThaw(h, steps, |steps|, p)
    ensures PolicyHandlers.Unchanged(Run(START, h, steps).value.db, Run(START, h, steps).value.db, p)
  {
    hide Run;
  }

  lemma PublishedExists(db: Db, p: Id)
    requires PolicyHandlers.IsPublished(db, p)
    ensures p in db.policies
  {
  }

  lemma NoThawFront(h: Hash, steps: seq<Step>, from: nat, p: Id)
    requires from < |steps| && NoThaw(h, steps[..|steps| - 1], from, p)
    requires Run(START, h, steps[..|steps| - 1]).Some?
    ensures NoThaw(h, steps, from, p) <==> !StepThaws(Run(START, h, steps[..|steps| - 1]).value, steps[|steps| - 1], p)
    ensures from < |steps| - 1 ==> NoThaw(h, steps[..|steps| - 1][..|steps| - 2], from, p)
  {
    hide StepThaws, Run;
    var front := steps[..|steps| - 1];
    assert forall k :: 0 <= k < |front| ==> front[..k] == steps[..k] && front[k] == steps[k];
    if from < |front| {
      var shorter := front[..|front| - 1];
      assert forall k :: 0 <= k < |shorter| ==> shorter[..k] == front[..k] && shorter[k] == front[k];
    }
  }

}
