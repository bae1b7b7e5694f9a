/**
  What the append-only audit log says about a target: the review verdict can be read off the
  log alone, through the chain of republish copies that leads to the target.
 */
module AuditTrail {
  import opened Common
  import opened PolicyStore

  /** The target that carried t's content when audit row j was written: t, or the ancestor it was copied from. */
  function Carrier(copies: map<Id, Copy>, t: Id, j: nat): Id
    decreases t
  {
    if t in copies && copies[t].source < t && j < copies[t].at then Carrier(copies, copies[t].source, j) else t
  }

  /** Audit row e withdraws whatever verdict target t had: an edit or a rejection. */
  predicate Withdraws(e: AuditRow, t: Id) {
    match e.action
    case TargetEdited(x, _, _, _) => x == t
    case TargetRejected(x, _) => x == t
    case _ => false
  }

  predicate Approves(e: AuditRow, t: Id) {
    e.action.TargetApproved? && e.action.target == t
  }

  predicate Mentions(e: AuditRow, t: Id) {
    Withdraws(e, t) || Approves(e, t)
  }

  /** The hash that the first `upto` audit rows approve for t; None when it stands unapproved. */
  function Verdict(audit: seq<AuditRow>, copies: map<Id, Copy>, t: Id, upto: nat): Option<Digest>
    requires upto <= |audit|
    decreases upto
  {
    if upto == 0 then None
    else
      var carrier := Carrier(copies, t, upto - 1);
      var e := audit[upto - 1];
      if Approves(e, carrier) then Some(e.action.sha)
      else if Withdraws(e, carrier) then None
      else Verdict(audit, copies, t, upto - 1)
  }

  /** Audit row i approves t's content with hash sha, and is the last row before `upto` to review or edit it. */
  ghost predicate StandingApproval(audit: seq<AuditRow>, copies: map<Id, Copy>, t: Id, sha: Digest, i: nat, upto: nat)
    requires upto <= |audit|
  {
    && i < upto
    && Approves(audit[i], Carrier(copies, t, i))
    && audit[i].action.sha == sha
    && forall j :: i < j < upto ==> !Mentions(audit[j], Carrier(copies, t, j))
  }

  /** The verdict is `sha` exactly when an approval of that hash stands. */
  lemma {:induction false} VerdictIsStandingApproval(
      audit: seq<AuditRow>, copies: map<Id, Copy>, t: Id, sha: Digest, upto: nat)
    requires upto <= |audit|
    ensures Verdict(audit, copies, t, upto) == Some(sha) <==>
            exists i :: StandingApproval(audit, copies, t, sha, i, upto)
  {
    if upto > 0 {
      var last: nat := upto - 1;
      var carrier, e := Carrier(copies, t, last), audit[last];
      VerdictIsStandingApproval(audit, copies, t, sha, last);
      if Approves(e, carrier) && e.action.sha == sha {
        assert StandingApproval(audit, copies, t, sha, last, upto);
      }
      if !Mentions(e, carrier) {
        if i: nat :| StandingApproval(audit, copies, t, sha, i, last) {
          assert StandingApproval(audit, copies, t, sha, i, upto);
        }
      }
      if i: nat :| StandingApproval(audit, copies, t, sha, i, upto) {
        if i < last {
          assert !Mentions(audit[last], carrier);
          assert StandingApproval(audit, copies, t, sha, i, last);
        }
      }
    }
  }

  // ── How verdicts move with the tables ────────────────────────────────

  /** Rows appended later do not change what the log said. */
  lemma {:induction false} VerdictPrefix(
      audit: seq<AuditRow>, longer: seq<AuditRow>, copies: map<Id, Copy>, t: Id, upto: nat)
    requires upto <= |audit| && audit <= longer
    ensures Verdict(longer, copies, t, upto) == Verdict(audit, copies, t, upto)
  {
    if upto > 0 {
      VerdictPrefix(audit, longer, copies, t, upto - 1);
    }
  }

  lemma VerdictAppend(audit: seq<AuditRow>, e: AuditRow, copies: map<Id, Copy>, t: Id)
    requires t in copies ==> copies[t].at <= |audit|
    ensures Verdict(audit + [e], copies, t, |audit| + 1) ==
            if Approves(e, t) then Some(e.action.sha)
            else if Withdraws(e, t) then None
            else Verdict(audit, copies, t, |audit|)
  {
    VerdictPrefix(audit, audit + [e], copies, t, |audit|);
  }

  /** A target that no audit row mentions and that is no copy stands unapproved. */
  lemma {:induction false} VerdictFresh(audit: seq<AuditRow>, copies: map<Id, Copy>, t: Id, upto: nat)
    requires upto <= |audit| && t !in copies
    requires forall j :: 0 <= j < upto ==> !Mentions(audit[j], t)
    ensures Verdict(audit, copies, t, upto) == None
  {
    if upto > 0 {
      VerdictFresh(audit, copies, t, upto - 1);
    }
  }

  lemma {:induction false} CarrierOldCopies(copies: map<Id, Copy>, more: map<Id, Copy>, bound: Id, t: Id, j: nat)
    requires t < bound
    requires forall c :: c < bound ==> (c in more <==> c in copies)
    requires forall c :: c < bound && c in copies ==> more[c] == copies[c]
    ensures Carrier(more, t, j) == Carrier(copies, t, j)
    decreases t
  {
    if t in copies && copies[t].source < t && j < copies[t].at {
      CarrierOldCopies(copies, more, bound, copies[t].source, j);
    }
  }

  /** New copies do not change the verdict on older targets. */
  lemma {:induction false} VerdictOldCopies(
      audit: seq<AuditRow>, copies: map<Id, Copy>, more: map<Id, Copy>, bound: Id, t: Id, upto: nat)
    requires upto <= |audit| && t < bound
    requires forall c :: c < bound ==> (c in more <==> c in copies)
    requires forall c :: c < bound && c in copies ==> more[c] == copies[c]
    ensures Verdict(audit, more, t, upto) == Verdict(audit, copies, t, upto)
  {
    if upto > 0 {
      CarrierOldCopies(copies, more, bound, t, upto - 1);
      VerdictOldCopies(audit, copies, more, bound, t, upto - 1);
    }
  }

  /** Up to when it was read, a copy has its source's verdict. */
  lemma {:induction false} VerdictOfCopy(audit: seq<AuditRow>, copies: map<Id, Copy>, t: Id, upto: nat)
    requires upto <= |audit| && t in copies && copies[t].source < t && upto <= copies[t].at
    ensures Verdict(audit, copies, t, upto) == Verdict(audit, copies, copies[t].source, upto)
  {
    if upto > 0 {
      VerdictOfCopy(audit, copies, t, upto - 1);
    }
  }

  /** Rows that do not mention a copy's own id leave it the verdict it was read with. */
  lemma {:induction false} VerdictSince(audit: seq<AuditRow>, copies: map<Id, Copy>, t: Id, at: nat, upto: nat)
    requires at <= upto <= |audit| && t in copies && copies[t].at <= at
    requires forall j :: at <= j < upto ==> !Mentions(audit[j], t)
    ensures Verdict(audit, copies, t, upto) == Verdict(audit, copies, t, at)
  {
    if at < upto {
      VerdictSince(audit, copies, t, at, upto - 1);
    }
  }

}
