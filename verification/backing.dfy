/** Who stands behind an execution, over whole runs of the fund: what a proposal says of its
    people is traced to the steps those people took. */
module Backing {
  import opened Ballots
  import opened Results
  import opened Consilium
  import opened Fund

  predicate Files(s: Step, id: nat, p: Proposal) {
    match s
    case FileRemoval(i, target, initiator, _, _) =>
      i == id && p.kind == Removal && p.subject == target && p.initiator == initiator
    case FileAdmission(i, candidate, initiator, _, _) =>
      i == id && p.kind == Admission && p.subject == candidate && p.initiator == initiator
    case FileOfUser(i, standing, subject, initiator, _, _) =>
      i == id && p.kind == OfUser(standing) && p.subject == subject && p.initiator == initiator
    case _ => false
  }

  predicate VotesOn(s: Step, id: nat, who: UserId, vote: Ballot) {
    s.CastVote? && s.id == id && s.voter == who && s.vote == vote
  }

  predicate AnswersOn(s: Step, id: nat, answer: Ballot) {
    s.TargetAnswers? && s.id == id && s.answer == answer
  }

  ghost predicate Voted(steps: seq<Step>, id: nat, who: UserId, vote: Ballot) {
    exists i :: 0 <= i < |steps| && VotesOn(steps[i], id, who, vote)
  }

  ghost predicate TargetAnswered(steps: seq<Step>, id: nat, answer: Ballot) {
    exists i :: 0 <= i < |steps| && AnswersOn(steps[i], id, answer)
  }

  /** The initiator filed `p` at step `k`, among owners that included everybody it asks. */
  ghost predicate FiledAt(f: Register, steps: seq<Step>, k: nat, id: nat, p: Proposal) {
    && k < |steps| && Files(steps[k], id, p)
    && p.initiator in Run(f, steps[..k]).owners
    && (forall q :: q in p.peers ==> q.user in Run(f, steps[..k]).owners)
  }

  /** Everything `p` says of its people is somebody's own step. */
  ghost predicate Evidenced(f: Register, steps: seq<Step>, id: nat, p: Proposal) {
    && Snapshotted(p)
    && (exists k: nat :: FiledAt(f, steps, k, id, p))
    && (forall q :: q in p.peers && q.vote != Pending ==> Voted(steps, id, q.user, q.vote))
    && (p.decision != Pending ==> p.kind == Removal && TargetAnswered(steps, id, p.decision))
  }

  /** What carried `p` at step `k`: evidence from before it, against the roster of that moment. */
  ghost predicate CarriedAt(f: Register, steps: seq<Step>, k: nat, id: nat, p: Proposal) {
    && k < |steps| && steps[k].Carry? && steps[k].id == id
    && Evidenced(f, steps[..k], id, p)
    && var owners := Run(f, steps[..k]).owners;
    && p.initiator in owners && SecondPerson(p, owners)
    && (p.kind == Removal ==> p.decision == For || SeatedUnanimous(p, owners))
    && (p.kind == Admission ==> SeatedUnanimous(p, owners))
    && (p.kind.OfUser? ==> SeatedMajority(p, owners))
  }

  ghost predicate Accounted(f: Register, steps: seq<Step>, id: nat, p: Proposal) {
    && Evidenced(f, steps, id, p)
    && (p.life.state == Executed ==> exists k: nat :: CarriedAt(f, steps, k, id, p))
  }

  // ---- Evidence lasts ----

  lemma PrefixesLast(steps: seq<Step>, s: Step, k: nat)
    requires k <= |steps|
    ensures (steps + [s])[..k] == steps[..k]
  {
  }

  lemma EvidenceLasts(f: Register, steps: seq<Step>, s: Step, id: nat, p: Proposal)
    requires Evidenced(f, steps, id, p)
    ensures Evidenced(f, steps + [s], id, p)
  {
    var k: nat :| FiledAt(f, steps, k, id, p);
    PrefixesLast(steps, s, k);
    assert FiledAt(f, steps + [s], k, id, p);
    forall q | q in p.peers && q.vote != Pending ensures Voted(steps + [s], id, q.user, q.vote) {
      var i :| 0 <= i < |steps| && VotesOn(steps[i], id, q.user, q.vote);
      assert VotesOn((steps + [s])[i], id, q.user, q.vote);
    }
    if p.decision != Pending {
      var i :| 0 <= i < |steps| && AnswersOn(steps[i], id, p.decision);
      assert AnswersOn((steps + [s])[i], id, p.decision);
    }
  }

  lemma AccountLasts(f: Register, steps: seq<Step>, s: Step, id: nat, p: Proposal)
    requires Accounted(f, steps, id, p)
    ensures Accounted(f, steps + [s], id, p)
  {
    EvidenceLasts(f, steps, s, id, p);
    if p.life.state == Executed {
      var k: nat :| CarriedAt(f, steps, k, id, p);
      PrefixesLast(steps, s, k);
      assert CarriedAt(f, steps + [s], k, id, p);
    }
  }

  /** Evidence is about a proposal's people, not its life. */
  lemma EvidenceIgnoresLife(f: Register, steps: seq<Step>, id: nat, p: Proposal, life: Lifecycle)
    requires Evidenced(f, steps, id, p)
    ensures Evidenced(f, steps, id, p.(life := life))
  {
    var k: nat :| FiledAt(f, steps, k, id, p);
    assert FiledAt(f, steps, k, id, p.(life := life));
  }

  // ---- Each step ----

  lemma FilingIsEvidenced(f: Register, steps: seq<Step>, s: Step, p: Proposal)
    requires s.FileRemoval? || s.FileAdmission? || s.FileOfUser?
    requires var owners := Run(f, steps).owners;
             match s
             case FileRemoval(_, target, initiator, reason, now) =>
               OpenRemoval(target, initiator, reason, owners, now, REMOVAL_TTL_SECS) == Success(p)
             case FileAdmission(_, candidate, initiator, reason, now) =>
               OpenAdmission(candidate, initiator, reason, owners, now, REMOVAL_TTL_SECS) == Success(p)
             case FileOfUser(_, standing, subject, initiator, reason, now) =>
               OpenOfUser(standing, subject, initiator, reason, owners, now, REMOVAL_TTL_SECS) == Success(p)
             case _ => false
    ensures Accounted(f, steps + [s], s.id, p)
  {
    var owners := Run(f, steps).owners;
    match s {
      case FileRemoval(_, target, initiator, reason, now) =>
        OpenedIsSnapshotted(p, Removal, target, initiator, reason, owners, now, REMOVAL_TTL_SECS);
      case FileAdmission(_, candidate, initiator, reason, now) =>
        OpenedIsSnapshotted(p, Admission, candidate, initiator, reason, owners, now, REMOVAL_TTL_SECS);
      case FileOfUser(_, standing, subject, initiator, reason, now) =>
        OpenedIsSnapshotted(p, OfUser(standing), subject, initiator, reason, owners, now, REMOVAL_TTL_SECS);
      case _ =>
    }
    assert (steps + [s])[..|steps|] == steps;
    assert FiledAt(f, steps + [s], |steps|, s.id, p);
  }

  lemma VoteIsEvidenced(f: Register, steps: seq<Step>, id: nat, p: Proposal, voter: UserId, vote: Ballot, now: int)
    requires Evidenced(f, steps, id, p) && Vote(p, voter, vote, now).Success?
    ensures Evidenced(f, steps + [CastVote(id, voter, vote, now)], id, Vote(p, voter, vote, now).value)
  {
    var s := CastVote(id, voter, vote, now);
    var longer := steps + [s];
    var q := Vote(p, voter, vote, now).value;
    EvidenceLasts(f, steps, s, id, p);
    VoteKeepsQuestion(p, voter, vote, now);
    SameQuestionKeepsSnapshot(p, q);
    var k: nat :| FiledAt(f, longer, k, id, p);
    FiledSame(f, longer, k, id, p, q);
    assert VotesOn(longer[|steps|], id, voter, vote);
    VoteChangesOnePeer(p, voter, vote, now);
  }

  lemma VoteChangesOnePeer(p: Proposal, voter: UserId, vote: Ballot, now: int)
    requires Vote(p, voter, vote, now).Success?
    ensures var q := Vote(p, voter, vote, now).value;
            && q.decision == p.decision
            && forall x :: x in q.peers ==> x in p.peers || (x.user == voter && x.vote == vote)
  {
  }

  lemma FiledSame(f: Register, steps: seq<Step>, k: nat, id: nat, p: Proposal, q: Proposal)
    requires FiledAt(f, steps, k, id, p) && SameQuestion(p, q)
    ensures FiledAt(f, steps, k, id, q)
  {
    forall x | x in q.peers ensures x.user in Run(f, steps[..k]).owners {
      var i :| 0 <= i < |q.peers| && q.peers[i] == x;
      assert p.peers[i] in p.peers;
    }
  }

  lemma AnswerIsEvidenced(f: Register, steps: seq<Step>, id: nat, p: Proposal, answer: Ballot, now: int)
    requires Evidenced(f, steps, id, p) && p.kind == Removal && Decide(p, answer, now).Success?
    ensures Evidenced(f, steps + [TargetAnswers(id, answer, now)], id, Decide(p, answer, now).value)
  {
    var s := TargetAnswers(id, answer, now);
    var longer := steps + [s];
    var q := Decide(p, answer, now).value;
    EvidenceLasts(f, steps, s, id, p);
    DecideKeepsQuestion(p, answer, now);
    SameQuestionKeepsSnapshot(p, q);
    var k: nat :| FiledAt(f, longer, k, id, p);
    FiledSame(f, longer, k, id, p, q);
    assert AnswersOn(longer[|steps|], id, answer);
  }

  lemma CarriedLifeIsAccounted(f: Register, steps: seq<Step>, id: nat, p: Proposal, now: int, q: Proposal)
    requires Accounted(f, steps, id, p) && q == p.(life := q.life) && (q != p ==> p.life.state == Open)
    requires q != p && q.life.state == Executed ==>
               var owners := Run(f, steps).owners;
               Execute(p, owners, now).Success? && Execute(p, owners, now).value.life.state == Executed
    ensures Accounted(f, steps + [Carry(id, now)], id, q)
  {
    var s := Carry(id, now);
    if q == p {
      AccountLasts(f, steps, s, id, p);
    } else {
      EvidenceLasts(f, steps, s, id, p);
      if q.life.state == Executed {
        CarryIsBacked(f, steps, id, p, now, q.life);
      }
      LifeIsAccounted(f, steps + [s], |steps|, id, p, q.life);
    }
  }

  lemma LifeIsAccounted(f: Register, steps: seq<Step>, k: nat, id: nat, p: Proposal, life: Lifecycle)
    requires Evidenced(f, steps, id, p)
    requires life.state == Executed ==> CarriedAt(f, steps, k, id, p.(life := life))
    ensures Accounted(f, steps, id, p.(life := life))
  {
    EvidenceIgnoresLife(f, steps, id, p, life);
  }

  lemma CarryIsBacked(f: Register, steps: seq<Step>, id: nat, p: Proposal, now: int, life: Lifecycle)
    requires Evidenced(f, steps, id, p) && p.life.state == Open
    requires var owners := Run(f, steps).owners;
             Execute(p, owners, now).Success? && Execute(p, owners, now).value.life.state == Executed
    ensures CarriedAt(f, steps + [Carry(id, now)], |steps|, id, p.(life := life))
  {
    var q := p.(life := life);
    var owners := Run(f, steps).owners;
    ExecutedHasBacking(p, owners, now);
    EvidenceIgnoresLife(f, steps, id, p, life);
    assert (steps + [Carry(id, now)])[..|steps|] == steps;
    assert q.peers == p.peers;
    assert SeatedUnanimous(p, owners) ==> SeatedUnanimous(q, owners);
    assert SeatedMajority(p, owners) ==> SeatedMajority(q, owners);
    assert SecondPerson(p, owners) ==> SecondPerson(q, owners);
  }

  lemma CarryChangesLife(w: Register, id: nat, now: int)
    requires id in w.book
    ensures var p, g := w.book[id], CarryOut(w, id, now);
            && id in g.book && g.book[id] == p.(life := g.book[id].life)
            && (g.book[id] != p ==> p.life.state == Open)
            && (g.book[id] != p && g.book[id].life.state == Executed ==>
                  Execute(p, w.owners, now).Success? && Execute(p, w.owners, now).value.life.state == Executed)
            && (forall other :: other in w.book && other != id ==> other in g.book && g.book[other] == w.book[other])
            && g.book.Keys == w.book.Keys
  {
  }

  /** Cancelling, expiring and voiding close a life and touch nobody. */
  lemma ClosingChangesLife(p: Proposal, q: Proposal, actor: UserId, why: Why, now: int)
    requires Cancel(p, actor, now) == Success(q) || Expire(p, now) == Success(q) || MakeVoid(p, why, now) == Success(q)
    ensures q == p.(life := q.life) && (q != p ==> q.life.state != Executed)
  {
  }

  ghost predicate BookAccounted(f: Register, steps: seq<Step>) {
    forall id :: id in Run(f, steps).book ==> Accounted(f, steps, id, Run(f, steps).book[id])
  }

  /** What a step other than a filing or a carry makes of its proposal. */
  function Attempt(w: Register, s: Step): Result<Proposal>
    requires (s.CastVote? || s.TargetAnswers? || s.Withdraw? || s.TimeOut? || s.Annul?) && s.id in w.book
  {
    var p := w.book[s.id];
    match s
    case CastVote(_, voter, vote, now) => Vote(p, voter, vote, now)
    case TargetAnswers(_, answer, now) => if p.kind == Removal then Decide(p, answer, now) else Failure(Forbidden)
    case Withdraw(_, actor, now) => Cancel(p, actor, now)
    case TimeOut(_, now) => Expire(p, now)
    case Annul(_, why, now) => MakeVoid(p, why, now)
  }

  lemma AttemptIsApplied(w: Register, s: Step)
    requires (s.CastVote? || s.TargetAnswers? || s.Withdraw? || s.TimeOut? || s.Annul?) && s.id in w.book
    ensures Apply(w, s) == Updated(w, s.id, Attempt(w, s))
  {
  }

  lemma AttemptAccounts(f: Register, steps: seq<Step>, s: Step)
    requires (s.CastVote? || s.TargetAnswers? || s.Withdraw? || s.TimeOut? || s.Annul?) && s.id in Run(f, steps).book
    requires Accounted(f, steps, s.id, Run(f, steps).book[s.id])
    requires Attempt(Run(f, steps), s).Success? && Attempt(Run(f, steps), s).value != Run(f, steps).book[s.id]
    ensures Accounted(f, steps + [s], s.id, Attempt(Run(f, steps), s).value)
  {
    var p, q := Run(f, steps).book[s.id], Attempt(Run(f, steps), s).value;
    match s {
      case CastVote(id, voter, vote, now) =>
        VoteIsEvidenced(f, steps, id, p, voter, vote, now);
        VoteExecutesNothing(p, voter, vote, now);
      case TargetAnswers(id, answer, now) =>
        AnswerIsEvidenced(f, steps, id, p, answer, now);
        AnswerExecutesNothing(p, answer, now);
      case Withdraw(id, actor, now) => ClosingAccounts(f, steps, s, id, q, actor, InitiatorGone, now);
      case TimeOut(id, now) => ClosingAccounts(f, steps, s, id, q, 0, InitiatorGone, now);
      case Annul(id, why, now) => ClosingAccounts(f, steps, s, id, q, 0, why, now);
    }
  }

  lemma VoteExecutesNothing(p: Proposal, voter: UserId, vote: Ballot, now: int)
    requires Vote(p, voter, vote, now).Success?
    ensures Vote(p, voter, vote, now).value.life.state != Executed
  {
  }

  lemma AnswerExecutesNothing(p: Proposal, answer: Ballot, now: int)
    requires p.kind == Removal && Decide(p, answer, now).Success?
    ensures Decide(p, answer, now).value.life.state != Executed
  {
  }

  lemma StepAccounts(f: Register, steps: seq<Step>, s: Step, id: nat)
    requires BookAccounted(f, steps) && id in Apply(Run(f, steps), s).book
    ensures Accounted(f, steps + [s], id, Apply(Run(f, steps), s).book[id])
  {
    var w := Run(f, steps);
    if id in w.book && Apply(w, s).book[id] == w.book[id] {
      AccountLasts(f, steps, s, id, w.book[id]);
    } else if s.FileRemoval? || s.FileAdmission? || s.FileOfUser? {
      FilingAccounts(f, steps, s, id);
    } else if s.Carry? {
      CarryChangesLife(w, s.id, s.now);
      CarriedLifeIsAccounted(f, steps, id, w.book[id], s.now, CarryOut(w, id, s.now).book[id]);
    } else {
      OthersLeaveTheBook(w, s);
      AttemptIsApplied(w, s);
      AttemptAccounts(f, steps, s);
    }
  }

  lemma OthersLeaveTheBook(w: Register, s: Step)
    ensures s.Resign? || s.Genesis? || s.StripAdmin? || s.LoseVerdict? ==> Apply(w, s).book == w.book
    ensures (s.CastVote? || s.TargetAnswers? || s.Withdraw? || s.TimeOut? || s.Annul? || s.Carry?) ==>
              s.id !in w.book ==> Apply(w, s) == w
  {
  }

  lemma FilingAccounts(f: Register, steps: seq<Step>, s: Step, id: nat)
    requires s.FileRemoval? || s.FileAdmission? || s.FileOfUser?
    requires var w := Run(f, steps); id in Apply(w, s).book && (id !in w.book || Apply(w, s).book[id] != w.book[id])
    ensures Accounted(f, steps + [s], id, Apply(Run(f, steps), s).book[id])
  {
    var w := Run(f, steps);
    assert id == s.id && id !in w.book;
    FilingIsEvidenced(f, steps, s, Apply(w, s).book[id]);
  }

  lemma ClosingAccounts(f: Register, steps: seq<Step>, s: Step, id: nat, q: Proposal, actor: UserId, why: Why, now: int)
    requires id in Run(f, steps).book && Accounted(f, steps, id, Run(f, steps).book[id]) && q != Run(f, steps).book[id]
    requires var p := Run(f, steps).book[id];
             Cancel(p, actor, now) == Success(q) || Expire(p, now) == Success(q) || MakeVoid(p, why, now) == Success(q)
    ensures Accounted(f, steps + [s], id, q)
  {
    var p := Run(f, steps).book[id];
    ClosingChangesLife(p, q, actor, why, now);
    AccountLasts(f, steps, s, id, p);
    EvidenceIgnoresLife(f, steps + [s], id, p, q.life);
  }

  lemma {:induction false} RunAccounts(f: Register, steps: seq<Step>)
    requires f.book == map[]
    ensures BookAccounted(f, steps)
    decreases |steps|
  {
    if steps != [] {
      var n := |steps| - 1;
      RunAccounts(f, steps[..n]);
      BookAccounts(f, steps[..n], steps[n]);
      assert steps == steps[..n] + [steps[n]];
    }
  }

  lemma BookAccounts(f: Register, steps: seq<Step>, s: Step)
    requires BookAccounted(f, steps)
    ensures BookAccounted(f, steps + [s])
  {
    RunOfOneMore(f, steps, s);
    var v := Apply(Run(f, steps), s);
    forall id | id in v.book ensures Accounted(f, steps + [s], id, v.book[id]) {
      StepAccounts(f, steps, s, id);
    }
  }

  lemma RunOfOneMore(f: Register, steps: seq<Step>, s: Step)
    ensures Run(f, steps + [s]) == Apply(Run(f, steps), s)
  {
    assert (steps + [s])[..|steps|] == steps;
  }

  // ---- Nobody acts alone ----

  /** At step `acted`, `other` said yes to `p`: as the target of the removal, or as an owner
      asked when it was filed and still seated when it was carried. */
  ghost predicate SaysYes(f: Register, steps: seq<Step>, filed: nat, carried: nat, acted: nat, id: nat, p: Proposal,
                          other: UserId)
    requires filed <= |steps| && carried <= |steps| && acted < |steps|
  {
    || (p.kind == Removal && other == p.subject && AnswersOn(steps[acted], id, For))
    || (VotesOn(steps[acted], id, other, For) && other in Run(f, steps[..filed]).owners
        && other in Run(f, steps[..carried]).owners)
  }

  ghost predicate TwoBehind(f: Register, steps: seq<Step>, id: nat, p: Proposal, filed: nat, acted: nat,
                            carried: nat, other: UserId) {
    && filed < carried < |steps| && acted < carried
    && Files(steps[filed], id, p) && steps[carried].Carry? && steps[carried].id == id
    && p.initiator in Run(f, steps[..carried]).owners
    && other != p.initiator && SaysYes(f, steps, filed, carried, acted, id, p, other)
  }

  lemma CarriedByTwo(f: Register, steps: seq<Step>, k: nat, id: nat, p: Proposal)
    requires CarriedAt(f, steps, k, id, p)
    ensures exists filed: nat, acted: nat, other: UserId :: TwoBehind(f, steps, id, p, filed, acted, k, other)
  {
    var before := steps[..k];
    var filed: nat :| FiledAt(f, before, filed, id, p);
    assert before[..filed] == steps[..filed];
    if p.kind == Removal && p.decision == For && p.subject != p.initiator {
      var acted: nat :| acted < |before| && AnswersOn(before[acted], id, For);
      assert TwoBehind(f, steps, id, p, filed, acted, k, p.subject);
    } else {
      var q :| q in p.peers && q.user in Run(f, before).owners && q.vote == For && q.user != p.initiator;
      var acted: nat :| acted < |before| && VotesOn(before[acted], id, q.user, For);
      assert TwoBehind(f, steps, id, p, filed, acted, k, q.user);
    }
  }

  /** In every run from an empty book each executed proposal has two people behind it, each by
      a step of their own before it was carried: the initiator who filed it and still sits, and
      somebody else who said yes. And it was carried by all the seated peers, or a majority of
      them for a proposal about a user, or by its target's acceptance. */
  lemma NobodyActsAlone(f: Register, steps: seq<Step>, id: nat)
    requires f.book == map[]
    requires id in Run(f, steps).book && Run(f, steps).book[id].life.state == Executed
    ensures var p := Run(f, steps).book[id];
            exists k: nat :: CarriedAt(f, steps, k, id, p)
                        && exists filed: nat, acted: nat, other: UserId ::
                           TwoBehind(f, steps, id, p, filed, acted, k, other)
  {
    RunAccounts(f, steps);
    var p := Run(f, steps).book[id];
    var k: nat :| CarriedAt(f, steps, k, id, p);
    CarriedByTwo(f, steps, k, id, p);
  }

  /** In every run from an empty book each proposal still asks the people it was opened with,
      never its initiator or the target of a removal, and a proposal about a user passes over
      them exactly when it reaches the bar frozen when it was opened. */
  lemma SnapshotIsKept(f: Register, steps: seq<Step>, id: nat)
    requires f.book == map[] && id in Run(f, steps).book
    ensures Evidenced(f, steps, id, Run(f, steps).book[id])
    ensures MeasuredByItsBar(Run(f, steps).book[id])
  {
    RunAccounts(f, steps);
    SnapshotMeasures(Run(f, steps).book[id]);
  }

  ghost predicate MeasuredByItsBar(p: Proposal) {
    p.kind.OfUser? ==>
      && p.threshold == NeededVotes(|p.peers|)
      && (OutcomeOf(p) == Passes <==> Count(BallotsOf(p.peers), For) >= p.threshold)
  }

  lemma SnapshotMeasures(p: Proposal)
    requires Snapshotted(p)
    ensures MeasuredByItsBar(p)
  {
  }
}
