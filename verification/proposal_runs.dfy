/** The life of one proposal under any sequence of commands, and the audit events it
    leaves behind. */
module ProposalRuns {
  import opened Ballots
  import opened Results
  import opened Consilium

  datatype Command =
    | CastVote(voter: UserId, vote: Ballot, now: int)
    | TargetAnswers(answer: Ballot, now: int)
    | Withdraw(actor: UserId, now: int)
    | TimeOut(now: int)
    | Carry(owners: seq<UserId>, now: int)
    | Annul(reason: Why, now: int)
    | Drain

  /** A proposal with every event the adapter has drained from it so far. */
  datatype Tracked = Tracked(p: Proposal, drained: seq<Event>)

  function Log(t: Tracked): seq<Event> {
    t.drained + t.p.life.pending
  }

  function Attempt(p: Proposal, c: Command): Result<Proposal> {
    match c
    case CastVote(voter, vote, now) => Vote(p, voter, vote, now)
    case TargetAnswers(answer, now) => if p.kind == Removal then Decide(p, answer, now) else Failure(Forbidden)
    case Withdraw(actor, now) => Cancel(p, actor, now)
    case TimeOut(now) => Expire(p, now)
    case Carry(owners, now) => Execute(p, owners, now)
    case Annul(reason, now) => MakeVoid(p, reason, now)
    case Drain => Success(p.(life := p.life.(pending := [])))
  }

  /** A refused command changes nothing. */
  function Step(t: Tracked, c: Command): Tracked {
    match Attempt(t.p, c)
    case Failure(_) => t
    case Success(p) => Tracked(p, if c == Drain then Log(t) else t.drained)
  }

  function Run(t: Tracked, cs: seq<Command>): Tracked {
    if cs == [] then t else Step(Run(t, cs[..|cs| - 1]), cs[|cs| - 1])
  }

  predicate IsAnswer(e: Event) {
    e == PeerVoted || e == TargetDecided
  }

  function ClosingEvent(s: State): Event
    requires s != Open
  {
    match s
    case Executed => WasExecuted
    case Rejected => WasRejected
    case Expired => WasExpired
    case Cancelled => WasCancelled
    case Void => WasVoided
  }

  /** Opened, then answers, then at most one closing event, which is last. */
  ghost predicate InLanguage(log: seq<Event>, s: State) {
    var answersEnd := if s == Open then |log| else |log| - 1;
    && 1 <= answersEnd
    && log[0] == Opened
    && (forall i :: 1 <= i < answersEnd ==> IsAnswer(log[i]))
    && (s != Open ==> log[answersEnd] == ClosingEvent(s))
  }

  ghost predicate WellRun(t: Tracked) {
    && InLanguage(Log(t), t.p.life.state)
    && t.p.life.version == |Log(t)|
    && (t.p.life.state == Open ==> OutcomeOf(t.p) != Fails)
    && (t.p.kind != Removal ==> TargetDecided !in Log(t) && t.p.decision == Pending)
  }

  /** What a later state of a proposal may never have changed. */
  ghost predicate Preserves(p: Proposal, q: Proposal) {
    && q.kind == p.kind && q.subject == p.subject && q.initiator == p.initiator
    && q.threshold == p.threshold && q.ownerCount == p.ownerCount && q.reason == p.reason
    && q.life.createdAt == p.life.createdAt && q.life.expiresAt == p.life.expiresAt
    && |q.peers| == |p.peers|
    && (forall i :: 0 <= i < |p.peers| ==> q.peers[i].user == p.peers[i].user)
    && (forall i :: 0 <= i < |p.peers| && p.peers[i].vote != Pending ==> q.peers[i] == p.peers[i])
    && (p.decision != Pending ==> q.decision == p.decision && q.decidedAsTargetAt == p.decidedAsTargetAt)
    && (p.life.state != Open ==> q == p.(life := p.life.(pending := q.life.pending)))
    && p.life.version <= q.life.version
  }

  lemma AllPendingUndecided(peers: seq<Peer>)
    requires forall q :: q in peers ==> q.vote == Pending
    ensures Against !in BallotsOf(peers)
    ensures peers != [] ==> UnanimityOf(BallotsOf(peers)) == Undecided && MajorityOf(BallotsOf(peers)) == Undecided
  {
    BallotsMembership(peers, For);
    BallotsMembership(peers, Against);
    BallotsMembership(peers, Pending);
    CountPositive(BallotsOf(peers), For);
    CountPositive(BallotsOf(peers), Against);
    if peers != [] {
      assert peers[0] in peers;
    }
  }

  lemma OpenedIsWellRun(p: Proposal, k: Kind, subject: UserId, initiator: UserId, reason: string,
                        owners: seq<UserId>, now: int, ttl: int)
    requires match k
             case Removal => OpenRemoval(subject, initiator, reason, owners, now, ttl) == Success(p)
             case Admission => OpenAdmission(subject, initiator, reason, owners, now, ttl) == Success(p)
             case OfUser(s) => OpenOfUser(s, subject, initiator, reason, owners, now, ttl) == Success(p)
    ensures WellRun(Tracked(p, [])) && p.life.state == Open
  {
    AllPendingUndecided(p.peers);
  }

  /** What one effective command did: one answer, one closing event, or an answer and the
      rejection it completes. */
  ghost predicate Grew(p: Proposal, q: Proposal, tail: seq<Event>) {
    && q.life.pending == p.life.pending + tail && q.life.version == p.life.version + |tail|
    && (q.life.state == Open ==> |tail| == 1 && Answers(p, tail[0]) && OutcomeOf(q) != Fails)
    && (q.life.state != Open ==>
          || tail == [ClosingEvent(q.life.state)]
          || (q.life.state == Rejected && |tail| == 2 && Answers(p, tail[0]) && tail[1] == WasRejected))
    && (p.kind != Removal ==> q.decision == p.decision)
  }

  ghost predicate Answers(p: Proposal, e: Event) {
    IsAnswer(e) && (e == TargetDecided ==> p.kind == Removal)
  }

  lemma VoteGrows(p: Proposal, voter: UserId, vote: Ballot, now: int)
    requires Vote(p, voter, vote, now).Success? && Vote(p, voter, vote, now).value != p
    ensures var q := Vote(p, voter, vote, now).value;
            && p.life.state == Open && Preserves(p, q)
            && Grew(p, q, if q.life.state == Open then [PeerVoted] else [PeerVoted, WasRejected])
  {
  }

  lemma DecisionGrows(p: Proposal, answer: Ballot, now: int)
    requires p.kind == Removal && Decide(p, answer, now).Success? && Decide(p, answer, now).value != p
    ensures var q := Decide(p, answer, now).value;
            && p.life.state == Open && Preserves(p, q)
            && Grew(p, q, if q.life.state == Open then [TargetDecided] else [TargetDecided, WasRejected])
  {
  }

  lemma ClosingGrows(p: Proposal, c: Command)
    requires c.Withdraw? || c.TimeOut? || c.Carry? || c.Annul?
    requires Attempt(p, c).Success? && Attempt(p, c).value != p
    ensures var q := Attempt(p, c).value;
            && p.life.state == Open && q.life.state != Open && Preserves(p, q)
            && Grew(p, q, [ClosingEvent(q.life.state)])
  {
  }

  lemma GrowthIsWellRun(t: Tracked, q: Proposal, tail: seq<Event>)
    requires WellRun(t) && t.p.life.state == Open && q.kind == t.p.kind && Grew(t.p, q, tail)
    ensures WellRun(Tracked(q, t.drained))
  {
    var u := Tracked(q, t.drained);
    assert Log(u) == Log(t) + tail;
  }

  lemma StepIsWellRun(t: Tracked, c: Command)
    requires WellRun(t)
    ensures WellRun(Step(t, c)) && Preserves(t.p, Step(t, c).p)
  {
    match Attempt(t.p, c) {
      case Failure(_) =>
      case Success(q) =>
        if c == Drain {
          assert Log(Step(t, c)) == Log(t);
        } else if q != t.p {
          EffectGrows(t.p, c);
          var tail :| Grew(t.p, q, tail);
          GrowthIsWellRun(t, q, tail);
        }
    }
  }

  lemma EffectGrows(p: Proposal, c: Command)
    requires c != Drain && Attempt(p, c).Success? && Attempt(p, c).value != p
    ensures var q := Attempt(p, c).value;
            p.life.state == Open && Preserves(p, q) && exists tail :: Grew(p, q, tail)
  {
    match c {
      case CastVote(voter, vote, now) => VoteGrows(p, voter, vote, now);
      case TargetAnswers(answer, now) => DecisionGrows(p, answer, now);
      case _ => ClosingGrows(p, c);
    }
  }

  lemma PreservesTransitive(p: Proposal, q: Proposal, r: Proposal)
    requires Preserves(p, q) && Preserves(q, r)
    ensures Preserves(p, r)
  {
  }

  /** Over every run from a well-run state the language, the version and the no-dead-
      proposal invariant hold, cast votes never change, and closed states absorb. */
  lemma {:induction false} LifecycleLanguage(t: Tracked, cs: seq<Command>)
    requires WellRun(t)
    ensures WellRun(Run(t, cs)) && Preserves(t.p, Run(t, cs).p)
    decreases |cs|
  {
    if cs != [] {
      var before := Run(t, cs[..|cs| - 1]);
      LifecycleLanguage(t, cs[..|cs| - 1]);
      StepIsWellRun(before, cs[|cs| - 1]);
      PreservesTransitive(t.p, before.p, Run(t, cs).p);
    }
  }
}
