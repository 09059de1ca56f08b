/** The three aggregates as the source keeps them: objects that update their peers, their
    decision and their lifecycle in place. Every method is proved equal to the proposal
    function of module Consilium on `Model()`, so whatever is proved about proposals and
    their runs holds of the objects. */
module Aggregates {
  import opened Ballots
  import opened Results
  import opened Consilium

  /** What a refused command leaves behind, and what an accepted one does. */
  function After(before: Proposal, attempt: Result<Proposal>): Proposal {
    if attempt.Success? then attempt.value else before
  }

  function Answer(attempt: Result<Proposal>): Result<()> {
    if attempt.Success? then Success(()) else Failure(attempt.error)
  }

  function AnswerState(attempt: Result<Proposal>): Result<State> {
    if attempt.Success? then Success(attempt.value.life.state) else Failure(attempt.error)
  }

  /** The index of `voter` among the peers, or |peers|. */
  method Find(peers: seq<Peer>, voter: UserId) returns (i: nat)
    ensures i == FindPeer(peers, voter)
  {
    i := 0;
    while i < |peers| && peers[i].user != voter
      invariant i <= |peers|
      invariant FindPeer(peers, voter) == i + FindPeer(peers[i..], voter)
    {
      i := i + 1;
    }
  }

  /** A proposal to take one owner's seat. */
  class OwnerRemoval {
    const target: UserId
    const initiator: UserId
    const reason: string
    const ownerCount: nat
    var peers: seq<Peer>
    var decision: Ballot
    var decidedAsTargetAt: int
    var life: Lifecycle

    ghost function Model(): Proposal
      reads this
    {
      Proposal(Removal, target, initiator, reason, ownerCount, 0, peers,
               decision, decidedAsTargetAt, life)
    }

    constructor Rehydrate(p: Proposal)
      requires p.kind == Removal
      requires p.threshold == 0
      ensures Model() == p
    {
      target, initiator, reason, ownerCount := p.subject, p.initiator, p.reason, p.ownerCount;
      peers, life := p.peers, p.life;
      decision, decidedAsTargetAt := p.decision, p.decidedAsTargetAt;
    }

    static method Propose(target: UserId, initiator: UserId, reason: string, owners: seq<UserId>, now: int, ttl: int)
      returns (r: Result<OwnerRemoval>)
      ensures match OpenRemoval(target, initiator, reason, owners, now, ttl)
              case Failure(e) => r == Failure(e)
              case Success(p) => r.Success? && fresh(r.value) && r.value.Model() == p
    {
      var valid := ValidReason(reason);
      if valid.Failure? {
        return Failure(Validation);
      }
      if target == initiator {
        return Failure(Conflict);
      }
      if initiator !in owners {
        return Failure(Forbidden);
      }
      if target !in owners {
        return Failure(Validation);
      }
      if CheckFloor(|owners|).Failure? {
        return Failure(Conflict);
      }
      var peers := PeersAmong(owners, {target, initiator});
      var removal := new OwnerRemoval.Rehydrate(
        Proposal(Removal, target, initiator, valid.value, |owners|, 0, peers, Pending, 0,
                 Lifecycle(Open, now, SaturatingAdd(now, ttl), 0, Said(""), 0, [])));
      removal.life := removal.life.Emit(Opened);
      return Success(removal);
    }

    /** The passing rule over some of the peers, with the target's own answer. */
    method Tally(among: seq<Peer>) returns (o: Outcome)
      ensures o == RemovalOutcome(decision, among)
    {
      if decision == For {
        return Passes;
      }
      if Against in BallotsOf(among) {
        return Fails;
      }
      var u := Unanimity(BallotsOf(among));
      match u {
        case Passes => return Passes;
        case Fails => return if decision == Against then Fails else Undecided;
        case Undecided => return Undecided;
      }
    }

    method Outcome() returns (o: Outcome)
      ensures o == OutcomeOf(Model())
    {
      o := Tally(peers);
    }

    method OutcomeAmongOwners(owners: seq<UserId>) returns (o: Outcome)
      ensures o == OutcomeAmong(Model(), owners)
    {
      o := Tally(Seated(peers, owners));
    }

    method Resolve(now: int)
      modifies this`life
      ensures Model() == Resolved(old(Model()), now)
    {
      var o := Outcome();
      if life.state == Open && o == Fails {
        life := life.Close(Rejected, WasRejected, now);
      }
    }

    method PeerVote(voter: UserId, vote: Ballot, now: int) returns (r: Result<()>)
      modifies this
      ensures r == Answer(Vote(old(Model()), voter, vote, now))
      ensures Model() == After(old(Model()), Vote(old(Model()), voter, vote, now))
    {
      if life.state != Open {
        return Failure(Conflict);
      }
      if vote == Pending {
        return Failure(Validation);
      }
      var i := Find(peers, voter);
      if i == |peers| {
        return Failure(Forbidden);
      }
      if peers[i].vote == vote {
        return Success(());
      }
      if peers[i].vote != Pending {
        return Failure(Conflict);
      }
      peers := peers[i := peers[i].(vote := vote, votedAt := now)];
      life := life.Emit(PeerVoted);
      Resolve(now);
      return Success(());
    }

    method TargetDecision(vote: Ballot, now: int) returns (r: Result<()>)
      modifies this
      ensures r == Answer(Decide(old(Model()), vote, now))
      ensures Model() == After(old(Model()), Decide(old(Model()), vote, now))
    {
      if life.state != Open {
        return Failure(Conflict);
      }
      if vote == Pending {
        return Failure(Validation);
      }
      if decision == vote {
        return Success(());
      }
      if decision != Pending {
        return Failure(Conflict);
      }
      decision := vote;
      decidedAsTargetAt := now;
      life := life.Emit(TargetDecided);
      Resolve(now);
      return Success(());
    }

    method Withdraw(actor: UserId, now: int) returns (r: Result<()>)
      modifies this`life
      ensures r == Answer(Cancel(old(Model()), actor, now))
      ensures Model() == After(old(Model()), Cancel(old(Model()), actor, now))
    {
      if actor != initiator {
        return Failure(Forbidden);
      }
      if life.state == Cancelled {
        return Success(());
      }
      if life.state != Open {
        return Failure(Conflict);
      }
      life := life.Close(Cancelled, WasCancelled, now);
      return Success(());
    }

    method TimeOut(now: int) returns (r: Result<()>)
      modifies this`life
      ensures r == Answer(Expire(old(Model()), now))
      ensures Model() == After(old(Model()), Expire(old(Model()), now))
    {
      if life.state == Expired {
        return Success(());
      }
      if life.state != Open || now < life.expiresAt {
        return Failure(Conflict);
      }
      life := life.Close(Expired, WasExpired, now);
      return Success(());
    }

    /** Carry the verdict, re-decided against the roster as it stands now. */
    method ExecuteAgainst(owners: seq<UserId>, now: int) returns (r: Result<State>)
      modifies this`life
      ensures r == AnswerState(Execute(old(Model()), owners, now))
      ensures Model() == After(old(Model()), Execute(old(Model()), owners, now))
    {
      if life.state == Executed || life.state == Void {
        return Success(life.state);
      }
      if life.state != Open {
        return Failure(Conflict);
      }
      var o := OutcomeAmongOwners(owners);
      if o != Passes {
        return Failure(Conflict);
      }
      if initiator !in owners {
        life := life.CloseVoid(InitiatorGone, now);
      } else if CheckFloor(|owners|).Failure? {
        life := life.CloseVoid(BelowFloor, now);
      } else {
        life := life.Close(Executed, WasExecuted, now);
      }
      return Success(life.state);
    }

    method VoidFor(why: Why, now: int) returns (r: Result<()>)
      modifies this`life
      ensures r == Answer(MakeVoid(old(Model()), why, now))
      ensures Model() == After(old(Model()), MakeVoid(old(Model()), why, now))
    {
      if life.state == Void {
        return Success(());
      }
      if life.state != Open {
        return Failure(Conflict);
      }
      life := life.CloseVoid(why, now);
      return Success(());
    }

    method DrainEvents() returns (events: seq<Event>)
      modifies this`life
      ensures events == old(life.pending)
      ensures Model() == old(Model()).(life := old(life).(pending := []))
    {
      events := life.pending;
      life := life.(pending := []);
    }
  }

  /** A proposal to grant a seat; unanimity of every owner but the initiator. */
  class OwnerAdmission {
    const candidate: UserId
    const initiator: UserId
    const reason: string
    const ownerCount: nat
    var peers: seq<Peer>
    var life: Lifecycle

    ghost function Model(): Proposal
      reads this
    {
      Proposal(Admission, candidate, initiator, reason, ownerCount, 0, peers,
               Pending, 0, life)
    }

    constructor Rehydrate(p: Proposal)
      requires p.kind == Admission
      requires p.decision == Pending && p.decidedAsTargetAt == 0
      requires p.threshold == 0
      ensures Model() == p
    {
      candidate, initiator, reason, ownerCount := p.subject, p.initiator, p.reason, p.ownerCount;
      peers, life := p.peers, p.life;
    }

    static method Propose(candidate: UserId, initiator: UserId, reason: string, owners: seq<UserId>, now: int, ttl: int)
      returns (r: Result<OwnerAdmission>)
      ensures match OpenAdmission(candidate, initiator, reason, owners, now, ttl)
              case Failure(e) => r == Failure(e)
              case Success(p) => r.Success? && fresh(r.value) && r.value.Model() == p
    {
      var valid := ValidReason(reason);
      if valid.Failure? {
        return Failure(Validation);
      }
      if candidate == initiator {
        return Failure(Conflict);
      }
      if initiator !in owners {
        return Failure(Forbidden);
      }
      if candidate in owners {
        return Failure(Conflict);
      }
      var peers := PeersAmong(owners, {initiator});
      if peers == [] {
        return Failure(Conflict);
      }
      var admission := new OwnerAdmission.Rehydrate(
        Proposal(Admission, candidate, initiator, valid.value, |owners|, 0, peers, Pending, 0,
                 Lifecycle(Open, now, SaturatingAdd(now, ttl), 0, Said(""), 0, [])));
      admission.life := admission.life.Emit(Opened);
      return Success(admission);
    }

    method Outcome() returns (o: Outcome)
      ensures o == OutcomeOf(Model())
    {
      o := Unanimity(BallotsOf(peers));
    }

    method OutcomeAmongOwners(owners: seq<UserId>) returns (o: Outcome)
      ensures o == OutcomeAmong(Model(), owners)
    {
      o := Unanimity(BallotsOf(Seated(peers, owners)));
    }

    method CastVote(voter: UserId, vote: Ballot, now: int) returns (r: Result<()>)
      modifies this
      ensures r == Answer(Vote(old(Model()), voter, vote, now))
      ensures Model() == After(old(Model()), Vote(old(Model()), voter, vote, now))
    {
      if life.state != Open {
        return Failure(Conflict);
      }
      if vote == Pending {
        return Failure(Validation);
      }
      var i := Find(peers, voter);
      if i == |peers| {
        return Failure(Forbidden);
      }
      if peers[i].vote == vote {
        return Success(());
      }
      if peers[i].vote != Pending {
        return Failure(Conflict);
      }
      peers := peers[i := peers[i].(vote := vote, votedAt := now)];
      life := life.Emit(PeerVoted);
      var o := Outcome();
      if life.state == Open && o == Fails {
        life := life.Close(Rejected, WasRejected, now);
      }
      return Success(());
    }

    method Withdraw(actor: UserId, now: int) returns (r: Result<()>)
      modifies this`life
      ensures r == Answer(Cancel(old(Model()), actor, now))
      ensures Model() == After(old(Model()), Cancel(old(Model()), actor, now))
    {
      if actor != initiator {
        return Failure(Forbidden);
      }
      if life.state == Cancelled {
        return Success(());
      }
      if life.state != Open {
        return Failure(Conflict);
      }
      life := life.Close(Cancelled, WasCancelled, now);
      return Success(());
    }

    method TimeOut(now: int) returns (r: Result<()>)
      modifies this`life
      ensures r == Answer(Expire(old(Model()), now))
      ensures Model() == After(old(Model()), Expire(old(Model()), now))
    {
      if life.state == Expired {
        return Success(());
      }
      if life.state != Open || now < life.expiresAt {
        return Failure(Conflict);
      }
      life := life.Close(Expired, WasExpired, now);
      return Success(());
    }

    /** Carry the verdict, re-decided against the roster as it stands now. */
    method ExecuteAgainst(owners: seq<UserId>, now: int) returns (r: Result<State>)
      modifies this`life
      ensures r == AnswerState(Execute(old(Model()), owners, now))
      ensures Model() == After(old(Model()), Execute(old(Model()), owners, now))
    {
      if life.state == Executed || life.state == Void {
        return Success(life.state);
      }
      if life.state != Open {
        return Failure(Conflict);
      }
      var o := OutcomeAmongOwners(owners);
      if o != Passes {
        return Failure(Conflict);
      }
      if initiator !in owners {
        life := life.CloseVoid(InitiatorGone, now);
      } else if candidate in owners {
        life := life.CloseVoid(AlreadySeated, now);
      } else {
        life := life.Close(Executed, WasExecuted, now);
      }
      return Success(life.state);
    }

    method VoidFor(why: Why, now: int) returns (r: Result<()>)
      modifies this`life
      ensures r == Answer(MakeVoid(old(Model()), why, now))
      ensures Model() == After(old(Model()), MakeVoid(old(Model()), why, now))
    {
      if life.state == Void {
        return Success(());
      }
      if life.state != Open {
        return Failure(Conflict);
      }
      life := life.CloseVoid(why, now);
      return Success(());
    }

    method DrainEvents() returns (events: seq<Event>)
      modifies this`life
      ensures events == old(life.pending)
      ensures Model() == old(Model()).(life := old(life).(pending := []))
    {
      events := life.pending;
      life := life.(pending := []);
    }
  }

  /** The owners' verdict over one person's standing; a majority carries it. */
  class UserProposal {
    const subject: UserId
    const initiator: UserId
    const reason: string
    const ownerCount: nat
    const standing: Standing
    const threshold: nat
    var peers: seq<Peer>
    var life: Lifecycle

    ghost function Model(): Proposal
      reads this
    {
      Proposal(OfUser(standing), subject, initiator, reason, ownerCount, threshold, peers,
               Pending, 0, life)
    }

    constructor Rehydrate(p: Proposal)
      requires p.kind.OfUser?
      requires p.decision == Pending && p.decidedAsTargetAt == 0
      ensures Model() == p
    {
      subject, initiator, reason, ownerCount := p.subject, p.initiator, p.reason, p.ownerCount;
      standing, threshold := p.kind.standing, p.threshold;
      peers, life := p.peers, p.life;
    }

    static method Propose(standing: Standing, subject: UserId, initiator: UserId, reason: string,
                          owners: seq<UserId>, now: int, ttl: int)
      returns (r: Result<UserProposal>)
      ensures match OpenOfUser(standing, subject, initiator, reason, owners, now, ttl)
              case Failure(e) => r == Failure(e)
              case Success(p) => r.Success? && fresh(r.value) && r.value.Model() == p
    {
      var valid := ValidReason(reason);
      if valid.Failure? {
        return Failure(Validation);
      }
      if initiator !in owners {
        return Failure(Forbidden);
      }
      if subject == initiator {
        return Failure(Conflict);
      }
      var peers := PeersAmong(owners, {initiator});
      if peers == [] {
        return Failure(Conflict);
      }
      var proposal := new UserProposal.Rehydrate(
        Proposal(OfUser(standing), subject, initiator, valid.value, |owners|, NeededVotes(|peers|), peers, Pending, 0,
                 Lifecycle(Open, now, SaturatingAdd(now, ttl), 0, Said(""), 0, [])));
      proposal.life := proposal.life.Emit(Opened);
      return Success(proposal);
    }

    method Outcome() returns (o: Outcome)
      ensures o == OutcomeOf(Model())
    {
      o := Majority(BallotsOf(peers));
    }

    method OutcomeAmongOwners(owners: seq<UserId>) returns (o: Outcome)
      ensures o == OutcomeAmong(Model(), owners)
    {
      o := Majority(BallotsOf(Seated(peers, owners)));
    }

    method CastVote(voter: UserId, vote: Ballot, now: int) returns (r: Result<()>)
      modifies this
      ensures r == Answer(Vote(old(Model()), voter, vote, now))
      ensures Model() == After(old(Model()), Vote(old(Model()), voter, vote, now))
    {
      if life.state != Open {
        return Failure(Conflict);
      }
      if vote == Pending {
        return Failure(Validation);
      }
      var i := Find(peers, voter);
      if i == |peers| {
        return Failure(Forbidden);
      }
      if peers[i].vote == vote {
        return Success(());
      }
      if peers[i].vote != Pending {
        return Failure(Conflict);
      }
      peers := peers[i := peers[i].(vote := vote, votedAt := now)];
      life := life.Emit(PeerVoted);
      var o := Outcome();
      if life.state == Open && o == Fails {
        life := life.Close(Rejected, WasRejected, now);
      }
      return Success(());
    }

    method Withdraw(actor: UserId, now: int) returns (r: Result<()>)
      modifies this`life
      ensures r == Answer(Cancel(old(Model()), actor, now))
      ensures Model() == After(old(Model()), Cancel(old(Model()), actor, now))
    {
      if actor != initiator {
        return Failure(Forbidden);
      }
      if life.state == Cancelled {
        return Success(());
      }
      if life.state != Open {
        return Failure(Conflict);
      }
      life := life.Close(Cancelled, WasCancelled, now);
      return Success(());
    }

    method TimeOut(now: int) returns (r: Result<()>)
      modifies this`life
      ensures r == Answer(Expire(old(Model()), now))
      ensures Model() == After(old(Model()), Expire(old(Model()), now))
    {
      if life.state == Expired {
        return Success(());
      }
      if life.state != Open || now < life.expiresAt {
        return Failure(Conflict);
      }
      life := life.Close(Expired, WasExpired, now);
      return Success(());
    }

    /** Carry the verdict, re-decided against the roster as it stands now. */
    method ExecuteAgainst(owners: seq<UserId>, now: int) returns (r: Result<State>)
      modifies this`life
      ensures r == AnswerState(Execute(old(Model()), owners, now))
      ensures Model() == After(old(Model()), Execute(old(Model()), owners, now))
    {
      if life.state == Executed || life.state == Void {
        return Success(life.state);
      }
      if life.state != Open {
        return Failure(Conflict);
      }
      var o := OutcomeAmongOwners(owners);
      if o != Passes {
        return Failure(Conflict);
      }
      if initiator !in owners {
        life := life.CloseVoid(InitiatorGone, now);
      } else {
        life := life.Close(Executed, WasExecuted, now);
      }
      return Success(life.state);
    }

    method VoidFor(why: Why, now: int) returns (r: Result<()>)
      modifies this`life
      ensures r == Answer(MakeVoid(old(Model()), why, now))
      ensures Model() == After(old(Model()), MakeVoid(old(Model()), why, now))
    {
      if life.state == Void {
        return Success(());
      }
      if life.state != Open {
        return Failure(Conflict);
      }
      life := life.CloseVoid(why, now);
      return Success(());
    }

    method DrainEvents() returns (events: seq<Event>)
      modifies this`life
      ensures events == old(life.pending)
      ensures Model() == old(Model()).(life := old(life).(pending := []))
    {
      events := life.pending;
      life := life.(pending := []);
    }
  }
}
