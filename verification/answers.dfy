/** What each command does to a proposal, field by field: when it is refused and why, what it
    records, whom it closes the proposal for, and what it leaves as it was. */
module Answers {
  import opened Ballots
  import opened Results
  import opened Consilium
  import opened Attrition

  /** Nobody can carry it any more: a peer of a removal said no, its target not having
      accepted, or its target refused where no peer is asked; and no way of answering the
      pending ballots carries an admission or a proposal about a user. */
  ghost predicate Lost(p: Proposal) {
    match p.kind
    case Removal =>
      p.decision != For && ((exists q :: q in p.peers && q.vote == Against) || (p.peers == [] && p.decision == Against))
    case Admission => forall c :: IsCompletion(BallotsOf(p.peers), c) ==> !CarriesUnanimously(c)
    case OfUser(_) => forall c :: IsCompletion(BallotsOf(p.peers), c) ==> !CarriesByMajority(c)
  }

  lemma LostExactly(p: Proposal)
    ensures Lost(p) <==> OutcomeOf(p) == Fails
  {
    BallotsMembership(p.peers, Against);
    UnanimityIsExact(BallotsOf(p.peers));
    MajorityIsExact(BallotsOf(p.peers));
  }

  /** `q` is `p` with `events` emitted, closed as `to` at `now` unless `to` is Open. */
  ghost predicate LifeMoves(p: Proposal, q: Proposal, to: State, events: seq<Event>, now: int) {
    && q.life.state == to
    && q.life.decidedAt == (if to == Open then p.life.decidedAt else now)
    && q.life.pending == p.life.pending + events && q.life.version == p.life.version + |events|
    && q.life.createdAt == p.life.createdAt && q.life.expiresAt == p.life.expiresAt
    && (to != Void ==> q.life.voidReason == p.life.voidReason)
  }

  ghost predicate Answered(p: Proposal, q: Proposal, event: Event, now: int) {
    if Lost(q) then LifeMoves(p, q, Rejected, [event, WasRejected], now) else LifeMoves(p, q, Open, [event], now)
  }

  /** `i` is the voter's row, or one past the last when they were not asked. */
  ghost predicate RowOf(p: Proposal, voter: UserId, i: nat) {
    && i <= |p.peers| && (i < |p.peers| ==> p.peers[i].user == voter)
    && forall j :: 0 <= j < i ==> p.peers[j].user != voter
  }

  lemma FindPeerFinds(p: Proposal, voter: UserId, i: nat)
    requires RowOf(p, voter, i)
    ensures FindPeer(p.peers, voter) == i
  {
    assert i <= FindPeer(p.peers, voter);
  }

  /** A vote is refused exactly when the proposal is closed, it says nothing, the voter is not
      asked, or they have said something else; repeating an answer changes nothing; and a
      first answer is recorded in the voter's row and nowhere else, closing the proposal
      exactly when nobody can carry it any more. */
  lemma VoteDoes(p: Proposal, voter: UserId, vote: Ballot, now: int, i: nat)
    requires RowOf(p, voter, i)
    ensures var r := Vote(p, voter, vote, now);
            && (p.life.state != Open ==> r == Failure(Conflict))
            && (p.life.state == Open && vote == Pending ==> r == Failure(Validation))
            && (p.life.state == Open && vote != Pending && i == |p.peers| ==> r == Failure(Forbidden))
            && (p.life.state == Open && vote != Pending && i < |p.peers| ==>
                  && (p.peers[i].vote == vote ==> r == Success(p))
                  && (p.peers[i].vote != vote && p.peers[i].vote != Pending ==> r == Failure(Conflict))
                  && (p.peers[i].vote == Pending ==> r.Success? && VoteRecorded(p, r.value, i, vote, now)))
  {
    FindPeerFinds(p, voter, i);
    if p.life.state == Open && vote != Pending && i < |p.peers| && p.peers[i].vote == Pending {
      LostExactly(Vote(p, voter, vote, now).value);
      ResolvedLooksAtAnswers(p.(peers := p.peers[i := Peer(voter, vote, now)], life := p.life.Emit(PeerVoted)), now);
    }
  }

  ghost predicate VoteRecorded(p: Proposal, q: Proposal, i: nat, vote: Ballot, now: int)
    requires i < |p.peers|
  {
    && |q.peers| == |p.peers| && q.peers[i] == Peer(p.peers[i].user, vote, now)
    && (forall j :: 0 <= j < |p.peers| && j != i ==> q.peers[j] == p.peers[j])
    && q == p.(peers := q.peers, life := q.life)
    && Answered(p, q, PeerVoted, now)
  }

  /** Closing changes no answer, so the verdict that closed a proposal is still its verdict. */
  lemma ResolvedLooksAtAnswers(p: Proposal, now: int)
    ensures OutcomeOf(Resolved(p, now)) == OutcomeOf(p)
  {
  }

  /** The same of the target's own answer. */
  lemma DecideDoes(p: Proposal, answer: Ballot, now: int)
    requires p.kind == Removal
    ensures var r := Decide(p, answer, now);
            && (p.life.state != Open ==> r == Failure(Conflict))
            && (p.life.state == Open && answer == Pending ==> r == Failure(Validation))
            && (p.life.state == Open && answer != Pending ==>
                  && (p.decision == answer ==> r == Success(p))
                  && (p.decision != answer && p.decision != Pending ==> r == Failure(Conflict))
                  && (p.decision == Pending ==>
                        && r.Success?
                        && var q := r.value;
                           && q == p.(decision := answer, decidedAsTargetAt := now, life := q.life)
                           && Answered(p, q, TargetDecided, now)))
  {
    if p.life.state == Open && answer != Pending && p.decision == Pending {
      LostExactly(Decide(p, answer, now).value);
      ResolvedLooksAtAnswers(p.(decision := answer, decidedAsTargetAt := now, life := p.life.Emit(TargetDecided)), now);
    }
  }

  /** Only the initiator withdraws, and only what is open; withdrawing again changes nothing. */
  lemma CancelDoes(p: Proposal, actor: UserId, now: int)
    ensures var r := Cancel(p, actor, now);
            && (actor != p.initiator ==> r == Failure(Forbidden))
            && (actor == p.initiator && p.life.state == Cancelled ==> r == Success(p))
            && (actor == p.initiator && p.life.state != Cancelled && p.life.state != Open ==> r == Failure(Conflict))
            && (actor == p.initiator && p.life.state == Open ==>
                  && r.Success? && r.value == p.(life := r.value.life)
                  && LifeMoves(p, r.value, Cancelled, [WasCancelled], now))
  {
  }

  /** Only an open proposal past its deadline expires. */
  lemma ExpireDoes(p: Proposal, now: int)
    ensures var r := Expire(p, now);
            && (p.life.state == Expired ==> r == Success(p))
            && (p.life.state != Expired && (p.life.state != Open || now < p.life.expiresAt) ==> r == Failure(Conflict))
            && (p.life.state == Open && now >= p.life.expiresAt ==>
                  && r.Success? && r.value == p.(life := r.value.life)
                  && LifeMoves(p, r.value, Expired, [WasExpired], now))
  {
  }

  /** Voiding keeps the reason given, a text of the caller's cut at two hundred characters. */
  lemma MakeVoidDoes(p: Proposal, why: Why, now: int)
    ensures var r := MakeVoid(p, why, now);
            && (p.life.state == Void ==> r == Success(p))
            && (p.life.state != Void && p.life.state != Open ==> r == Failure(Conflict))
            && (p.life.state == Open ==>
                  && r.Success? && r.value == p.(life := r.value.life)
                  && LifeMoves(p, r.value, Void, [WasVoided], now) && KeepsReason(why, r.value.life.voidReason))
  {
  }

  ghost predicate KeepsReason(given: Why, kept: Why) {
    if given.Said? then
      kept.Said? && kept.text <= given.text && |kept.text| == if |given.text| < 200 then |given.text| else 200
    else kept == given
  }

  /** Its answers carry it: the accepting target or every peer of a removal, every peer of an
      admission, more than half of those asked about a user. */
  ghost predicate Agreed(p: Proposal) {
    match p.kind
    case Removal => p.decision == For || (p.peers != [] && forall q :: q in p.peers ==> q.vote == For)
    case Admission => p.peers != [] && forall q :: q in p.peers ==> q.vote == For
    case OfUser(_) => 2 * Count(BallotsOf(p.peers), For) > |p.peers|
  }

  lemma AgreedExactly(p: Proposal)
    ensures Agreed(p) <==> OutcomeOf(p) == Passes
  {
    BallotsMembership(p.peers, Against);
    BallotsMembership(p.peers, Pending);
    if p.peers != [] {
      assert p.peers[0] in p.peers;
      assert BallotsOf(p.peers)[0] in BallotsOf(p.peers);
    }
  }

  /** Who must be behind a proposal against the roster: the accepting target or all the seated
      peers of a removal, all of an admission's, most of a proposal's about a user. */
  ghost predicate Backed(p: Proposal, owners: seq<UserId>) {
    match p.kind
    case Removal => p.decision == For || SeatedUnanimous(p, owners)
    case Admission => SeatedUnanimous(p, owners)
    case OfUser(_) => SeatedMajority(p, owners)
  }

  /** Execution is refused without that backing; with it the proposal is executed, unless its
      initiator has lost their seat, the seat cannot be spared, or is held already. */
  lemma ExecuteDoes(p: Proposal, owners: seq<UserId>, now: int)
    ensures var r := Execute(p, owners, now);
            && (p.life.state == Executed || p.life.state == Void ==> r == Success(p))
            && (p.life.state in {Rejected, Expired, Cancelled} ==> r == Failure(Conflict))
            && (p.life.state == Open && !Backed(p, owners) ==> r == Failure(Conflict))
            && (p.life.state == Open && Backed(p, owners) ==>
                  && r.Success? && r.value == p.(life := r.value.life) && ExecutionEnds(p, r.value, owners, now))
  {
    PassesAmongExactly(p, owners);
  }

  ghost predicate ExecutionEnds(p: Proposal, q: Proposal, owners: seq<UserId>, now: int) {
    if p.initiator !in owners then
      LifeMoves(p, q, Void, [WasVoided], now) && q.life.voidReason == InitiatorGone
    else if p.kind == Removal && |owners| <= 2 then
      LifeMoves(p, q, Void, [WasVoided], now) && q.life.voidReason == BelowFloor
    else if p.kind == Admission && p.subject in owners then
      LifeMoves(p, q, Void, [WasVoided], now) && q.life.voidReason == AlreadySeated
    else LifeMoves(p, q, Executed, [WasExecuted], now)
  }

  // ---- Openings ----

  /** Everybody in the roster but `excluded` is asked, nobody else, and nobody has answered. */
  ghost predicate Asks(p: Proposal, owners: seq<UserId>, excluded: set<UserId>) {
    && (forall u :: u in owners && u !in excluded <==> exists q :: q in p.peers && q.user == u)
    && (forall q :: q in p.peers ==> q.vote == Pending && q.votedAt == 0)
    && ((forall i, j :: 0 <= i < j < |owners| ==> owners[i] != owners[j]) ==> DistinctUsers(p.peers))
  }

  lemma {:induction false} AskedUnanswered(owners: seq<UserId>, excluded: set<UserId>)
    ensures forall q :: q in PeersAmong(owners, excluded) ==> q.votedAt == 0
  {
    if owners != [] {
      AskedUnanswered(owners[1..], excluded);
    }
  }

  lemma PeersAreAsked(p: Proposal, owners: seq<UserId>, excluded: set<UserId>)
    requires p.peers == PeersAmong(owners, excluded)
    ensures Asks(p, owners, excluded)
  {
    AskedUnanswered(owners, excluded);
    forall u | u in owners && u !in excluded ensures exists q :: q in p.peers && q.user == u {
      assert Peer(u, Pending, 0) in p.peers;
    }
    if forall i, j :: 0 <= i < j < |owners| ==> owners[i] != owners[j] {
      PeersAmongDistinct(owners, excluded);
    }
  }

  ghost predicate FreshlyOpened(p: Proposal, kind: Kind, subject: UserId, initiator: UserId, reason: string,
                                owners: seq<UserId>, now: int, ttl: int)
  {
    && p.kind == kind && p.subject == subject && p.initiator == initiator && p.reason == Trim(reason)
    && p.ownerCount == |owners| && p.decision == Pending && p.decidedAsTargetAt == 0
    && p.life.state == Open && p.life.createdAt == now && p.life.expiresAt == SaturatingAdd(now, ttl)
    && p.life.version == 1 && p.life.pending == [Opened]
  }

  predicate SaysSomething(reason: string) {
    1 <= |Trim(reason)| <= 500
  }

  /** A removal opens over a roster of three and more that holds both its people, who differ,
      for a reason of one to five hundred characters, and asks everybody else. */
  lemma OpenRemovalDoes(target: UserId, initiator: UserId, reason: string, owners: seq<UserId>, now: int, ttl: int)
    ensures var r := OpenRemoval(target, initiator, reason, owners, now, ttl);
            && (r.Success? <==> SaysSomething(reason) && target != initiator && initiator in owners
                                && target in owners && |owners| >= 3)
            && (r.Success? ==>
                  && FreshlyOpened(r.value, Removal, target, initiator, reason, owners, now, ttl)
                  && Asks(r.value, owners, {target, initiator}) && r.value.threshold == 0)
  {
    if OpenRemoval(target, initiator, reason, owners, now, ttl).Success? {
      PeersAreAsked(OpenRemoval(target, initiator, reason, owners, now, ttl).value, owners, {target, initiator});
    }
  }

  /** An admission opens for somebody without a seat, when the initiator is not the only owner. */
  lemma OpenAdmissionDoes(candidate: UserId, initiator: UserId, reason: string, owners: seq<UserId>, now: int, ttl: int)
    ensures var r := OpenAdmission(candidate, initiator, reason, owners, now, ttl);
            && (r.Success? <==> SaysSomething(reason) && candidate != initiator && initiator in owners
                                && candidate !in owners && exists u :: u in owners && u != initiator)
            && (r.Success? ==>
                  && FreshlyOpened(r.value, Admission, candidate, initiator, reason, owners, now, ttl)
                  && Asks(r.value, owners, {initiator}) && r.value.threshold == 0)
  {
    if OpenAdmission(candidate, initiator, reason, owners, now, ttl).Success? {
      PeersAreAsked(OpenAdmission(candidate, initiator, reason, owners, now, ttl).value, owners, {initiator});
    }
    SomebodyToAsk(owners, initiator);
  }

  lemma SomebodyToAsk(owners: seq<UserId>, initiator: UserId)
    ensures PeersAmong(owners, {initiator}) != [] <==> exists u :: u in owners && u != initiator
  {
    var peers := PeersAmong(owners, {initiator});
    if peers != [] {
      assert peers[0] in peers && peers[0].user in owners;
    }
    if u :| u in owners && u != initiator {
      assert Peer(u, Pending, 0) in peers;
    }
  }

  /** A proposal about a user likewise, its bar the least strict majority of those asked. */
  lemma OpenOfUserDoes(standing: Standing, subject: UserId, initiator: UserId, reason: string, owners: seq<UserId>,
                       now: int, ttl: int)
    ensures var r := OpenOfUser(standing, subject, initiator, reason, owners, now, ttl);
            && (r.Success? <==> SaysSomething(reason) && subject != initiator && initiator in owners
                                && exists u :: u in owners && u != initiator)
            && (r.Success? ==>
                  && FreshlyOpened(r.value, OfUser(standing), subject, initiator, reason, owners, now, ttl)
                  && Asks(r.value, owners, {initiator})
                  && 2 * r.value.threshold > |r.value.peers| >= 2 * (r.value.threshold - 1))
  {
    if OpenOfUser(standing, subject, initiator, reason, owners, now, ttl).Success? {
      PeersAreAsked(OpenOfUser(standing, subject, initiator, reason, owners, now, ttl).value, owners, {initiator});
    }
    SomebodyToAsk(owners, initiator);
  }
}
