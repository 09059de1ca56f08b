/** What a roster that moves does to a proposal: who leaving carries it, who leaving undoes it,
    and what becomes of the bar frozen when it was opened. */
module Attrition {
  import opened Ballots
  import opened Results
  import opened Consilium

  // ---- The owner consilia ----

  /** Attrition can carry an owner consilium that had not passed: exactly when the peers
      still to answer have all left and a For voter remains. */
  lemma AttritionCarriesExactly(p: Proposal, owners: seq<UserId>)
    requires p.kind == Removal || p.kind == Admission
    requires p.life.state == Open && OutcomeOf(p) == Undecided
    ensures OutcomeAmong(p, owners) == Passes <==>
            && (exists q :: q in p.peers && q.user in owners && q.vote == For)
            && (forall q :: q in p.peers && q.vote == Pending ==> q.user !in owners)
  {
    PassesAmongExactly(p, owners);
    BallotsMembership(p.peers, Against);
  }

  /** Attrition undoes a passed owner consilium exactly when nobody asked is left, and
      never when the target of a removal accepted. */
  lemma AttritionUndoesExactly(p: Proposal, owners: seq<UserId>)
    requires p.kind == Removal || p.kind == Admission
    requires p.life.state == Open && OutcomeOf(p) == Passes
    ensures OutcomeAmong(p, owners) != Passes <==>
            && (p.kind == Removal ==> p.decision != For)
            && (forall q :: q in p.peers ==> q.user !in owners)
  {
    PassesAmongExactly(p, owners);
    BallotsMembership(p.peers, Against);
    BallotsMembership(p.peers, Pending);
    assert forall q :: q in p.peers ==> q.vote == Pending || q.vote == For || q.vote == Against;
  }

  // ---- Attrition and the majority ----

  /** The snapshotted peers who no longer sit. */
  function Gone(peers: seq<Peer>, owners: seq<UserId>): (r: seq<Peer>)
    ensures forall p :: p in r <==> p in peers && p.user !in owners
  {
    if peers == [] then []
    else (if peers[0].user in owners then [] else [peers[0]]) + Gone(peers[1..], owners)
  }

  function ForVotes(peers: seq<Peer>): (n: nat)
    ensures n <= |peers|
  {
    if peers == [] then 0 else (if peers[0].vote == For then 1 else 0) + ForVotes(peers[1..])
  }

  lemma CountCons(p: Peer, rest: seq<Peer>)
    ensures Count(BallotsOf([p] + rest), For) == Count(BallotsOf(rest), For) + if p.vote == For then 1 else 0
  {
    assert BallotsOf([p] + rest) == [p.vote] + BallotsOf(rest);
    CountConcat([p.vote], BallotsOf(rest), For);
    assert [p.vote][..0] == [];
  }

  lemma {:induction false} ForVotesAreCounted(peers: seq<Peer>)
    ensures Count(BallotsOf(peers), For) == ForVotes(peers)
  {
    if peers != [] {
      ForVotesAreCounted(peers[1..]);
      CountCons(peers[0], peers[1..]);
      assert peers == [peers[0]] + peers[1..];
    }
  }

  lemma {:induction false} SeatedAndGone(peers: seq<Peer>, owners: seq<UserId>)
    ensures |Seated(peers, owners)| + |Gone(peers, owners)| == |peers|
    ensures ForVotes(Seated(peers, owners)) + ForVotes(Gone(peers, owners)) == ForVotes(peers)
  {
    if peers != [] {
      var rest := peers[1..];
      SeatedAndGone(rest, owners);
      SeatedSplits(peers, owners);
      if peers[0].user in owners {
        assert Gone(peers, owners) == Gone(rest, owners);
      } else {
        assert Gone(peers, owners)[1..] == Gone(rest, owners);
      }
    }
  }

  /** By how much For leads everything else, Pending and Against alike. */
  function Lead(peers: seq<Peer>): int {
    2 * ForVotes(peers) - |peers|
  }

  /** A proposal about a user passes against a roster exactly when its lead over the whole
      snapshot exceeds the lead among those who left. */
  lemma MajorityAmongExactly(p: Proposal, owners: seq<UserId>)
    requires p.kind.OfUser?
    ensures OutcomeAmong(p, owners) == Passes <==> Lead(p.peers) > Lead(Gone(p.peers, owners))
    ensures OutcomeOf(p) == Passes <==> Lead(p.peers) > 0
  {
    PassesAmongExactly(p, owners);
    SeatedAndGone(p.peers, owners);
    ForVotesAreCounted(Seated(p.peers, owners));
    ForVotesAreCounted(p.peers);
  }

  /** Attrition carries one that had not passed exactly when those who left were behind by
      more than the whole snapshot is. */
  lemma AttritionCarriesMajorityExactly(p: Proposal, owners: seq<UserId>)
    requires p.kind.OfUser? && OutcomeOf(p) != Passes
    ensures OutcomeAmong(p, owners) == Passes <==>
              var gone := Gone(p.peers, owners);
              |gone| - 2 * ForVotes(gone) > |p.peers| - 2 * ForVotes(p.peers)
  {
    MajorityAmongExactly(p, owners);
  }

  /** And undoes one that had exactly when those who left led by at least as much as the
      whole snapshot does. */
  lemma AttritionUndoesMajorityExactly(p: Proposal, owners: seq<UserId>)
    requires p.kind.OfUser? && OutcomeOf(p) == Passes
    ensures OutcomeAmong(p, owners) != Passes <==>
              var gone := Gone(p.peers, owners);
              2 * ForVotes(gone) - |gone| >= 2 * ForVotes(p.peers) - |p.peers|
  {
    MajorityAmongExactly(p, owners);
  }

  /** What is true of attrition: losing only peers who voted For never carries anything. */
  lemma LosingForVotesOnlyHarder(p: Proposal, before: seq<UserId>, after: seq<UserId>)
    requires forall q :: q in p.peers && q.user in after ==> q.user in before
    requires forall q :: q in p.peers && q.user in before && q.user !in after ==> q.vote == For
    ensures OutcomeAmong(p, after) == Passes ==> OutcomeAmong(p, before) == Passes
  {
    PassesAmongExactly(p, before);
    PassesAmongExactly(p, after);
    ForVotesAreCounted(Seated(p.peers, before));
    ForVotesAreCounted(Seated(p.peers, after));
    LosingForVotes(p.peers, before, after);
  }

  lemma {:induction false} LosingForVotes(peers: seq<Peer>, before: seq<UserId>, after: seq<UserId>)
    requires forall q :: q in peers && q.user in after ==> q.user in before
    requires forall q :: q in peers && q.user in before && q.user !in after ==> q.vote == For
    ensures |Seated(peers, after)| <= |Seated(peers, before)|
    ensures Lead(Seated(peers, before)) - Lead(Seated(peers, after)) == |Seated(peers, before)| - |Seated(peers, after)|
  {
    if peers != [] {
      assert peers[0] in peers;
      LosingForVotes(peers[1..], before, after);
      SeatedSplits(peers, before);
      SeatedSplits(peers, after);
    }
  }

  lemma SeatedSplits(peers: seq<Peer>, owners: seq<UserId>)
    requires peers != []
    ensures var rest := Seated(peers[1..], owners);
            if peers[0].user in owners
            then && |Seated(peers, owners)| == |rest| + 1
                 && ForVotes(Seated(peers, owners)) == ForVotes(rest) + (if peers[0].vote == For then 1 else 0)
            else Seated(peers, owners) == rest
  {
    if peers[0].user in owners {
      assert Seated(peers, owners)[1..] == Seated(peers[1..], owners);
    }
  }

  // ---- The frozen bar ----

  /** The frozen bar is the verdict's own: over the snapshot a proposal about a user passes
      exactly when its For votes reach it. */
  lemma BarIsTheVerdict(p: Proposal)
    requires p.kind.OfUser? && Snapshotted(p)
    ensures OutcomeOf(p) == Passes <==> ForVotes(p.peers) >= p.threshold
  {
    ForVotesAreCounted(p.peers);
  }

  /** But `Execute` measures against the seated peers alone: it carries a proposal below its
      bar exactly when attrition made up what was missing. */
  lemma ExecutesBelowBarExactly(p: Proposal, owners: seq<UserId>, now: int)
    requires p.kind.OfUser? && Snapshotted(p) && p.life.state == Open && p.initiator in owners
    requires ForVotes(p.peers) < p.threshold
    ensures (Execute(p, owners, now).Success? && Execute(p, owners, now).value.life.state == Executed) <==>
              var gone := Gone(p.peers, owners);
              |gone| - 2 * ForVotes(gone) > |p.peers| - 2 * ForVotes(p.peers)
  {
    BarIsTheVerdict(p);
    AttritionCarriesMajorityExactly(p, owners);
    CarriesExactly(p, owners, now);
  }

  lemma CarriesExactly(p: Proposal, owners: seq<UserId>, now: int)
    requires p.kind.OfUser? && p.life.state == Open && p.initiator in owners
    ensures (Execute(p, owners, now).Success? && Execute(p, owners, now).value.life.state == Executed) <==>
            OutcomeAmong(p, owners) == Passes
  {
  }

  // ---- One vote, and everybody else gone ----

  ghost predicate DistinctUsers(peers: seq<Peer>) {
    forall i, j :: 0 <= i < j < |peers| ==> peers[i].user != peers[j].user
  }

  lemma {:induction false} PeersAmongDistinct(owners: seq<UserId>, excluded: set<UserId>)
    requires forall i, j :: 0 <= i < j < |owners| ==> owners[i] != owners[j]
    ensures DistinctUsers(PeersAmong(owners, excluded))
  {
    if owners != [] {
      PeersAmongDistinct(owners[1..], excluded);
      var rest := PeersAmong(owners[1..], excluded);
      forall q | q in rest ensures q.user != owners[0] {
        assert q.user in owners[1..];
      }
    }
  }

  lemma {:induction false} AllForCounts(peers: seq<Peer>)
    requires forall q :: q in peers ==> q.vote == For
    ensures ForVotes(peers) == |peers|
  {
    if peers != [] {
      assert peers[0] in peers;
      AllForCounts(peers[1..]);
    }
  }

  lemma {:induction false} NoneForCounts(peers: seq<Peer>)
    requires forall q :: q in peers ==> q.vote != For
    ensures ForVotes(peers) == 0
  {
    if peers != [] {
      assert peers[0] in peers;
      NoneForCounts(peers[1..]);
    }
  }

  /** Exactly one of the peers said For, and the rest have yet to answer. */
  ghost predicate OnlyVote(peers: seq<Peer>, voter: UserId) {
    && DistinctUsers(peers)
    && (exists q :: q in peers && q.user == voter)
    && (forall q :: q in peers ==> q.vote == if q.user == voter then For else Pending)
  }

  lemma {:induction false} OneForCounts(peers: seq<Peer>, i: nat)
    requires i < |peers| && peers[i].vote == For
    requires forall j :: 0 <= j < |peers| && j != i ==> peers[j].vote != For
    ensures ForVotes(peers) == 1
  {
    if i == 0 {
      NoneForCounts(peers[1..]);
    } else {
      OneForCounts(peers[1..], i - 1);
    }
  }

  lemma OnlyVoteCounts(peers: seq<Peer>, voter: UserId)
    requires OnlyVote(peers, voter)
    ensures ForVotes(peers) == 1 && Against !in BallotsOf(peers)
  {
    BallotsMembership(peers, Against);
    var i :| 0 <= i < |peers| && peers[i].user == voter;
    assert peers[i] in peers;
    forall j | 0 <= j < |peers| && j != i ensures peers[j].vote != For {
      assert peers[j] in peers && peers[j].user != voter;
    }
    OneForCounts(peers, i);
  }

  /** Nobody has answered for the target, who is not asked as a peer. */
  ghost predicate TargetSilent(p: Proposal) {
    p.kind == Removal ==> p.decision == Pending && forall q :: q in p.peers ==> q.user != p.subject
  }

  /** Those left when everybody asked but `voter` has left; a removal's target stays. */
  function Remaining(p: Proposal, voter: UserId): seq<UserId> {
    if p.kind == Removal then [p.initiator, p.subject, voter] else [p.initiator, voter]
  }

  lemma OnlyVoteUndecided(p: Proposal, voter: UserId)
    requires OnlyVote(p.peers, voter) && |p.peers| >= 2 && TargetSilent(p)
    ensures OutcomeOf(p) == Undecided
  {
    OnlyVoteCounts(p.peers, voter);
    ForVotesAreCounted(p.peers);
    CountPositive(BallotsOf(p.peers), Against);
    SomebodyElse(p.peers, voter);
    BallotsMembership(p.peers, Pending);
  }

  lemma SomebodyElse(peers: seq<Peer>, voter: UserId)
    requires OnlyVote(peers, voter) && |peers| >= 2
    ensures exists q :: q in peers && q.user != voter && q.vote == Pending
  {
    var other := if peers[0].user == voter then peers[1] else peers[0];
    assert other in peers && other.user != voter;
  }

  lemma {:induction false} NobodyGone(peers: seq<Peer>, owners: seq<UserId>)
    requires forall q :: q in peers ==> q.user in owners
    ensures Gone(peers, owners) == []
  {
    if peers != [] {
      assert peers[0] in peers;
      NobodyGone(peers[1..], owners);
    }
  }

  lemma OnlyVoteRefused(p: Proposal, owners: seq<UserId>, voter: UserId)
    requires OnlyVote(p.peers, voter) && |p.peers| >= 2 && TargetSilent(p)
    requires forall q :: q in p.peers ==> q.user in owners
    ensures OutcomeAmong(p, owners) != Passes
  {
    if p.kind.OfUser? {
      OnlyVoteCounts(p.peers, voter);
      NobodyGone(p.peers, owners);
      MajorityAmongExactly(p, owners);
    } else {
      SomebodyElse(p.peers, voter);
      PassesAmongExactly(p, owners);
    }
  }

  lemma OnlyVoteCarried(p: Proposal, voter: UserId)
    requires OnlyVote(p.peers, voter) && TargetSilent(p)
    requires forall q :: q in p.peers ==> q.user != p.initiator
    ensures OutcomeAmong(p, Remaining(p, voter)) == Passes
  {
    var owners := Remaining(p, voter);
    var left := Seated(p.peers, owners);
    forall q | q in left ensures q.user == voter && q.vote == For {
    }
    var q :| q in p.peers && q.user == voter;
    assert q in left;
    AllForCounts(left);
    ForVotesAreCounted(left);
    PassesAmongExactly(p, owners);
  }

  lemma VoteIsTheOnlyVote(p: Proposal, voter: UserId, now: int)
    requires p.life.state == Open && DistinctUsers(p.peers) && Peer(voter, Pending, 0) in p.peers
    requires forall q :: q in p.peers ==> q.vote == Pending
    ensures var peers := p.peers[FindPeer(p.peers, voter) := Peer(voter, For, now)];
            FindPeer(p.peers, voter) < |p.peers| && OnlyVote(peers, voter)
            && (forall q :: q in peers ==> exists o :: o in p.peers && o.user == q.user)
  {
    var at :| 0 <= at < |p.peers| && p.peers[at] == Peer(voter, Pending, 0);
    var i := FindPeer(p.peers, voter);
    assert i <= at;
    var peers := p.peers[i := Peer(voter, For, now)];
    assert peers[i] in peers;
    forall q | q in peers
      ensures q.vote == if q.user == voter then For else Pending
      ensures exists o :: o in p.peers && o.user == q.user
    {
      var k :| 0 <= k < |peers| && peers[k] == q;
      assert p.peers[k] in p.peers && p.peers[k].user == q.user;
    }
  }

  lemma FirstVoteCarriesAlone(p: Proposal, owners: seq<UserId>, excluded: set<UserId>, voter: UserId, now: int)
    requires p.life.state == Open && |p.peers| >= 2 && DistinctUsers(p.peers) && TargetSilent(p)
    requires p.peers == PeersAmong(owners, excluded) && p.initiator in excluded && voter in owners && voter !in excluded
    requires p.kind == Admission ==> p.subject !in owners && p.initiator in owners
    requires p.kind.OfUser? ==> p.threshold == NeededVotes(|p.peers|)
    ensures var r := Vote(p, voter, For, now);
            && r.Success? && r.value.life.state == Open
            && Execute(r.value, owners, now).Failure?
            && Execute(r.value, Remaining(p, voter), now).Success?
            && Execute(r.value, Remaining(p, voter), now).value.life.state == Executed
            && (p.kind.OfUser? ==> ForVotes(r.value.peers) < r.value.threshold)
  {
    FirstVote(p, voter, now);
    var q := Vote(p, voter, For, now).value;
    assert forall x :: x in q.peers ==> x.user in owners && x.user !in excluded;
    OnlyVoteCounts(q.peers, voter);
    OnlyVoteExecutesAlone(q, owners, voter, now);
  }

  lemma FirstVote(p: Proposal, voter: UserId, now: int)
    requires p.life.state == Open && |p.peers| >= 2 && DistinctUsers(p.peers) && Peer(voter, Pending, 0) in p.peers
    requires TargetSilent(p) && forall q :: q in p.peers ==> q.vote == Pending
    ensures var r := Vote(p, voter, For, now);
            && r.Success? && r.value.life.state == Open && OnlyVote(r.value.peers, voter)
            && SameQuestion(p, r.value) && TargetSilent(r.value) && |r.value.peers| == |p.peers|
            && (forall q :: q in r.value.peers ==> exists o :: o in p.peers && o.user == q.user)
  {
    VoteIsTheOnlyVote(p, voter, now);
    var q := p.(peers := p.peers[FindPeer(p.peers, voter) := Peer(voter, For, now)], life := p.life.Emit(PeerVoted));
    assert p.peers[FindPeer(p.peers, voter)] in p.peers;
    OnlyVoteUndecided(q, voter);
    assert Vote(p, voter, For, now) == Success(q);
  }

  lemma OnlyVoteExecutesAlone(p: Proposal, owners: seq<UserId>, voter: UserId, now: int)
    requires p.life.state == Open && OnlyVote(p.peers, voter) && |p.peers| >= 2 && TargetSilent(p)
    requires voter != p.initiator && voter in owners
    requires forall q :: q in p.peers ==> q.user in owners && q.user != p.initiator
    requires p.kind == Admission ==> p.subject !in owners && p.initiator in owners
    ensures Execute(p, owners, now).Failure?
    ensures var staying := Remaining(p, voter);
            Execute(p, staying, now).Success? && Execute(p, staying, now).value.life.state == Executed
  {
    OnlyVoteRefused(p, owners, voter);
    OnlyVoteCarried(p, voter);
    var staying := Remaining(p, voter);
    assert p.initiator in staying;
    assert p.kind == Admission ==> p.subject !in staying;
  }

  /** So one For vote is enough once everybody else asked has left, for a proposal of any
      kind: however many were asked, it is opened, answered by one of them, refused while the
      rest sit, and carried when only they and the initiator remain, and a removal's target,
      who need not say a word; below its bar if it has one. */
  lemma OneVoteCarriesOnceTheRestLeave(p: Proposal, k: Kind, subject: UserId, initiator: UserId, reason: string,
                                       owners: seq<UserId>, now: int, voter: UserId)
    requires match k
             case Removal => OpenRemoval(subject, initiator, reason, owners, now, REMOVAL_TTL_SECS) == Success(p)
             case Admission => OpenAdmission(subject, initiator, reason, owners, now, REMOVAL_TTL_SECS) == Success(p)
             case OfUser(s) => OpenOfUser(s, subject, initiator, reason, owners, now, REMOVAL_TTL_SECS) == Success(p)
    requires voter in owners && voter != initiator && |p.peers| >= 2
    requires k == Removal ==> voter != subject
    requires forall i, j :: 0 <= i < j < |owners| ==> owners[i] != owners[j]
    ensures var r := Vote(p, voter, For, now);
            var staying := if k == Removal then [initiator, subject, voter] else [initiator, voter];
            && r.Success? && r.value.life.state == Open
            && Execute(r.value, owners, now).Failure?
            && Execute(r.value, staying, now).Success?
            && Execute(r.value, staying, now).value.life.state == Executed
            && (k.OfUser? ==> ForVotes(r.value.peers) < r.value.threshold)
  {
    var excluded := if k == Removal then {subject, initiator} else {initiator};
    PeersAmongDistinct(owners, excluded);
    assert p.kind == k && p.subject == subject && p.initiator == initiator;
    assert p.peers == PeersAmong(owners, excluded) && p.life == OpenedLife(now, REMOVAL_TTL_SECS);
    assert k.OfUser? ==> p.threshold == NeededVotes(|p.peers|);
    FirstVoteCarriesAlone(p, owners, excluded, voter, now);
  }
}
