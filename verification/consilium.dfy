/** A consilium proposal as a value: the rules of one proposal's life, stated as functions
    from a proposal to the next. The aggregates that update themselves in place are proved
    against these functions in module Aggregates. */
module Consilium {
  import opened Ballots
  import opened Results

  type UserId = nat

  const MIN_OWNERS: nat := 2
  const REMOVAL_TTL_SECS: int := 72 * 60 * 60
  const MAX_REASON_CHARS: nat := 500
  const MAX_VOID_REASON_CHARS: nat := 200

  /** What a proposal about a person's standing decides. */
  datatype Standing = Suspension | Reinstatement | AdminAdmission

  datatype Kind = Removal | Admission | OfUser(standing: Standing)

  datatype State = Open | Executed | Rejected | Expired | Cancelled | Void

  datatype Event =
    | Opened | PeerVoted | TargetDecided
    | WasCancelled | WasExpired | WasExecuted | WasRejected | WasVoided

  /** Why a proposal was voided: one of the fixed messages, by name, or a caller's own text. */
  datatype Why =
    | InitiatorGone | BelowFloor | AlreadySeated | BackersGone | TargetResigned
    | NoVerdictToLift | OutranksAdmin | AdminAlready | Said(text: string)
  {
    function Trimmed(): Why {
      if Said? && |text| > MAX_VOID_REASON_CHARS then Said(text[..MAX_VOID_REASON_CHARS]) else this
    }
  }

  /** The lifecycle every consilium embeds. `pending` holds the events not yet drained. */
  datatype Lifecycle = Lifecycle(
    state: State, createdAt: int, expiresAt: int, decidedAt: int,
    voidReason: Why, version: nat, pending: seq<Event>)
  {
    function Emit(e: Event): Lifecycle {
      this.(version := version + 1, pending := pending + [e])
    }

    function Close(to: State, e: Event, now: int): Lifecycle {
      this.(state := to, decidedAt := now).Emit(e)
    }

    function CloseVoid(reason: Why, now: int): Lifecycle {
      this.(voidReason := reason.Trimmed())
          .Close(Void, WasVoided, now)
    }

    function Expire(now: int): Result<Lifecycle> {
      if state == Expired then Success(this)
      else if state != Open then Failure(Conflict)
      else if now < expiresAt then Failure(Conflict)
      else Success(Close(Expired, WasExpired, now))
    }
  }

  function OpenedLife(now: int, ttl: int): Lifecycle {
    Lifecycle(Open, now, SaturatingAdd(now, ttl), 0, Said(""), 0, []).Emit(Opened)
  }

  /** One eligible peer and their answer. REMOVE, ADMIT and FOR are all `For`. */
  datatype Peer = Peer(user: UserId, vote: Ballot, votedAt: int)

  /** `decision` is the target's own answer; it stays Pending outside removals.
      `threshold` is the bar frozen at open; it is 0 outside user proposals. */
  datatype Proposal = Proposal(
    kind: Kind, subject: UserId, initiator: UserId, reason: string,
    ownerCount: nat, threshold: nat, peers: seq<Peer>,
    decision: Ballot, decidedAsTargetAt: int, life: Lifecycle)

  function BallotsOf(peers: seq<Peer>): (b: seq<Ballot>)
    ensures |b| == |peers|
  {
    seq(|peers|, i requires 0 <= i < |peers| => peers[i].vote)
  }

  /** The snapshotted peers who hold a seat in `owners`, in order. */
  function Seated(peers: seq<Peer>, owners: seq<UserId>): (r: seq<Peer>)
    ensures forall p :: p in r <==> p in peers && p.user in owners
  {
    if peers == [] then []
    else (if peers[0].user in owners then [peers[0]] else []) + Seated(peers[1..], owners)
  }

  function PeersAmong(owners: seq<UserId>, excluded: set<UserId>): (r: seq<Peer>)
    ensures forall u :: u in owners && u !in excluded <==> Peer(u, Pending, 0) in r
    ensures forall p :: p in r ==> p.vote == Pending && p.user in owners && p.user !in excluded
  {
    if owners == [] then []
    else (if owners[0] in excluded then [] else [Peer(owners[0], Pending, 0)]) + PeersAmong(owners[1..], excluded)
  }

  /** A removal passes when its target accepts, or when the peers are unanimous; one
      Against ends it; with nobody to ask, only the target can carry it. */
  function RemovalOutcome(decision: Ballot, peers: seq<Peer>): Outcome {
    if decision == For then Passes
    else if Against in BallotsOf(peers) then Fails
    else match UnanimityOf(BallotsOf(peers))
      case Passes => Passes
      case Fails => if decision == Against then Fails else Undecided
      case Undecided => Undecided
  }

  function Verdict(p: Proposal, peers: seq<Peer>): Outcome {
    match p.kind
    case Removal => RemovalOutcome(p.decision, peers)
    case Admission => UnanimityOf(BallotsOf(peers))
    case OfUser(_) => MajorityOf(BallotsOf(peers))
  }

  function OutcomeOf(p: Proposal): Outcome {
    Verdict(p, p.peers)
  }

  /** The verdict counting only peers who still hold a seat. */
  function OutcomeAmong(p: Proposal, owners: seq<UserId>): Outcome {
    Verdict(p, Seated(p.peers, owners))
  }

  /** The characters Unicode calls white space. */
  predicate IsWhitespace(c: char) {
    || '\U{0009}' <= c <= '\U{000D}' || c == ' ' || c == '\U{0085}' || c == '\U{00A0}' || c == '\U{1680}'
    || '\U{2000}' <= c <= '\U{200A}' || c == '\U{2028}' || c == '\U{2029}' || c == '\U{202F}' || c == '\U{205F}'
    || c == '\U{3000}'
  }

  function DropLeading(blank: char -> bool, text: string): string {
    if text != "" && blank(text[0]) then DropLeading(blank, text[1..]) else text
  }

  function DropTrailing(blank: char -> bool, text: string): string {
    if text != "" && blank(text[|text| - 1]) then DropTrailing(blank, text[..|text| - 1]) else text
  }

  function Trim(text: string): string {
    DropTrailing(IsWhitespace, DropLeading(IsWhitespace, text))
  }

  /** A reason is kept trimmed, and must then say something within its bound. */
  function ValidReason(reason: string): Result<string> {
    var trimmed := Trim(reason);
    if 1 <= |trimmed| <= MAX_REASON_CHARS then Success(trimmed) else Failure(Validation)
  }

  predicate AllBlank(blank: char -> bool, text: string) {
    forall i :: 0 <= i < |text| ==> blank(text[i])
  }

  lemma {:induction false} LeadingDropped(blank: char -> bool, text: string) returns (i: nat)
    ensures i <= |text| && DropLeading(blank, text) == text[i..] && AllBlank(blank, text[..i])
    ensures i < |text| ==> !blank(text[i])
  {
    i := 0;
    if text != "" && blank(text[0]) {
      var k := LeadingDropped(blank, text[1..]);
      i := k + 1;
      assert text[1..][k..] == text[i..] && text[..i] == [text[0]] + text[1..][..k];
    }
  }

  lemma {:induction false} TrailingDropped(blank: char -> bool, text: string) returns (j: nat)
    ensures j <= |text| && DropTrailing(blank, text) == text[..j] && AllBlank(blank, text[j..])
    ensures j > 0 ==> !blank(text[j - 1])
  {
    j := |text|;
    if text != "" && blank(text[|text| - 1]) {
      j := TrailingDropped(blank, text[..|text| - 1]);
      assert text[..|text| - 1][..j] == text[..j] && text[j..] == text[..|text| - 1][j..] + [text[|text| - 1]];
    }
  }

  /** Trimming takes white space off both ends and nothing else, and leaves none there. */
  lemma TrimTakesOnlyWhitespace(text: string) returns (i: nat, j: nat)
    ensures i <= j <= |text| && Trim(text) == text[i..j]
    ensures AllBlank(IsWhitespace, text[..i]) && AllBlank(IsWhitespace, text[j..])
    ensures i < j ==> !IsWhitespace(text[i]) && !IsWhitespace(text[j - 1])
  {
    i := LeadingDropped(IsWhitespace, text);
    var k := TrailingDropped(IsWhitespace, text[i..]);
    j := i + k;
    assert text[i..][..k] == text[i..j] && text[i..][k..] == text[j..];
  }

  /** So a reason is refused for saying nothing exactly when it is all white space. */
  lemma BlankSaysNothing(text: string)
    ensures Trim(text) == "" <==> AllBlank(IsWhitespace, text)
  {
    var i, j := TrimTakesOnlyWhitespace(text);
    if i == j {
      assert text == text[..i] + text[j..];
    }
  }

  function CheckFloor(owners: nat): Result<()> {
    if owners < MIN_OWNERS + 1 then Failure(Conflict) else Success(())
  }

  function OpenRemoval(target: UserId, initiator: UserId, reason: string, owners: seq<UserId>,
                       now: int, ttl: int): Result<Proposal> {
    if ValidReason(reason).Failure? then Failure(Validation)
    else if target == initiator then Failure(Conflict)
    else if initiator !in owners then Failure(Forbidden)
    else if target !in owners then Failure(Validation)
    else if CheckFloor(|owners|).Failure? then Failure(Conflict)
    else Success(Proposal(Removal, target, initiator, ValidReason(reason).value, |owners|, 0,
                          PeersAmong(owners, {target, initiator}), Pending, 0, OpenedLife(now, ttl)))
  }

  function OpenAdmission(candidate: UserId, initiator: UserId, reason: string, owners: seq<UserId>,
                         now: int, ttl: int): Result<Proposal> {
    if ValidReason(reason).Failure? then Failure(Validation)
    else if candidate == initiator then Failure(Conflict)
    else if initiator !in owners then Failure(Forbidden)
    else if candidate in owners then Failure(Conflict)
    else
      var peers := PeersAmong(owners, {initiator});
      if peers == [] then Failure(Conflict)
      else Success(Proposal(Admission, candidate, initiator, ValidReason(reason).value, |owners|, 0,
                            peers, Pending, 0, OpenedLife(now, ttl)))
  }

  function OpenOfUser(standing: Standing, subject: UserId, initiator: UserId, reason: string, owners: seq<UserId>,
                      now: int, ttl: int): Result<Proposal> {
    if ValidReason(reason).Failure? then Failure(Validation)
    else if initiator !in owners then Failure(Forbidden)
    else if subject == initiator then Failure(Conflict)
    else
      var peers := PeersAmong(owners, {initiator});
      if peers == [] then Failure(Conflict)
      else Success(Proposal(OfUser(standing), subject, initiator, ValidReason(reason).value, |owners|,
                            NeededVotes(|peers|), peers, Pending, 0, OpenedLife(now, ttl)))
  }

  /** The index of `voter` among the peers, or |peers|. */
  function FindPeer(peers: seq<Peer>, voter: UserId): (i: nat)
    ensures i <= |peers|
    ensures i < |peers| ==> peers[i].user == voter
    ensures forall j :: 0 <= j < i ==> peers[j].user != voter
  {
    if peers == [] then 0 else if peers[0].user == voter then 0 else 1 + FindPeer(peers[1..], voter)
  }

  /** A proposal nobody can carry any more is closed at once. */
  function Resolved(p: Proposal, now: int): Proposal {
    if p.life.state == Open && OutcomeOf(p) == Fails
    then p.(life := p.life.Close(Rejected, WasRejected, now))
    else p
  }

  function Vote(p: Proposal, voter: UserId, vote: Ballot, now: int): Result<Proposal> {
    var i := FindPeer(p.peers, voter);
    if p.life.state != Open then Failure(Conflict)
    else if vote == Pending then Failure(Validation)
    else if i == |p.peers| then Failure(Forbidden)
    else if p.peers[i].vote == vote then Success(p)
    else if p.peers[i].vote != Pending then Failure(Conflict)
    else Success(Resolved(p.(peers := p.peers[i := Peer(voter, vote, now)], life := p.life.Emit(PeerVoted)), now))
  }

  function Decide(p: Proposal, vote: Ballot, now: int): Result<Proposal>
    requires p.kind == Removal
  {
    if p.life.state != Open then Failure(Conflict)
    else if vote == Pending then Failure(Validation)
    else if p.decision == vote then Success(p)
    else if p.decision != Pending then Failure(Conflict)
    else Success(Resolved(p.(decision := vote, decidedAsTargetAt := now, life := p.life.Emit(TargetDecided)), now))
  }

  function Cancel(p: Proposal, actor: UserId, now: int): Result<Proposal> {
    if actor != p.initiator then Failure(Forbidden)
    else if p.life.state == Cancelled then Success(p)
    else if p.life.state != Open then Failure(Conflict)
    else Success(p.(life := p.life.Close(Cancelled, WasCancelled, now)))
  }

  function Expire(p: Proposal, now: int): Result<Proposal> {
    match p.life.Expire(now)
    case Success(life) => Success(p.(life := life))
    case Failure(e) => Failure(e)
  }

  /** What a passed proposal turns into against the roster as it stands. */
  function Carried(p: Proposal, owners: seq<UserId>, now: int): Lifecycle {
    if p.initiator !in owners then p.life.CloseVoid(InitiatorGone, now)
    else if p.kind == Removal && CheckFloor(|owners|).Failure?
    then p.life.CloseVoid(BelowFloor, now)
    else if p.kind == Admission && p.subject in owners
    then p.life.CloseVoid(AlreadySeated, now)
    else p.life.Close(Executed, WasExecuted, now)
  }

  function Execute(p: Proposal, owners: seq<UserId>, now: int): Result<Proposal> {
    if p.life.state == Executed || p.life.state == Void then Success(p)
    else if p.life.state != Open then Failure(Conflict)
    else if OutcomeAmong(p, owners) != Passes then Failure(Conflict)
    else Success(p.(life := Carried(p, owners, now)))
  }

  function MakeVoid(p: Proposal, reason: Why, now: int): Result<Proposal> {
    if p.life.state == Void then Success(p)
    else if p.life.state != Open then Failure(Conflict)
    else Success(p.(life := p.life.CloseVoid(reason, now)))
  }

  // ---- What a passing verdict means ----

  /** Every seated peer said For, and there is at least one. */
  ghost predicate SeatedUnanimous(p: Proposal, owners: seq<UserId>) {
    && (exists q :: q in p.peers && q.user in owners)
    && forall q :: q in p.peers && q.user in owners ==> q.vote == For
  }

  /** More than half of the seated peers said For. */
  ghost predicate SeatedMajority(p: Proposal, owners: seq<UserId>) {
    2 * Count(BallotsOf(Seated(p.peers, owners)), For) > |Seated(p.peers, owners)|
  }

  lemma BallotsMembership(peers: seq<Peer>, b: Ballot)
    ensures b in BallotsOf(peers) <==> exists q :: q in peers && q.vote == b
  {
    if q :| q in peers && q.vote == b {
      var i :| 0 <= i < |peers| && peers[i] == q;
      assert BallotsOf(peers)[i] == b;
    }
    if b in BallotsOf(peers) {
      var i :| 0 <= i < |peers| && BallotsOf(peers)[i] == b;
      assert peers[i] in peers;
    }
  }

  /** Exactly when a proposal passes against a roster. */
  lemma PassesAmongExactly(p: Proposal, owners: seq<UserId>)
    ensures p.kind == Removal ==>
              (OutcomeAmong(p, owners) == Passes <==> p.decision == For || SeatedUnanimous(p, owners))
    ensures p.kind == Admission ==>
              (OutcomeAmong(p, owners) == Passes <==> SeatedUnanimous(p, owners))
    ensures p.kind.OfUser? ==>
              (OutcomeAmong(p, owners) == Passes <==> SeatedMajority(p, owners))
  {
    var seated := Seated(p.peers, owners);
    BallotsMembership(seated, Against);
    BallotsMembership(seated, Pending);
    if seated != [] {
      assert seated[0] in seated;
    }
  }

  lemma SeatedDependsOnPeersOnly(peers: seq<Peer>, owners: seq<UserId>, owners': seq<UserId>)
    requires forall q :: q in peers ==> (q.user in owners <==> q.user in owners')
    ensures Seated(peers, owners) == Seated(peers, owners')
  {
    if peers != [] {
      assert peers[0] in peers;
      SeatedDependsOnPeersOnly(peers[1..], owners, owners');
    }
  }

  /** Owners seated after open never change the verdict: it depends on the roster only
      through which snapshotted peers still sit. */
  lemma LaterOwnersHaveNoSay(p: Proposal, owners: seq<UserId>, newcomers: seq<UserId>)
    requires forall q :: q in p.peers ==> q.user !in newcomers
    ensures OutcomeAmong(p, owners + newcomers) == OutcomeAmong(p, owners)
  {
    SeatedDependsOnPeersOnly(p.peers, owners, owners + newcomers);
  }

  /** Everything an execution proves: a seated initiator and real backing. */
  lemma ExecutedHasBacking(p: Proposal, owners: seq<UserId>, now: int)
    requires p.life.state == Open
    requires Execute(p, owners, now).Success? && Execute(p, owners, now).value.life.state == Executed
    ensures p.initiator in owners
    ensures p.kind == Removal ==> |owners| - 1 >= MIN_OWNERS && (p.decision == For || SeatedUnanimous(p, owners))
    ensures p.kind == Admission ==> p.subject !in owners && SeatedUnanimous(p, owners)
    ensures p.kind.OfUser? ==> SeatedMajority(p, owners)
    ensures (p.kind == Removal && p.decision == For) || exists q :: q in p.peers && q.user in owners && q.vote == For
    ensures Snapshotted(p) ==> SecondPerson(p, owners)
  {
    PassesAmongExactly(p, owners);
    if p.kind.OfUser? {
      CountPositive(BallotsOf(Seated(p.peers, owners)), For);
      BallotsMembership(Seated(p.peers, owners), For);
    }
  }

  // ---- What every opening freezes ----

  /** Somebody besides the initiator is behind it: the target of a removal, accepting, or a
      seated peer who is neither initiator nor target. */
  ghost predicate SecondPerson(p: Proposal, owners: seq<UserId>) {
    || (p.kind == Removal && p.decision == For && p.subject != p.initiator)
    || (exists q :: q in p.peers && q.user in owners && q.vote == For
                    && q.user != p.initiator && (p.kind == Removal ==> q.user != p.subject))
  }

  /** A proposal's people: nobody asked is its initiator, nor the target of a removal; nobody
      proposes about themselves; and a proposal about a user carries the bar of its snapshot. */
  ghost predicate Snapshotted(p: Proposal) {
    && p.subject != p.initiator
    && (forall q :: q in p.peers ==> q.user != p.initiator && (p.kind == Removal ==> q.user != p.subject))
    && (p.kind != Removal ==> p.peers != [])
    && p.threshold == if p.kind.OfUser? then NeededVotes(|p.peers|) else 0
  }

  /** The same question put to the same people. */
  ghost predicate SameQuestion(p: Proposal, q: Proposal) {
    && q.kind == p.kind && q.subject == p.subject && q.initiator == p.initiator && q.threshold == p.threshold
    && |q.peers| == |p.peers| && (forall i :: 0 <= i < |p.peers| ==> q.peers[i].user == p.peers[i].user)
  }

  lemma SameQuestionKeepsSnapshot(p: Proposal, q: Proposal)
    requires Snapshotted(p) && SameQuestion(p, q)
    ensures Snapshotted(q)
  {
    forall x | x in q.peers ensures x.user != q.initiator && (q.kind == Removal ==> x.user != q.subject) {
      var i :| 0 <= i < |q.peers| && q.peers[i] == x;
      assert p.peers[i] in p.peers;
    }
  }

  lemma OpenedIsSnapshotted(p: Proposal, k: Kind, subject: UserId, initiator: UserId, reason: string,
                            owners: seq<UserId>, now: int, ttl: int)
    requires match k
             case Removal => OpenRemoval(subject, initiator, reason, owners, now, ttl) == Success(p)
             case Admission => OpenAdmission(subject, initiator, reason, owners, now, ttl) == Success(p)
             case OfUser(s) => OpenOfUser(s, subject, initiator, reason, owners, now, ttl) == Success(p)
    ensures Snapshotted(p) && p.kind == k && p.subject == subject && p.initiator == initiator && initiator in owners
    ensures p.life.state == Open && p.decision == Pending
    ensures forall q :: q in p.peers ==> q.vote == Pending && q.user in owners
  {
  }

  lemma VoteKeepsQuestion(p: Proposal, voter: UserId, vote: Ballot, now: int)
    requires Vote(p, voter, vote, now).Success?
    ensures SameQuestion(p, Vote(p, voter, vote, now).value)
  {
  }

  lemma DecideKeepsQuestion(p: Proposal, answer: Ballot, now: int)
    requires p.kind == Removal && Decide(p, answer, now).Success?
    ensures SameQuestion(p, Decide(p, answer, now).value)
  {
  }
}
