/** The write transactions of the fund's store. A due proposal is expired before anything else,
    an answer is recorded, and a verdict that passed over the snapshot is settled against the
    roster of that moment, all or nothing; opening one first closes the lapsed one it would
    collide with, and resigning voids the removal it makes moot. */
module Transactions {
  import opened Ballots
  import opened Results
  import opened Consilium
  import opened Attrition
  import opened Backing
  import opened Fund

  datatype Reply =
    | PeerAnswers(id: nat, voter: UserId, vote: Ballot, now: int)
    | TargetReplies(id: nat, answer: Ballot, now: int)

  predicate IsDue(p: Proposal, now: int) {
    p.life.state == Open && now >= p.life.expiresAt
  }

  function Answered(p: Proposal, t: Reply): Result<Proposal> {
    match t
    case PeerAnswers(_, voter, vote, now) => Vote(p, voter, vote, now)
    case TargetReplies(_, answer, now) => if p.kind == Removal then Decide(p, answer, now) else Failure(Forbidden)
  }

  /** Settle a verdict just recorded. None rolls the whole transaction back: a removal that
      passed over its snapshot but not over the seated peers refuses its last vote, where
      the other two kinds are voided. */
  function Settle(f: Register, id: nat, now: int): Option<Register>
    requires id in f.book
  {
    var p := f.book[id];
    if p.life.state != Open || OutcomeOf(p) != Passes then Some(f)
    else if p.kind == Removal then
      if Execute(p, f.owners, now).Failure? then None else Some(CarryOut(f, id, now))
    else if OutcomeAmong(p, f.owners) != Passes then
      Some(Updated(f, id, MakeVoid(p, BackersGone, now)))
    else Some(CarryOut(f, id, now))
  }

  function Transact(f: Register, t: Reply): Register {
    if t.id !in f.book then f
    else if IsDue(f.book[t.id], t.now) then Updated(f, t.id, Expire(f.book[t.id], t.now))
    else
      var r := Answered(f.book[t.id], t);
      if r.Failure? then f
      else
        match Settle(Updated(f, t.id, r), t.id, t.now)
        case None => f
        case Some(g) => g
  }

  /** The fund step that records the answer, and the one that settles the verdict. */
  function AnswerStep(t: Reply): Step {
    match t
    case PeerAnswers(id, voter, vote, now) => Step.CastVote(id, voter, vote, now)
    case TargetReplies(id, answer, now) => Step.TargetAnswers(id, answer, now)
  }

  function SettleStep(f: Register, id: nat, now: int): seq<Step>
    requires id in f.book
  {
    var p := f.book[id];
    if p.life.state != Open || OutcomeOf(p) != Passes then []
    else if p.kind != Removal && OutcomeAmong(p, f.owners) != Passes then
      [Annul(id, BackersGone, now)]
    else [Carry(id, now)]
  }

  function StepsOf(f: Register, t: Reply): seq<Step> {
    if t.id !in f.book then []
    else if IsDue(f.book[t.id], t.now) then [TimeOut(t.id, t.now)]
    else
      var g := Apply(f, AnswerStep(t));
      if Answered(f.book[t.id], t).Failure? || Settle(g, t.id, t.now).None? then []
      else [AnswerStep(t)] + SettleStep(g, t.id, t.now)
  }

  lemma RunOfOne(f: Register, s: Step)
    ensures Run(f, [s]) == Apply(f, s)
  {
    assert [s][..0] == [];
  }

  lemma AnswerIsStep(f: Register, t: Reply)
    requires t.id in f.book
    ensures Apply(f, AnswerStep(t)) == Updated(f, t.id, Answered(f.book[t.id], t))
  {
  }

  lemma SettleIsRun(f: Register, id: nat, now: int)
    requires id in f.book && Settle(f, id, now).Some?
    ensures Settle(f, id, now).value == Run(f, SettleStep(f, id, now))
  {
    if SettleStep(f, id, now) != [] {
      SettleIsStep(f, id, now, SettleStep(f, id, now)[0]);
      RunOfOne(f, SettleStep(f, id, now)[0]);
    }
  }

  lemma SettleIsStep(f: Register, id: nat, now: int, s: Step)
    requires id in f.book && Settle(f, id, now).Some? && SettleStep(f, id, now) == [s]
    ensures Settle(f, id, now).value == Apply(f, s)
  {
    assert [Carry(id, now)][0] == Carry(id, now) && [Annul(id, BackersGone, now)][0] == Annul(id, BackersGone, now);
    if s.Carry? {
      assert Apply(f, s) == CarryOut(f, id, now);
    } else {
      assert Apply(f, s) == Updated(f, id, MakeVoid(f.book[id], BackersGone, now));
    }
  }

  /** An answer's transaction is a run of fund steps. */
  lemma TransactionIsRun(f: Register, t: Reply)
    ensures Transact(f, t) == Run(f, StepsOf(f, t))
  {
    if t.id in f.book {
      AnswerIsStep(f, t);
      var g := Apply(f, AnswerStep(t));
      if IsDue(f.book[t.id], t.now) {
        RunOfOne(f, TimeOut(t.id, t.now));
      } else if Answered(f.book[t.id], t).Success? && Settle(g, t.id, t.now).Some? {
        SettleIsRun(g, t.id, t.now);
        RunOfOne(f, AnswerStep(t));
        RunConcat(f, [AnswerStep(t)], SettleStep(g, t.id, t.now));
      }
    }
  }

  /** A stale approval never executes, and attrition alone never carries: what a
      transaction executes was answered in time and passes over the snapshot and over the
      seated peers alike. */
  lemma ExecutedInTimeAndTwice(f: Register, t: Reply)
    requires t.id in f.book && f.book[t.id].life.state == Open
    requires t.id in Transact(f, t).book && Transact(f, t).book[t.id].life.state == Executed
    ensures t.now < f.book[t.id].life.expiresAt
    ensures Answered(f.book[t.id], t).Success?
    ensures var p := Answered(f.book[t.id], t).value;
            OutcomeOf(p) == Passes && OutcomeAmong(p, f.owners) == Passes && p.initiator in f.owners
  {
    var p := f.book[t.id];
    var r := Answered(p, t);
    assert !IsDue(p, t.now);
    assert r.Success?;
    var g := Updated(f, t.id, r);
    assert g.owners == f.owners && g.book[t.id] == r.value;
    assert r.value.life.state == Open;
  }

  /** So the store never carries a proposal about a user below its frozen bar, as bare execution
      could: attrition may only undo what the snapshot decided. */
  lemma StoreExecutesAtTheBar(f: Register, t: Reply)
    requires t.id in f.book && f.book[t.id].life.state == Open && f.book[t.id].kind.OfUser? && Snapshotted(f.book[t.id])
    requires t.id in Transact(f, t).book && Transact(f, t).book[t.id].life.state == Executed
    ensures Answered(f.book[t.id], t).Success?
    ensures var p := Answered(f.book[t.id], t).value; ForVotes(p.peers) >= p.threshold == f.book[t.id].threshold
  {
    ExecutedInTimeAndTwice(f, t);
    var p, q := f.book[t.id], Answered(f.book[t.id], t).value;
    if t.PeerAnswers? {
      VoteKeepsQuestion(p, t.voter, t.vote, t.now);
    }
    SameQuestionKeepsSnapshot(p, q);
    BarIsTheVerdict(q);
  }

  /** The one transaction a passing vote can lose: the removal's every seated peer is gone,
      so the vote that completed the unanimity is refused and not recorded. */
  lemma LastVoteRefusedExactly(f: Register, t: Reply)
    requires t.PeerAnswers? && t.id in f.book && !IsDue(f.book[t.id], t.now)
    requires f.book[t.id].kind == Removal && f.book[t.id].decision != For
    requires Vote(f.book[t.id], t.voter, t.vote, t.now).Success?
    requires OutcomeOf(Vote(f.book[t.id], t.voter, t.vote, t.now).value) == Passes
    ensures Settle(Updated(f, t.id, Vote(f.book[t.id], t.voter, t.vote, t.now)), t.id, t.now).None?
            <==> forall q :: q in Vote(f.book[t.id], t.voter, t.vote, t.now).value.peers ==> q.user !in f.owners
  {
    var q := Vote(f.book[t.id], t.voter, t.vote, t.now).value;
    assert q.life.state == Open && q.kind == Removal && q.decision != For;
    AttritionUndoesExactly(q, f.owners);
  }

  // ---- Every write of the store ----

  /** `stale` is the lapsed proposal a new one collides with, and `moot` the removal open
      against somebody who resigns, as the store's queries find them. */
  datatype Request =
    | Replies(reply: Reply)
    | Opens(filing: Step, stale: Option<nat>)
    | Cancels(id: nat, actor: UserId, now: int)
    | Resigns(who: UserId, moot: Option<nat>, now: int)
    | SeedsOwners(found: seq<UserId>)
    | MovesAccount(move: Step)

  predicate IsFiling(s: Step) {
    s.FileRemoval? || s.FileAdmission? || s.FileOfUser?
  }

  /** What the directory does on its own: taking an admin seat, or unfreezing by the raw port. */
  predicate IsAccountMove(s: Step) {
    s.StripAdmin? || s.LoseVerdict?
  }

  predicate SameCause(p: Proposal, filing: Step) {
    match filing
    case FileRemoval(_, target, _, _, _) => p.kind == Removal && p.subject == target
    case FileAdmission(_, candidate, _, _, _) => p.kind == Admission && p.subject == candidate
    case FileOfUser(_, standing, subject, _, _, _) => p.kind == OfUser(standing) && p.subject == subject
    case _ => false
  }

  function Opened(f: Register, filing: Step): Result<Proposal> {
    match filing
    case FileRemoval(_, target, initiator, reason, now) =>
      OpenRemoval(target, initiator, reason, f.owners, now, REMOVAL_TTL_SECS)
    case FileAdmission(_, candidate, initiator, reason, now) =>
      OpenAdmission(candidate, initiator, reason, f.owners, now, REMOVAL_TTL_SECS)
    case FileOfUser(_, standing, subject, initiator, reason, now) =>
      OpenOfUser(standing, subject, initiator, reason, f.owners, now, REMOVAL_TTL_SECS)
    case _ => Failure(Validation)
  }

  predicate FindsStale(f: Register, filing: Step, stale: Option<nat>)
    requires IsFiling(filing)
  {
    stale.Some? && stale.value in f.book && SameCause(f.book[stale.value], filing)
      && IsDue(f.book[stale.value], filing.now)
  }

  /** The lapsed proposal is closed first, and a refused opening rolls that back with it. */
  function OpenTransaction(f: Register, filing: Step, stale: Option<nat>): Register
    requires IsFiling(filing)
  {
    var g := if FindsStale(f, filing, stale) then Updated(f, stale.value, Expire(f.book[stale.value], filing.now))
             else f;
    var r := Opened(g, filing);
    if filing.id in g.book || r.Failure? then f else g.(book := g.book[filing.id := r.value])
  }

  function CancelTransaction(f: Register, id: nat, actor: UserId, now: int): Register {
    if id !in f.book then f
    else if IsDue(f.book[id], now) then Updated(f, id, Expire(f.book[id], now))
    else Updated(f, id, Cancel(f.book[id], actor, now))
  }

  predicate FindsMoot(f: Register, who: UserId, moot: Option<nat>) {
    && moot.Some? && moot.value in f.book
    && f.book[moot.value].kind == Removal && f.book[moot.value].subject == who && f.book[moot.value].life.state == Open
  }

  function ResignTransaction(f: Register, who: UserId, moot: Option<nat>, now: int): Register {
    if who !in f.owners || CheckFloor(|f.owners|).Failure? then f
    else
      var g := if FindsMoot(f, who, moot)
               then Updated(f, moot.value, MakeVoid(f.book[moot.value], TargetResigned, now)) else f;
      g.(owners := Without(g.owners, who), admins := g.admins - {who})
  }

  function Perform(f: Register, r: Request): Register {
    match r
    case Replies(reply) => Transact(f, reply)
    case Opens(filing, stale) => if IsFiling(filing) then OpenTransaction(f, filing, stale) else f
    case Cancels(id, actor, now) => CancelTransaction(f, id, actor, now)
    case Resigns(who, moot, now) => ResignTransaction(f, who, moot, now)
    case SeedsOwners(found) => Apply(f, Genesis(found))
    case MovesAccount(move) => if IsAccountMove(move) then Apply(f, move) else f
  }

  function PerformAll(f: Register, rs: seq<Request>): Register {
    if rs == [] then f else Perform(PerformAll(f, rs[..|rs| - 1]), rs[|rs| - 1])
  }

  /** The fund steps one request amounts to; none, when it is refused. */
  function StepsFor(f: Register, r: Request): seq<Step> {
    match r
    case Replies(reply) => StepsOf(f, reply)
    case Opens(filing, stale) =>
      if !IsFiling(filing) || filing.id in f.book || Opened(f, filing).Failure? then []
      else if FindsStale(f, filing, stale) then [TimeOut(stale.value, filing.now), filing]
      else [filing]
    case Cancels(id, actor, now) =>
      if id in f.book && IsDue(f.book[id], now) then [TimeOut(id, now)] else [Step.Withdraw(id, actor, now)]
    case Resigns(who, moot, now) =>
      if who !in f.owners || CheckFloor(|f.owners|).Failure? then []
      else if FindsMoot(f, who, moot) then [Annul(moot.value, TargetResigned, now), Resign(who)]
      else [Resign(who)]
    case SeedsOwners(found) => [Genesis(found)]
    case MovesAccount(move) => if IsAccountMove(move) then [move] else []
  }

  function AllSteps(f: Register, rs: seq<Request>): seq<Step> {
    if rs == [] then [] else AllSteps(f, rs[..|rs| - 1]) + StepsFor(PerformAll(f, rs[..|rs| - 1]), rs[|rs| - 1])
  }

  lemma RunOfTwo(f: Register, s: Step, t: Step)
    ensures Run(f, [s, t]) == Apply(Apply(f, s), t)
  {
    assert [s, t][..1] == [s];
    RunOfOne(f, s);
  }

  lemma FilingIsApplied(f: Register, filing: Step)
    requires IsFiling(filing)
    ensures Apply(f, filing) == Filed(f, filing.id, Opened(f, filing))
  {
  }

  lemma OpenIsRun(f: Register, filing: Step, stale: Option<nat>)
    requires IsFiling(filing)
    ensures OpenTransaction(f, filing, stale) == Run(f, StepsFor(f, Opens(filing, stale)))
  {
    FilingIsApplied(f, filing);
    RunOfOne(f, filing);
    if FindsStale(f, filing, stale) {
      var timeout := TimeOut(stale.value, filing.now);
      var g := Updated(f, stale.value, Expire(f.book[stale.value], filing.now));
      assert Apply(f, timeout) == g;
      FilingIsApplied(g, filing);
      OpeningReadsOwners(f, g, filing);
      RunOfTwo(f, timeout, filing);
    }
  }

  lemma OpeningReadsOwners(f: Register, g: Register, filing: Step)
    requires g.owners == f.owners
    ensures Opened(g, filing) == Opened(f, filing)
  {
  }

  lemma ResignIsRun(f: Register, who: UserId, moot: Option<nat>, now: int)
    ensures ResignTransaction(f, who, moot, now) == Run(f, StepsFor(f, Resigns(who, moot, now)))
  {
    RunOfOne(f, Resign(who));
    if FindsMoot(f, who, moot) {
      var annul := Annul(moot.value, TargetResigned, now);
      assert Apply(f, annul) == Updated(f, moot.value, MakeVoid(f.book[moot.value], TargetResigned, now));
      RunOfTwo(f, annul, Resign(who));
    }
  }

  lemma CancelIsRun(f: Register, id: nat, actor: UserId, now: int)
    ensures CancelTransaction(f, id, actor, now) == Run(f, StepsFor(f, Cancels(id, actor, now)))
  {
    RunOfOne(f, TimeOut(id, now));
    RunOfOne(f, Step.Withdraw(id, actor, now));
  }

  lemma RequestIsRun(f: Register, r: Request)
    ensures Perform(f, r) == Run(f, StepsFor(f, r))
  {
    match r {
      case Replies(reply) => TransactionIsRun(f, reply);
      case Opens(filing, stale) => if IsFiling(filing) { OpenIsRun(f, filing, stale); }
      case Cancels(id, actor, now) => CancelIsRun(f, id, actor, now);
      case Resigns(who, moot, now) => ResignIsRun(f, who, moot, now);
      case SeedsOwners(found) => RunOfOne(f, Genesis(found));
      case MovesAccount(move) => RunOfOne(f, move);
    }
  }

  /** Every sequence of the store's transactions is a run of fund steps, so every theorem over
      runs of the fund holds of it. */
  lemma {:induction false} RequestsAreRun(f: Register, rs: seq<Request>)
    ensures PerformAll(f, rs) == Run(f, AllSteps(f, rs))
    decreases |rs|
  {
    if rs != [] {
      var front, last := rs[..|rs| - 1], rs[|rs| - 1];
      RequestsAreRun(f, front);
      RequestIsRun(PerformAll(f, front), last);
      RunConcat(f, AllSteps(f, front), StepsFor(PerformAll(f, front), last));
    }
  }

  // ---- The fund's theorems, of the store ----

  /** Over any sequence of transactions the fund has no owner or enough of them, and once it has
      one it never has none. */
  lemma StoreKeepsSeats(f: Register, rs: seq<Request>)
    requires Seats(f)
    ensures Seats(PerformAll(f, rs))
    ensures f.owners != [] ==> |PerformAll(f, rs).owners| >= MIN_OWNERS
  {
    RequestsAreRun(f, rs);
    OwnersNeverVanish(f, AllSteps(f, rs));
  }

  /** And whatever the store has executed had two people behind it. */
  lemma StoreNeverActsForOne(f: Register, rs: seq<Request>, id: nat)
    requires f.book == map[]
    requires id in PerformAll(f, rs).book && PerformAll(f, rs).book[id].life.state == Executed
    ensures var steps, p := AllSteps(f, rs), PerformAll(f, rs).book[id];
            exists k: nat :: CarriedAt(f, steps, k, id, p)
                             && exists filed: nat, acted: nat, other: UserId ::
                                TwoBehind(f, steps, id, p, filed, acted, k, other)
  {
    RequestsAreRun(f, rs);
    NobodyActsAlone(f, AllSteps(f, rs), id);
  }

  /** An executed proposal about a user passes over its own snapshot. */
  ghost predicate CarriedByItsPeers(p: Proposal) {
    p.kind.OfUser? && p.life.state == Executed ==> OutcomeOf(p) == Passes
  }

  ghost predicate BookCarried(f: Register) {
    forall id :: id in f.book ==> CarriedByItsPeers(f.book[id])
  }

  /** `v` is `f` with at most the life of one proposal moved on, and the roles with it. */
  ghost predicate OnlyLife(f: Register, v: Register, id: nat) {
    && v.book.Keys == f.book.Keys && id in f.book
    && (forall k :: k in f.book && k != id ==> v.book[k] == f.book[k])
    && v.book[id] == f.book[id].(life := v.book[id].life)
  }

  lemma UpdatingLife(f: Register, id: nat, r: Result<Proposal>)
    requires id in f.book && (r.Success? ==> r.value == f.book[id].(life := r.value.life))
    ensures OnlyLife(f, Updated(f, id, r), id)
  {
  }

  lemma CarryingMovesLife(f: Register, id: nat, now: int)
    requires id in f.book
    ensures OnlyLife(f, CarryOut(f, id, now), id)
  {
    var p := f.book[id];
    var r := Execute(p, f.owners, now);
    UpdatingLife(f, id, r);
    if Inapplicable(f, p).Some? {
      UpdatingLife(f, id, MakeVoid(p, Inapplicable(f, p).value, now));
    }
    assert SeatChange(Updated(f, id, r), p).book == Updated(f, id, r).book;
  }

  lemma SettlingMovesLife(f: Register, id: nat, now: int)
    requires id in f.book && Settle(f, id, now).Some?
    ensures OnlyLife(f, Settle(f, id, now).value, id)
  {
    CarryingMovesLife(f, id, now);
    UpdatingLife(f, id, MakeVoid(f.book[id], BackersGone, now));
  }

  lemma ClosedTakesNoAnswer(f: Register, t: Reply)
    requires t.id in f.book && f.book[t.id].life.state != Open
    ensures Transact(f, t) == f
  {
    assert Answered(f.book[t.id], t).Failure?;
  }

  /** An answer leaves the book as it was, expires its proposal, or records the answer and
      settles; `g` is the book the lives are moved on in. */
  lemma AnswerMoves(f: Register, t: Reply) returns (g: Register)
    requires t.id in f.book && f.book[t.id].life.state == Open
    ensures g.book.Keys == f.book.Keys && forall k :: k in f.book && k != t.id ==> g.book[k] == f.book[k]
    ensures OnlyLife(g, Transact(f, t), t.id)
    ensures Transact(f, t).book[t.id].life.state == Executed ==> OutcomeOf(g.book[t.id]) == Passes
  {
    g := f;
    UpdatingLife(f, t.id, Expire(f.book[t.id], t.now));
    var r := Answered(f.book[t.id], t);
    if !IsDue(f.book[t.id], t.now) && r.Success? {
      var h := Updated(f, t.id, r);
      if Settle(h, t.id, t.now).Some? {
        SettlingMovesLife(h, t.id, t.now);
        g := h;
      }
    }
    if Transact(f, t).book[t.id].life.state == Executed {
      ExecutedInTimeAndTwice(f, t);
    }
  }

  lemma MovedBookIsCarried(f: Register, g: Register, v: Register, id: nat)
    requires BookCarried(f) && OnlyLife(g, v, id) && g.book.Keys == f.book.Keys
    requires forall k :: k in f.book && k != id ==> g.book[k] == f.book[k]
    requires v.book[id].life.state == Executed ==> OutcomeOf(g.book[id]) == Passes
    ensures BookCarried(v)
  {
    forall k | k in v.book ensures CarriedByItsPeers(v.book[k]) {
      if k != id {
        assert v.book[k] == f.book[k];
      }
    }
  }

  lemma ReplyKeepsBook(f: Register, t: Reply)
    requires BookCarried(f)
    ensures BookCarried(Transact(f, t))
  {
    if t.id in f.book {
      if f.book[t.id].life.state != Open {
        ClosedTakesNoAnswer(f, t);
      } else {
        var g := AnswerMoves(f, t);
        MovedBookIsCarried(f, g, Transact(f, t), t.id);
      }
    }
  }

  /** Nothing else the store writes executes a proposal. */
  lemma OthersKeepBook(f: Register, r: Request)
    requires BookCarried(f) && !r.Replies?
    ensures BookCarried(Perform(f, r))
  {
    var v := Perform(f, r);
    forall id | id in v.book ensures CarriedByItsPeers(v.book[id]) {
      assert id in f.book ==> CarriedByItsPeers(f.book[id]);
    }
  }

  lemma {:induction false} RequestsKeepBook(f: Register, rs: seq<Request>)
    requires BookCarried(f)
    ensures BookCarried(PerformAll(f, rs))
    decreases |rs|
  {
    if rs != [] {
      var front, last := rs[..|rs| - 1], rs[|rs| - 1];
      RequestsKeepBook(f, front);
      if last.Replies? {
        ReplyKeepsBook(PerformAll(f, front), last.reply);
      } else {
        OthersKeepBook(PerformAll(f, front), last);
      }
    }
  }

  /** Over any sequence of transactions from an empty book, a proposal about a user the store
      has executed was filed with the people it still asks, each of whose answers was a step
      of theirs, and has reached the bar frozen over them. */
  lemma StoreNeverGoesBelowTheBar(f: Register, rs: seq<Request>, id: nat)
    requires f.book == map[]
    requires id in PerformAll(f, rs).book
    requires var p := PerformAll(f, rs).book[id]; p.kind.OfUser? && p.life.state == Executed
    ensures var p := PerformAll(f, rs).book[id];
            && Evidenced(f, AllSteps(f, rs), id, p)
            && ForVotes(p.peers) >= p.threshold == NeededVotes(|p.peers|)
  {
    RequestsKeepBook(f, rs);
    RequestsAreRun(f, rs);
    SnapshotIsKept(f, AllSteps(f, rs), id);
    ForVotesAreCounted(PerformAll(f, rs).book[id].peers);
  }

  /** What `a` and `b` refrain from asking of the store. */
  ghost predicate SteadfastRequest(f: Register, r: Request, a: UserId, b: UserId) {
    match r
    case Replies(reply) => Steadfast(f, AnswerStep(reply), a, b)
    case Opens(filing, _) => Steadfast(f, filing, a, b)
    case Resigns(who, _, _) => who !in {a, b}
    case _ => true
  }

  lemma RequestIsSteadfast(f: Register, r: Request, a: UserId, b: UserId)
    requires SteadfastRequest(f, r, a, b)
    ensures SteadfastRun(f, StepsFor(f, r), a, b)
  {
    var steps := StepsFor(f, r);
    forall i | 0 <= i < |steps| ensures Steadfast(Run(f, steps[..i]), steps[i], a, b) {
      assert steps[..0] == [] && Run(f, []) == f;
    }
  }

  /** Two steadfast owners hold the fund against the store itself: at every moment of every
      sequence of its transactions both keep their seats and nobody new gains one. */
  lemma {:induction false} StoreKeepsSteadfastOwners(f: Register, rs: seq<Request>, a: UserId, b: UserId)
    requires Guarded(f, a, b)
    requires forall i {:trigger rs[i]} :: 0 <= i < |rs| ==> SteadfastRequest(PerformAll(f, rs[..i]), rs[i], a, b)
    ensures Guarded(PerformAll(f, rs), a, b)
    ensures forall u :: u in PerformAll(f, rs).owners ==> u in f.owners
    decreases |rs|
  {
    if rs != [] {
      var n := |rs| - 1;
      assert forall i :: 0 <= i < n ==> rs[..n][i] == rs[i] && rs[..n][..i] == rs[..i];
      StoreKeepsSteadfastOwners(f, rs[..n], a, b);
      var g := PerformAll(f, rs[..n]);
      assert rs[n] == rs[|rs| - 1];
      RequestIsSteadfast(g, rs[n], a, b);
      RequestIsRun(g, rs[n]);
      GuardedRun(g, StepsFor(g, rs[n]), a, b);
    }
  }
}
