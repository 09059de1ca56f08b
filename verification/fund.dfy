/** The fund: the owner register and every proposal ever filed, under arbitrary
    interleavings of what anybody may do. One step is one transition of one aggregate with
    its effect on the register; the adapter's transactions are runs of such steps. */
module Fund {
  import opened Ballots
  import opened Results
  import opened Consilium

  /** `owners` lists the seated owners once each, `admins` the admin seats, and `verdicts` the
      accounts the owners have suspended. */
  datatype Register = Register(
    owners: seq<UserId>, admins: set<UserId>, verdicts: set<UserId>, book: map<nat, Proposal>)

  datatype Step =
    | FileRemoval(id: nat, target: UserId, initiator: UserId, reason: string, now: int)
    | FileAdmission(id: nat, candidate: UserId, initiator: UserId, reason: string, now: int)
    | FileOfUser(id: nat, standing: Standing, subject: UserId, initiator: UserId, reason: string, now: int)
    | CastVote(id: nat, voter: UserId, vote: Ballot, now: int)
    | TargetAnswers(id: nat, answer: Ballot, now: int)
    | Withdraw(id: nat, actor: UserId, now: int)
    | TimeOut(id: nat, now: int)
    | Annul(id: nat, why: Why, now: int)
    | Carry(id: nat, now: int)
    | Resign(who: UserId)
    | Genesis(found: seq<UserId>)
    | StripAdmin(user: UserId)
    | LoseVerdict(user: UserId)

  function Without(owners: seq<UserId>, u: UserId): (r: seq<UserId>)
    ensures forall x :: x in r <==> x in owners && x != u
    ensures u !in owners ==> r == owners
  {
    if owners == [] then [] else (if owners[0] == u then [] else [owners[0]]) + Without(owners[1..], u)
  }

  /** A list with later repetitions dropped, as genesis remembers each person once. */
  function Distinct(ids: seq<UserId>): (r: seq<UserId>)
    ensures NoRepeats(r)
    ensures forall x :: x in r <==> x in ids
  {
    if ids == [] then []
    else
      var rest := Distinct(ids[..|ids| - 1]);
      if ids[|ids| - 1] in rest then rest else rest + [ids[|ids| - 1]]
  }

  ghost predicate NoRepeats(ids: seq<UserId>) {
    forall i, j :: 0 <= i < j < |ids| ==> ids[i] != ids[j]
  }

  /** A refused filing changes nothing; ids are never reused. */
  function Filed(f: Register, id: nat, r: Result<Proposal>): Register {
    if id in f.book || r.Failure? then f else f.(book := f.book[id := r.value])
  }

  function Updated(f: Register, id: nat, r: Result<Proposal>): Register {
    if r.Failure? then f else f.(book := f.book[id := r.value])
  }

  /** The role writes of an executed proposal. Losing or gaining a seat overwrites an
      admin role, because a user holds one role. */
  function SeatChange(f: Register, p: Proposal): Register {
    match p.kind
    case Removal => f.(owners := Without(f.owners, p.subject), admins := f.admins - {p.subject})
    case Admission => f.(owners := f.owners + [p.subject], admins := f.admins - {p.subject})
    case OfUser(AdminAdmission) => f.(admins := f.admins + {p.subject})
    case OfUser(Suspension) => f.(verdicts := f.verdicts + {p.subject})
    case OfUser(Reinstatement) => f.(verdicts := f.verdicts - {p.subject})
  }

  /** Why a passed proposal about a user has nothing left to do: no verdict stands to be
      lifted, or the subject already holds the role or one above it. */
  function Inapplicable(f: Register, p: Proposal): Option<Why> {
    match p.kind
    case OfUser(Reinstatement) => if p.subject in f.verdicts then None else Some(NoVerdictToLift)
    case OfUser(AdminAdmission) =>
      if p.subject in f.owners then Some(OutranksAdmin) else if p.subject in f.admins then Some(AdminAlready) else None
    case _ => None
  }

  function CarryOut(f: Register, id: nat, now: int): Register
    requires id in f.book
  {
    var p := f.book[id];
    if p.life.state != Open then f
    else if Inapplicable(f, p).Some? && OutcomeAmong(p, f.owners) == Passes then
      Updated(f, id, MakeVoid(p, Inapplicable(f, p).value, now))
    else
      var r := Execute(p, f.owners, now);
      var g := Updated(f, id, r);
      if r.Success? && r.value.life.state == Executed then SeatChange(g, p) else g
  }

  function Apply(f: Register, s: Step): Register {
    match s
    case FileRemoval(id, target, initiator, reason, now) =>
      Filed(f, id, OpenRemoval(target, initiator, reason, f.owners, now, REMOVAL_TTL_SECS))
    case FileAdmission(id, candidate, initiator, reason, now) =>
      Filed(f, id, OpenAdmission(candidate, initiator, reason, f.owners, now, REMOVAL_TTL_SECS))
    case FileOfUser(id, standing, subject, initiator, reason, now) =>
      Filed(f, id, OpenOfUser(standing, subject, initiator, reason, f.owners, now, REMOVAL_TTL_SECS))
    case CastVote(id, voter, vote, now) =>
      if id in f.book then Updated(f, id, Vote(f.book[id], voter, vote, now)) else f
    case TargetAnswers(id, answer, now) =>
      if id in f.book && f.book[id].kind == Removal then Updated(f, id, Decide(f.book[id], answer, now)) else f
    case Withdraw(id, actor, now) =>
      if id in f.book then Updated(f, id, Cancel(f.book[id], actor, now)) else f
    case TimeOut(id, now) =>
      if id in f.book then Updated(f, id, Expire(f.book[id], now)) else f
    case Annul(id, why, now) =>
      if id in f.book then Updated(f, id, MakeVoid(f.book[id], why, now)) else f
    case Carry(id, now) =>
      if id in f.book then CarryOut(f, id, now) else f
    case Resign(who) =>
      if who !in f.owners || CheckFloor(|f.owners|).Failure? then f
      else f.(owners := Without(f.owners, who), admins := f.admins - {who})
    case Genesis(found) =>
      var seats := Distinct(found);
      if f.owners != [] || |seats| < MIN_OWNERS then f
      else f.(owners := seats, admins := f.admins - set u | u in seats)
    case StripAdmin(user) =>
      if user in f.owners then f else f.(admins := f.admins - {user})
    case LoseVerdict(user) => f.(verdicts := f.verdicts - {user})
  }

  function Run(f: Register, steps: seq<Step>): Register {
    if steps == [] then f else Apply(Run(f, steps[..|steps| - 1]), steps[|steps| - 1])
  }

  lemma {:induction false} RunConcat(f: Register, first: seq<Step>, second: seq<Step>)
    ensures Run(f, first + second) == Run(Run(f, first), second)
    decreases |second|
  {
    if second == [] {
      assert first + second == first;
    } else {
      var last := |second| - 1;
      assert (first + second)[..|first + second| - 1] == first + second[..last];
      RunConcat(f, first, second[..last]);
    }
  }

  // ---- The owner floor ----

  /** Each owner listed once, none also an admin, and never exactly one of them. */
  ghost predicate Seats(f: Register) {
    && NoRepeats(f.owners)
    && (f.owners == [] || |f.owners| >= MIN_OWNERS)
    && forall u :: u in f.admins ==> u !in f.owners
  }

  lemma {:induction false} WithoutCounts(owners: seq<UserId>, u: UserId)
    requires NoRepeats(owners)
    ensures NoRepeats(Without(owners, u))
    ensures |Without(owners, u)| == |owners| - if u in owners then 1 else 0
  {
    if owners != [] {
      assert forall x :: x in owners[1..] ==> exists i :: 1 <= i < |owners| && owners[i] == x;
      WithoutCounts(owners[1..], u);
      var rest := Without(owners[1..], u);
      assert owners[0] !in rest;
    }
  }

  lemma SeatChangeKeepsSeats(f: Register, p: Proposal)
    requires Seats(f)
    requires p.kind == Removal ==> |f.owners| - 1 >= MIN_OWNERS
    requires p.kind == Admission ==> f.owners != [] && p.subject !in f.owners
    requires p.kind == OfUser(AdminAdmission) ==> p.subject !in f.owners
    ensures Seats(SeatChange(f, p))
    ensures f.owners != [] ==> SeatChange(f, p).owners != []
  {
    if p.kind == Removal {
      WithoutCounts(f.owners, p.subject);
    }
  }

  lemma CarryKeepsSeats(f: Register, id: nat, now: int)
    requires Seats(f) && id in f.book
    ensures Seats(CarryOut(f, id, now))
    ensures f.owners != [] ==> CarryOut(f, id, now).owners != []
  {
    var p := f.book[id];
    var r := Execute(p, f.owners, now);
    var g := Updated(f, id, r);
    assert Seats(g);
    if p.life.state == Open && Inapplicable(f, p).None? && r.Success? && r.value.life.state == Executed {
      assert p.initiator in f.owners;
      assert p.kind == OfUser(AdminAdmission) ==> p.subject !in f.owners by {
        ExecutedHasBacking(p, f.owners, now);
      }
      SeatChangeKeepsSeats(g, p);
    }
  }

  lemma StepKeepsSeats(f: Register, s: Step)
    requires Seats(f)
    ensures Seats(Apply(f, s))
    ensures f.owners != [] ==> Apply(f, s).owners != []
  {
    match s {
      case Carry(id, now) =>
        if id in f.book {
          CarryKeepsSeats(f, id, now);
        }
      case Resign(who) => WithoutCounts(f.owners, who);
      case Genesis(found) =>
      case StripAdmin(_) =>
      case _ => assert Apply(f, s).owners == f.owners && Apply(f, s).admins == f.admins;
    }
  }

  /** In every reachable state the fund has no owner or at least MIN_OWNERS, and a fund
      that has ever had one has one for good. */
  lemma {:induction false} OwnersNeverVanish(f: Register, steps: seq<Step>)
    requires Seats(f)
    ensures Seats(Run(f, steps))
    ensures f.owners != [] ==> |Run(f, steps).owners| >= MIN_OWNERS
    decreases |steps|
  {
    if steps != [] {
      OwnersNeverVanish(f, steps[..|steps| - 1]);
      StepKeepsSeats(Run(f, steps[..|steps| - 1]), steps[|steps| - 1]);
    }
  }

  // ---- The register moves only with backing ----

  /** The register as a removal, admission, resignation or genesis may move it: every other
      step, and every refused one, leaves it alone. */
  ghost predicate BackedMove(f: Register, s: Step, g: Register) {
    match s
    case Genesis(found) => f.owners == [] && |g.owners| >= MIN_OWNERS && forall u :: u in g.owners ==> u in found
    case Resign(who) => who in f.owners && |g.owners| >= MIN_OWNERS && g.owners == Without(f.owners, who)
    case Carry(id, _) =>
      && id in f.book
      && var p := f.book[id];
      && p.initiator in f.owners
      && (p.kind == Removal || p.kind == Admission)
      && (Snapshotted(p) ==> SecondPerson(p, f.owners))
      && (p.kind == Removal ==>
          g.owners == Without(f.owners, p.subject) && (p.decision == For || SeatedUnanimous(p, f.owners)))
      && (p.kind == Admission ==> g.owners == f.owners + [p.subject] && SeatedUnanimous(p, f.owners))
    case _ => false
  }

  lemma RegisterMovesOnlyWithBacking(f: Register, s: Step)
    requires Seats(f)
    ensures Apply(f, s).owners != f.owners ==> BackedMove(f, s, Apply(f, s))
  {
    match s {
      case Carry(id, now) =>
        if Apply(f, s).owners != f.owners {
          ExecutedHasBacking(f.book[id], f.owners, now);
        }
      case Resign(who) => WithoutCounts(f.owners, who);
      case _ =>
    }
  }

  // ---- Two steadfast owners ----

  /** What `a` and `b` refrain from: proposing, voting For a removal or an admission,
      accepting their own removal, and resigning. Everybody else does as they like. */
  ghost predicate Steadfast(f: Register, s: Step, a: UserId, b: UserId) {
    match s
    case FileRemoval(_, _, initiator, _, _) => initiator !in {a, b}
    case FileAdmission(_, _, initiator, _, _) => initiator !in {a, b}
    case FileOfUser(_, _, _, initiator, _, _) => initiator !in {a, b}
    case CastVote(id, voter, vote, _) => voter in {a, b} && vote == For ==> id in f.book ==> f.book[id].kind.OfUser?
    case TargetAnswers(id, answer, _) => answer == For ==> id in f.book ==> f.book[id].subject !in {a, b}
    case Resign(who) => who !in {a, b}
    case _ => true
  }

  ghost predicate SteadfastRun(f: Register, steps: seq<Step>, a: UserId, b: UserId) {
    forall i {:trigger steps[i]} :: 0 <= i < |steps| ==> Steadfast(Run(f, steps[..i]), steps[i], a, b)
  }

  /** `who` was snapshotted as a peer and has not voted For. */
  ghost predicate Withholds(p: Proposal, who: UserId) {
    exists i :: 0 <= i < |p.peers| && p.peers[i].user == who && p.peers[i].vote != For
  }

  /** Why an open proposal cannot pass against `a` or `b`: each protects the other's seat,
      and `a` alone blocks every admission. */
  ghost predicate Harmless(p: Proposal, a: UserId, b: UserId) {
    && (p.kind == Removal && p.subject == a ==> p.decision != For && Withholds(p, b))
    && (p.kind == Removal && p.subject == b ==> p.decision != For && Withholds(p, a))
    && (p.kind == Admission ==> Withholds(p, a))
  }

  ghost predicate Guarded(f: Register, a: UserId, b: UserId) {
    && a != b && a in f.owners && b in f.owners
    && forall id :: id in f.book && f.book[id].life.state == Open ==> Harmless(f.book[id], a, b)
  }

  lemma WithholdingBlocks(p: Proposal, who: UserId, owners: seq<UserId>)
    requires Withholds(p, who) && who in owners
    requires p.kind == Admission || (p.kind == Removal && p.decision != For)
    ensures OutcomeAmong(p, owners) != Passes
  {
    PassesAmongExactly(p, owners);
    var i :| 0 <= i < |p.peers| && p.peers[i].user == who && p.peers[i].vote != For;
    assert p.peers[i] in p.peers;
  }

  lemma FiledIsHarmless(p: Proposal, a: UserId, b: UserId, owners: seq<UserId>, excluded: set<UserId>)
    requires a in owners && b in owners
    requires p.peers == PeersAmong(owners, excluded) && p.decision == Pending
    requires p.kind == Removal && p.subject != a ==> a !in excluded
    requires p.kind == Removal && p.subject != b ==> b !in excluded
    requires p.kind == Admission ==> a !in excluded
    requires a != b
    ensures Harmless(p, a, b)
  {
    assert a !in excluded ==> Peer(a, Pending, 0) in p.peers;
    assert b !in excluded ==> Peer(b, Pending, 0) in p.peers;
  }

  lemma VotingKeepsWithholding(p: Proposal, voter: UserId, vote: Ballot, now: int, who: UserId)
    requires Withholds(p, who)
    requires voter == who ==> vote != For
    requires Vote(p, voter, vote, now).Success?
    ensures Withholds(Vote(p, voter, vote, now).value, who)
  {
    var i :| 0 <= i < |p.peers| && p.peers[i].user == who && p.peers[i].vote != For;
    var q := Vote(p, voter, vote, now).value;
    assert q.peers[i].user == who && q.peers[i].vote != For;
  }

  lemma RewritingKeeps(f: Register, id: nat, q: Proposal, a: UserId, b: UserId)
    requires Guarded(f, a, b)
    requires q.life.state == Open ==> Harmless(q, a, b)
    ensures Guarded(f.(book := f.book[id := q]), a, b)
  {
  }

  lemma FilingKeeps(f: Register, s: Step, a: UserId, b: UserId)
    requires Guarded(f, a, b) && Steadfast(f, s, a, b)
    requires s.FileRemoval? || s.FileAdmission? || s.FileOfUser?
    ensures Guarded(Apply(f, s), a, b)
  {
    var (r, excluded) := match s
      case FileRemoval(_, target, initiator, reason, now) =>
        (OpenRemoval(target, initiator, reason, f.owners, now, REMOVAL_TTL_SECS), {target, initiator})
      case FileAdmission(_, candidate, initiator, reason, now) =>
        (OpenAdmission(candidate, initiator, reason, f.owners, now, REMOVAL_TTL_SECS), {initiator})
      case FileOfUser(_, standing, subject, initiator, reason, now) =>
        (OpenOfUser(standing, subject, initiator, reason, f.owners, now, REMOVAL_TTL_SECS), {initiator});
    if r.Success? {
      FiledIsHarmless(r.value, a, b, f.owners, excluded);
      RewritingKeeps(f, s.id, r.value, a, b);
    }
  }

  lemma VotingKeeps(f: Register, id: nat, voter: UserId, vote: Ballot, now: int, a: UserId, b: UserId)
    requires Guarded(f, a, b) && Steadfast(f, CastVote(id, voter, vote, now), a, b) && id in f.book
    ensures Guarded(Apply(f, CastVote(id, voter, vote, now)), a, b)
  {
    var p := f.book[id];
    var r := Vote(p, voter, vote, now);
    if r.Success? {
      if !p.kind.OfUser? && Withholds(p, a) {
        VotingKeepsWithholding(p, voter, vote, now, a);
      }
      if !p.kind.OfUser? && Withholds(p, b) {
        VotingKeepsWithholding(p, voter, vote, now, b);
      }
      assert p.life.state == Open;
      RewritingKeeps(f, id, r.value, a, b);
    }
  }

  lemma DecidingKeeps(f: Register, id: nat, answer: Ballot, now: int, a: UserId, b: UserId)
    requires Guarded(f, a, b) && Steadfast(f, TargetAnswers(id, answer, now), a, b)
    requires id in f.book && f.book[id].kind == Removal
    ensures Guarded(Apply(f, TargetAnswers(id, answer, now)), a, b)
  {
    var p := f.book[id];
    var r := Decide(p, answer, now);
    if r.Success? {
      assert p.life.state == Open && r.value.peers == p.peers;
      assert Withholds(p, a) ==> Withholds(r.value, a);
      assert Withholds(p, b) ==> Withholds(r.value, b);
      RewritingKeeps(f, id, r.value, a, b);
    }
  }

  /** Execution at most closes its proposal, and seats move only on a passing verdict. */
  lemma CarriedOutIsClosed(f: Register, id: nat, now: int)
    requires id in f.book
    ensures var p, g := f.book[id], CarryOut(f, id, now);
            && (g.book == f.book
                || (id in g.book && g.book == f.book[id := g.book[id]] && g.book[id].life.state != Open))
            && (p.life.state != Open || OutcomeAmong(p, f.owners) != Passes ==> g.owners == f.owners)
            && (g.owners == f.owners
                || (p.kind == Removal && g.owners == Without(f.owners, p.subject))
                || (p.kind == Admission && g.owners == f.owners + [p.subject]))
  {
  }

  lemma CarryingKeeps(f: Register, id: nat, now: int, a: UserId, b: UserId)
    requires Guarded(f, a, b) && id in f.book
    ensures Guarded(CarryOut(f, id, now), a, b)
    ensures forall u :: u in CarryOut(f, id, now).owners ==> u in f.owners
  {
    var p, g := f.book[id], CarryOut(f, id, now);
    CarriedOutIsClosed(f, id, now);
    if p.life.state == Open && !p.kind.OfUser? {
      if p.kind == Admission || p.subject == b {
        WithholdingBlocks(p, a, f.owners);
      } else if p.subject == a {
        WithholdingBlocks(p, b, f.owners);
      }
    }
    assert a in g.owners && b in g.owners;
    if g.book != f.book {
      RewritingKeeps(f, id, g.book[id], a, b);
    }
  }

  lemma SteadfastStepKeeps(f: Register, s: Step, a: UserId, b: UserId)
    requires Guarded(f, a, b) && Steadfast(f, s, a, b)
    ensures Guarded(Apply(f, s), a, b)
    ensures forall u :: u in Apply(f, s).owners ==> u in f.owners
  {
    match s {
      case FileRemoval(_, _, _, _, _) => FilingKeeps(f, s, a, b);
      case FileAdmission(_, _, _, _, _) => FilingKeeps(f, s, a, b);
      case FileOfUser(_, _, _, _, _, _) => FilingKeeps(f, s, a, b);
      case CastVote(id, voter, vote, now) =>
        if id in f.book {
          VotingKeeps(f, id, voter, vote, now, a, b);
        }
      case TargetAnswers(id, answer, now) =>
        if id in f.book && f.book[id].kind == Removal {
          DecidingKeeps(f, id, answer, now, a, b);
        }
      case Carry(id, now) =>
        if id in f.book {
          CarryingKeeps(f, id, now, a, b);
        }
      case _ =>
    }
  }

  lemma {:induction false} GuardedRun(f: Register, steps: seq<Step>, a: UserId, b: UserId)
    requires Guarded(f, a, b) && SteadfastRun(f, steps, a, b)
    ensures Guarded(Run(f, steps), a, b)
    ensures forall u :: u in Run(f, steps).owners ==> u in f.owners
    decreases |steps|
  {
    if steps != [] {
      var n := |steps| - 1;
      assert forall i :: 0 <= i < n ==> steps[..n][i] == steps[i] && steps[..n][..i] == steps[..i];
      GuardedRun(f, steps[..n], a, b);
      assert steps[n] == steps[|steps| - 1];
      SteadfastStepKeeps(Run(f, steps[..n]), steps[n], a, b);
    }
  }

  /** Two steadfast owners hold the fund: whatever everybody else proposes, votes and
      executes, at every moment both keep their seats and nobody new gets one. */
  lemma TwoSteadfastOwners(f: Register, steps: seq<Step>, a: UserId, b: UserId, k: nat)
    requires a != b && a in f.owners && b in f.owners
    requires forall id :: id in f.book ==> f.book[id].life.state != Open
    requires SteadfastRun(f, steps, a, b) && k <= |steps|
    ensures a in Run(f, steps[..k]).owners && b in Run(f, steps[..k]).owners
    ensures forall u :: u in Run(f, steps[..k]).owners ==> u in f.owners
  {
    assert forall i :: 0 <= i < k ==> steps[..k][i] == steps[i] && steps[..k][..i] == steps[..i];
    GuardedRun(f, steps[..k], a, b);
  }

  lemma RunOfThree(f: Register, s0: Step, s1: Step, s2: Step)
    ensures Run(f, [s0, s1, s2]) == Apply(Apply(Apply(f, s0), s1), s2)
  {
    var steps := [s0, s1, s2];
    assert steps[..2] == [s0, s1] && [s0, s1][..1] == [s0] && [s0][..0] == [];
    assert Run(f, [s0]) == Apply(Run(f, []), s0);
    assert Run(f, [s0, s1]) == Apply(Run(f, [s0]), s1);
  }

  /** The removal of `target` by `initiator` in a fund of three, as `third` has answered. */
  function ThreeOwnersRemoval(target: UserId, initiator: UserId, third: Peer, reason: string,
                              life: Lifecycle): Proposal {
    Proposal(Removal, target, initiator, reason, 3, 0, [third], Pending, 0, life)
  }

  lemma {:induction false} NobodyToAsk(owners: seq<UserId>, excluded: set<UserId>)
    requires forall u :: u in owners ==> u in excluded
    ensures PeersAmong(owners, excluded) == []
  {
    if owners != [] {
      NobodyToAsk(owners[1..], excluded);
    }
  }

  lemma {:induction false} OneToAsk(owners: seq<UserId>, excluded: set<UserId>, i: nat)
    requires i < |owners| && owners[i] !in excluded
    requires forall j :: 0 <= j < |owners| && j != i ==> owners[j] in excluded
    ensures PeersAmong(owners, excluded) == [Peer(owners[i], Pending, 0)]
  {
    if i == 0 {
      NobodyToAsk(owners[1..], excluded);
    } else {
      OneToAsk(owners[1..], excluded, i - 1);
    }
  }

  lemma RemovalAmongThree(owners: seq<UserId>, target: UserId, initiator: UserId, third: UserId, reason: string,
                          now: int)
    requires |owners| == 3 && target in owners && initiator in owners && third in owners
    requires target != initiator && third != target && third != initiator && ValidReason(reason).Success?
    ensures OpenRemoval(target, initiator, reason, owners, now, REMOVAL_TTL_SECS)
            == Success(ThreeOwnersRemoval(target, initiator, Peer(third, Pending, 0), ValidReason(reason).value,
                                          OpenedLife(now, REMOVAL_TTL_SECS)))
  {
    var i :| 0 <= i < 3 && owners[i] == third;
    OneToAsk(owners, {target, initiator}, i);
  }

  lemma TheThirdCarries(p: Proposal, owners: seq<UserId>, third: UserId, now: int)
    requires p.kind == Removal && p.life.state == Open && p.decision == Pending && p.peers == [Peer(third, Pending, 0)]
    requires p.initiator in owners && third in owners && |owners| == 3
    ensures var voted := Vote(p, third, For, now);
            && voted.Success? && voted.value.life.state == Open
            && voted.value.subject == p.subject && voted.value.kind == Removal
            && Execute(voted.value, owners, now).Success?
            && Execute(voted.value, owners, now).value.life.state == Executed
  {
    var q := p.(peers := [Peer(third, For, now)], life := p.life.Emit(PeerVoted));
    assert p.peers[0 := Peer(third, For, now)] == q.peers;
    assert BallotsOf(q.peers) == [For] && q.peers[0] in q.peers;
    assert Vote(p, third, For, now) == Success(q);
    PassesAmongExactly(q, owners);
  }

  lemma ExecutionTakesTheSeat(f: Register, id: nat, now: int)
    requires id in f.book && f.book[id].kind == Removal && f.book[id].life.state == Open
    requires Execute(f.book[id], f.owners, now).Success?
             && Execute(f.book[id], f.owners, now).value.life.state == Executed
    ensures Apply(f, Carry(id, now)).owners == Without(f.owners, f.book[id].subject)
  {
  }

  /** One is not enough: of any three owners, in any order, two carry the removal of the
      third, who does nothing. */
  lemma OneSteadfastOwnerIsNotEnough(f: Register, idle: UserId, initiator: UserId, third: UserId, id: nat,
                                     reason: string, now: int)
    requires |f.owners| == 3 && idle in f.owners && initiator in f.owners && third in f.owners
    requires idle != initiator && third != idle && third != initiator
    requires id !in f.book && ValidReason(reason).Success?
    ensures var steps := [FileRemoval(id, idle, initiator, reason, now), CastVote(id, third, For, now), Carry(id, now)];
            idle !in Run(f, steps).owners
  {
    RemovalAmongThree(f.owners, idle, initiator, third, reason, now);
    var p := OpenRemoval(idle, initiator, reason, f.owners, now, REMOVAL_TTL_SECS).value;
    TheThirdCarries(p, f.owners, third, now);
    var filed := f.(book := f.book[id := p]);
    var voted := filed.(book := filed.book[id := Vote(p, third, For, now).value]);
    assert Apply(f, FileRemoval(id, idle, initiator, reason, now)) == filed;
    assert Apply(filed, CastVote(id, third, For, now)) == voted;
    ExecutionTakesTheSeat(voted, id, now);
    RunOfThree(f, FileRemoval(id, idle, initiator, reason, now), CastVote(id, third, For, now), Carry(id, now));
  }
}
