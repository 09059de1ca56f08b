/** What the fund does with what it decides: how an executed proposal moves the register, what
    else moves it, and when a transaction of the store carries the proposal it answers. */
module Carrying {
  import opened Ballots
  import opened Results
  import opened Consilium
  import opened Fund
  import opened Transactions
  import Answers

  // ---- The register, member by member ----

  /** Same owners and admins and verdicts but as said: `seats`, `admins` and `verdicts` give
      who stands in each after. */
  ghost predicate SameAdmins(f: Register, g: Register) {
    forall u :: u in g.admins <==> u in f.admins
  }

  ghost predicate SameVerdicts(f: Register, g: Register) {
    forall u :: u in g.verdicts <==> u in f.verdicts
  }

  /** The register after `p` is carried: a removal unseats its subject, an admission seats
      them, either ends their admin seat; an admin admission makes them an admin; a suspension
      puts the owners' verdict on them, and a reinstatement takes it off. Everybody else stands
      as before. */
  ghost predicate Moved(f: Register, g: Register, p: Proposal) {
    match p.kind
    case Removal =>
      && p.subject !in g.owners && (forall u :: u != p.subject ==> (u in g.owners <==> u in f.owners))
      && p.subject !in g.admins && (forall u :: u != p.subject ==> (u in g.admins <==> u in f.admins))
      && SameVerdicts(f, g)
    case Admission =>
      && p.subject !in f.owners && g.owners == f.owners + [p.subject]
      && p.subject !in g.admins && (forall u :: u != p.subject ==> (u in g.admins <==> u in f.admins))
      && SameVerdicts(f, g)
    case OfUser(AdminAdmission) =>
      && g.owners == f.owners && SameVerdicts(f, g)
      && p.subject !in f.owners && p.subject !in f.admins
      && p.subject in g.admins && (forall u :: u != p.subject ==> (u in g.admins <==> u in f.admins))
    case OfUser(Suspension) =>
      && g.owners == f.owners && SameAdmins(f, g)
      && p.subject in g.verdicts && (forall u :: u != p.subject ==> (u in g.verdicts <==> u in f.verdicts))
    case OfUser(Reinstatement) =>
      && g.owners == f.owners && SameAdmins(f, g)
      && p.subject in f.verdicts && p.subject !in g.verdicts
      && (forall u :: u != p.subject ==> (u in g.verdicts <==> u in f.verdicts))
  }

  ghost predicate SameRegister(f: Register, g: Register) {
    g.owners == f.owners && SameAdmins(f, g) && SameVerdicts(f, g)
  }

  ghost predicate OthersKept(f: Register, g: Register, id: nat) {
    forall k :: k != id ==> (k in g.book <==> k in f.book) && (k in f.book ==> g.book[k] == f.book[k])
  }

  /** A proposal open before a step and executed after it. */
  ghost predicate ExecutedBy(f: Register, g: Register, id: nat) {
    && id in f.book && f.book[id].life.state == Open
    && id in g.book && g.book[id].life.state == Executed
  }

  /** What may still be decided of a proposal about a user: a verdict to lift, or a role below
      the admin's to raise. */
  ghost predicate Applies(f: Register, p: Proposal) {
    && (p.kind == OfUser(Reinstatement) ==> p.subject in f.verdicts)
    && (p.kind == OfUser(AdminAdmission) ==> p.subject !in f.owners && p.subject !in f.admins)
  }

  /** When a proposal is carried against the register, exactly. */
  ghost predicate Carriable(f: Register, p: Proposal) {
    && Answers.Backed(p, f.owners) && p.initiator in f.owners && Applies(f, p)
    && (p.kind == Removal ==> |f.owners| >= 3)
    && (p.kind == Admission ==> p.subject !in f.owners)
  }

  /** The reason a backed proposal is voided for. */
  ghost function WhyNot(f: Register, p: Proposal): Why {
    if p.kind == OfUser(Reinstatement) && p.subject !in f.verdicts then NoVerdictToLift
    else if p.kind == OfUser(AdminAdmission) && p.subject in f.owners then OutranksAdmin
    else if p.kind == OfUser(AdminAdmission) && p.subject in f.admins then AdminAlready
    else if p.initiator !in f.owners then InitiatorGone
    else if p.kind == Removal then BelowFloor
    else AlreadySeated
  }

  /** Carried exactly when carriable, moving the register as its kind says; refused without
      backing; otherwise voided, and the register stays as it is. */
  ghost predicate CarriedAsDue(f: Register, g: Register, id: nat, now: int)
    requires id in f.book
  {
    var p := f.book[id];
    && OthersKept(f, g, id) && id in g.book && g.book[id] == p.(life := g.book[id].life)
    && (Carriable(f, p) ==> Moved(f, g, p) && Answers.LifeMoves(p, g.book[id], Executed, [WasExecuted], now))
    && (!Carriable(f, p) ==> SameRegister(f, g))
    && (!Answers.Backed(p, f.owners) ==> g.book[id] == p)
    && (Answers.Backed(p, f.owners) && !Carriable(f, p) ==>
          && Answers.LifeMoves(p, g.book[id], Void, [WasVoided], now)
          && g.book[id].life.voidReason == WhyNot(f, p))
  }

  lemma InapplicableIsVoided(f: Register, id: nat, now: int)
    requires id in f.book && f.book[id].life.state == Open && !Applies(f, f.book[id])
    ensures CarriedAsDue(f, CarryOut(f, id, now), id, now)
  {
    var p := f.book[id];
    PassesAmongExactly(p, f.owners);
    Answers.MakeVoidDoes(p, Inapplicable(f, p).value, now);
    Answers.ExecuteDoes(p, f.owners, now);
  }

  lemma SeatsMove(f: Register, g: Register, p: Proposal)
    requires Carriable(f, p) && g.owners == f.owners && g.admins == f.admins && g.verdicts == f.verdicts
    ensures Moved(f, SeatChange(g, p), p) && SeatChange(g, p).book == g.book
  {
  }

  lemma ApplicableIsExecuted(f: Register, id: nat, now: int)
    requires id in f.book && f.book[id].life.state == Open && Applies(f, f.book[id])
    ensures CarriedAsDue(f, CarryOut(f, id, now), id, now)
  {
    var p := f.book[id];
    var r := Execute(p, f.owners, now);
    Answers.ExecuteDoes(p, f.owners, now);
    if Carriable(f, p) {
      SeatsMove(f, Updated(f, id, r), p);
      assert CarryOut(f, id, now) == SeatChange(Updated(f, id, r), p);
    } else {
      assert r.Success? ==> r.value.life.state == Void;
      assert CarryOut(f, id, now) == Updated(f, id, r);
    }
  }

  /** Carrying an open proposal, exactly. */
  lemma CarryDoes(f: Register, id: nat, now: int)
    requires id in f.book && f.book[id].life.state == Open
    ensures CarriedAsDue(f, Apply(f, Carry(id, now)), id, now)
  {
    if Applies(f, f.book[id]) {
      ApplicableIsExecuted(f, id, now);
    } else {
      InapplicableIsVoided(f, id, now);
    }
  }

  // ---- Every step ----

  /** How a step that carries nothing moves the register: a resignation that leaves two, the
      first seating, an admin seat stripped, a verdict lost. */
  ghost predicate MovedOtherwise(f: Register, s: Step, g: Register) {
    match s
    case Resign(who) =>
      if who in f.owners && |f.owners| >= 3 then
        && who !in g.owners && (forall u :: u != who ==> (u in g.owners <==> u in f.owners))
        && who !in g.admins && (forall u :: u != who ==> (u in g.admins <==> u in f.admins)) && SameVerdicts(f, g)
      else SameRegister(f, g)
    case Genesis(found) =>
      if f.owners == [] && TwoOf(found) then
        && (forall u :: u in g.owners <==> u in found) && NoRepeats(g.owners)
        && (forall u :: u in g.admins <==> u in f.admins && u !in found) && SameVerdicts(f, g)
      else SameRegister(f, g)
    case StripAdmin(user) =>
      && g.owners == f.owners && SameVerdicts(f, g)
      && forall u :: u in g.admins <==> u in f.admins && (u != user || user in f.owners)
    case LoseVerdict(user) =>
      g.owners == f.owners && SameAdmins(f, g) && forall u :: u in g.verdicts <==> u in f.verdicts && u != user
    case _ => SameRegister(f, g)
  }

  ghost predicate TwoOf(found: seq<UserId>) {
    exists a, b :: a in found && b in found && a != b
  }

  lemma {:induction false} DistinctCounts(ids: seq<UserId>)
    ensures |Fund.Distinct(ids)| >= 2 <==> TwoOf(ids)
  {
    var seats := Fund.Distinct(ids);
    if |seats| >= 2 {
      assert seats[0] in seats && seats[1] in seats && seats[0] != seats[1];
    }
    if a, b :| a in ids && b in ids && a != b {
      assert a in seats && b in seats;
      var i :| 0 <= i < |seats| && seats[i] == a;
      var j :| 0 <= j < |seats| && seats[j] == b;
    }
  }

  /** Nothing but carrying executes a proposal. */
  lemma OnlyCarryExecutes(f: Register, s: Step, id: nat)
    requires ExecutedBy(f, Apply(f, s), id)
    ensures s.Carry? && s.id == id
  {
  }

  /** Every step but a carrying one moves the register as it says, and executes nothing. */
  lemma OthersMove(f: Register, s: Step)
    requires !s.Carry?
    ensures MovedOtherwise(f, s, Apply(f, s))
  {
    if s.Genesis? {
      DistinctCounts(s.found);
    }
  }

  /** At every step of every run: a proposal that was open and reads executed has moved the
      register as its kind says, and nothing else; it was carriable; and every other step
      moves the register only as a resignation, genesis or the directory does. */
  lemma ExecutionsMoveRegister(f: Register, steps: seq<Step>, k: nat, id: nat)
    requires k < |steps|
    ensures var before, after := Run(f, steps[..k]), Run(f, steps[..k + 1]);
            && (ExecutedBy(before, after, id) ==>
                  && Carriable(before, before.book[id]) && Moved(before, after, before.book[id])
                  && OthersKept(before, after, id))
            && ((forall i :: !ExecutedBy(before, after, i)) ==>
                  MovedOtherwise(before, steps[k], after) || SameRegister(before, after))
  {
    var before := Run(f, steps[..k]);
    assert steps[..k + 1][..k] == steps[..k];
    var after := Apply(before, steps[k]);
    assert Run(f, steps[..k + 1]) == after;
    if ExecutedBy(before, after, id) {
      OnlyCarryExecutes(before, steps[k], id);
      CarryDoes(before, id, steps[k].now);
    }
    if !steps[k].Carry? {
      OthersMove(before, steps[k]);
    } else if steps[k].id in before.book && before.book[steps[k].id].life.state == Open {
      CarryDoes(before, steps[k].id, steps[k].now);
      if Carriable(before, before.book[steps[k].id]) {
        assert ExecutedBy(before, after, steps[k].id);
      }
    }
  }

  // ---- The store ----

  /** The fund once an accepted answer is recorded and its verdict settled: nothing more while
      the answers do not carry the proposal; the answer refused after all when a removal's
      backers are gone, the proposal voided when another's are; otherwise it is carried. */
  ghost predicate Settled(f: Register, g: Register, id: nat, p: Proposal, now: int) {
    && id in g.book && OthersKept(f, g, id)
    && (p.life.state != Open || !Answers.Agreed(p) ==> g.book[id] == p && SameRegister(f, g))
    && (p.life.state == Open && Answers.Agreed(p) && !Answers.Backed(p, f.owners) ==>
          && SameRegister(f, g)
          && (p.kind == Removal ==> g == f)
          && (p.kind != Removal ==>
                && g.book[id] == p.(life := g.book[id].life)
                && Answers.LifeMoves(p, g.book[id], Void, [WasVoided], now)
                && g.book[id].life.voidReason == BackersGone))
    && (p.life.state == Open && Answers.Agreed(p) && Answers.Backed(p, f.owners) ==>
          && g.book[id] == p.(life := g.book[id].life)
          && (if Carriable(f, p) then
                Moved(f, g, p) && Answers.LifeMoves(p, g.book[id], Executed, [WasExecuted], now)
              else
                && SameRegister(f, g) && Answers.LifeMoves(p, g.book[id], Void, [WasVoided], now)
                && g.book[id].life.voidReason == WhyNot(f, p)))
  }

  /** Nothing said of the register depends on the book. */
  lemma BookDoesNotMatter(f: Register, h: Register, g: Register, id: nat, p: Proposal)
    requires id in f.book && h == f.(book := f.book[id := p])
    ensures Carriable(h, p) <==> Carriable(f, p)
    ensures Moved(h, g, p) <==> Moved(f, g, p)
    ensures SameRegister(h, g) <==> SameRegister(f, g)
    ensures OthersKept(h, g, id) <==> OthersKept(f, g, id)
    ensures WhyNot(h, p) == WhyNot(f, p)
  {
  }

  lemma SettleCarries(f: Register, h: Register, id: nat, p: Proposal, now: int)
    requires id in f.book && h == f.(book := f.book[id := p])
    requires p.life.state == Open && Answers.Agreed(p) && Answers.Backed(p, f.owners)
    ensures Settled(f, Apply(h, Carry(id, now)), id, p, now)
  {
    var g := Apply(h, Carry(id, now));
    CarryDoes(h, id, now);
    BookDoesNotMatter(f, h, g, id, p);
  }

  lemma SettleVoids(f: Register, h: Register, id: nat, p: Proposal, now: int)
    requires id in f.book && h == f.(book := f.book[id := p])
    requires p.life.state == Open && Answers.Agreed(p) && !Answers.Backed(p, f.owners) && p.kind != Removal
    ensures Settled(f, Updated(h, id, MakeVoid(p, BackersGone, now)), id, p, now)
  {
    Answers.MakeVoidDoes(p, BackersGone, now);
  }

  /** A removal's answer refused after all leaves the proposal as it stood before. */
  lemma SettleDoes(f: Register, h: Register, id: nat, p: Proposal, now: int)
    requires id in f.book && h == f.(book := f.book[id := p])
    ensures Settled(f, if Settle(h, id, now).Some? then Settle(h, id, now).value else f, id, p, now)
  {
    PassesAmongExactly(p, f.owners);
    Answers.AgreedExactly(p);
    if p.life.state == Open && Answers.Agreed(p) {
      if Answers.Backed(p, f.owners) {
        SettleCarries(f, h, id, p, now);
        assert Settle(h, id, now) == Some(Apply(h, Carry(id, now)));
      } else if p.kind != Removal {
        SettleVoids(f, h, id, p, now);
      } else {
        assert Settle(h, id, now).None?;
      }
    } else {
      assert Settle(h, id, now) == Some(h);
    }
  }

  /** What an answer's transaction does, whatever was answered: a due proposal is expired
      instead; a refused answer changes nothing; an accepted one is recorded and settled. */
  lemma TransactDoes(f: Register, t: Reply)
    ensures var g := Transact(f, t);
            && (t.id !in f.book ==> g == f)
            && (t.id in f.book ==>
                  var p := f.book[t.id];
                  if p.life.state == Open && t.now >= p.life.expiresAt then
                    && SameRegister(f, g) && OthersKept(f, g, t.id)
                    && t.id in g.book && g.book[t.id] == p.(life := g.book[t.id].life)
                    && Answers.LifeMoves(p, g.book[t.id], Expired, [WasExpired], t.now)
                  else if Transactions.Answered(p, t).Failure? then g == f
                  else Settled(f, g, t.id, Transactions.Answered(p, t).value, t.now))
  {
    if t.id in f.book {
      var p := f.book[t.id];
      Answers.ExpireDoes(p, t.now);
      if !IsDue(p, t.now) && Transactions.Answered(p, t).Success? {
        var q := Transactions.Answered(p, t).value;
        SettleDoes(f, f.(book := f.book[t.id := q]), t.id, q, t.now);
      }
    }
  }

  /** An opening that succeeds files exactly what was opened over the roster, and expires the
      lapsed proposal it would collide with; one refused changes nothing. */
  lemma OpeningDoes(f: Register, filing: Step, stale: Option<nat>)
    requires IsFiling(filing)
    ensures var g := OpenTransaction(f, filing, stale);
            if filing.id !in f.book && Transactions.Opened(f, filing).Success? then
              && SameRegister(f, g)
              && filing.id in g.book && g.book[filing.id] == Transactions.Opened(f, filing).value
              && g.book[filing.id].life.state == Open
              && g.book[filing.id].life.expiresAt == SaturatingAdd(filing.now, 259200)
              && (forall k :: k in g.book <==> k in f.book || k == filing.id)
              && (forall k :: k in f.book && !(FindsStale(f, filing, stale) && k == stale.value) ==>
                    g.book[k] == f.book[k])
              && (FindsStale(f, filing, stale) ==>
                    && g.book[stale.value] == f.book[stale.value].(life := g.book[stale.value].life)
                    && Answers.LifeMoves(f.book[stale.value], g.book[stale.value], Expired, [WasExpired], filing.now))
            else g == f
  {
    if FindsStale(f, filing, stale) {
      Answers.ExpireDoes(f.book[stale.value], filing.now);
      OpeningReadsOwners(f, Updated(f, stale.value, Expire(f.book[stale.value], filing.now)), filing);
    }
  }

  /** Cancelling closes the proposal, as expired once it is due. */
  lemma CancellingDoes(f: Register, id: nat, actor: UserId, now: int)
    ensures var g := CancelTransaction(f, id, actor, now);
            if id in f.book && f.book[id].life.state == Open
               && (now >= f.book[id].life.expiresAt || actor == f.book[id].initiator)
            then
              && SameRegister(f, g) && OthersKept(f, g, id)
              && id in g.book && g.book[id] == f.book[id].(life := g.book[id].life)
              && (if now >= f.book[id].life.expiresAt
                  then Answers.LifeMoves(f.book[id], g.book[id], Expired, [WasExpired], now)
                  else Answers.LifeMoves(f.book[id], g.book[id], Cancelled, [WasCancelled], now))
            else g == f
  {
    if id in f.book {
      Answers.ExpireDoes(f.book[id], now);
      Answers.CancelDoes(f.book[id], actor, now);
    }
  }

  /** Resigning frees the seat, when two are left, and voids the removal it makes moot. */
  lemma ResigningDoes(f: Register, who: UserId, moot: Option<nat>, now: int)
    ensures var g := ResignTransaction(f, who, moot, now);
            if who in f.owners && |f.owners| >= 3 then
              && MovedOtherwise(f, Resign(who), g) && g.book.Keys == f.book.Keys
              && (forall k :: k in f.book && !(FindsMoot(f, who, moot) && k == moot.value) ==> g.book[k] == f.book[k])
              && (FindsMoot(f, who, moot) ==>
                    && g.book[moot.value] == f.book[moot.value].(life := g.book[moot.value].life)
                    && Answers.LifeMoves(f.book[moot.value], g.book[moot.value], Void, [WasVoided], now)
                    && g.book[moot.value].life.voidReason == TargetResigned)
            else g == f
  {
    if FindsMoot(f, who, moot) {
      Answers.MakeVoidDoes(f.book[moot.value], TargetResigned, now);
    }
  }

  /** Genesis and the directory's own moves do in the store what they do in the fund. */
  lemma MovesDo(f: Register, found: seq<UserId>, move: Step)
    ensures MovedOtherwise(f, Genesis(found), Perform(f, SeedsOwners(found)))
    ensures Perform(f, SeedsOwners(found)).book == f.book
    ensures move.StripAdmin? || move.LoseVerdict? ==>
              var g := Perform(f, MovesAccount(move)); MovedOtherwise(f, move, g) && g.book == f.book
    ensures !move.StripAdmin? && !move.LoseVerdict? ==> Perform(f, MovesAccount(move)) == f
  {
    OthersMove(f, Genesis(found));
  }

  /** Answering keeps a proposal's question: its kind, subject and initiator. */
  lemma AnsweringKeepsQuestion(p: Proposal, t: Reply)
    requires Transactions.Answered(p, t).Success?
    ensures SameQuestion(p, Transactions.Answered(p, t).value)
  {
    if t.PeerAnswers? {
      VoteKeepsQuestion(p, t.voter, t.vote, t.now);
    } else {
      DecideKeepsQuestion(p, t.answer, t.now);
    }
  }

  lemma OnlyRepliesExecute(f: Register, r: Request, id: nat)
    requires ExecutedBy(f, Perform(f, r), id)
    ensures r.Replies? && r.reply.id == id
  {
    match r {
      case Replies(t) => TransactDoes(f, t);
      case Opens(filing, stale) => if IsFiling(filing) { OpeningDoes(f, filing, stale); }
      case Cancels(i, actor, now) => CancellingDoes(f, i, actor, now);
      case Resigns(who, moot, now) => ResigningDoes(f, who, moot, now);
      case _ =>
    }
  }

  /** Over any sequence of the store's transactions: whichever one executes a proposal has moved
      the register as its kind says, in the same transaction, and touched no other proposal. */
  lemma StoreExecutionsMoveRegister(f: Register, rs: seq<Request>, k: nat, id: nat)
    requires k < |rs|
    requires ExecutedBy(PerformAll(f, rs[..k]), PerformAll(f, rs[..k + 1]), id)
    ensures var before, after := PerformAll(f, rs[..k]), PerformAll(f, rs[..k + 1]);
            Moved(before, after, before.book[id]) && OthersKept(before, after, id)
  {
    var before := PerformAll(f, rs[..k]);
    assert rs[..k + 1][..k] == rs[..k];
    assert PerformAll(f, rs[..k + 1]) == Perform(before, rs[k]);
    OnlyRepliesExecute(before, rs[k], id);
    var t := rs[k].reply;
    TransactDoes(before, t);
    AnsweringKeepsQuestion(before.book[id], t);
  }
}
