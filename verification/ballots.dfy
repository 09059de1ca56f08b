/** The two counting rules every consilium passes under: unanimity for the owner
    consilia, a simple majority for proposals about a person. */
module Ballots {

  /** A peer's answer with the verb stripped off: carry the proposal, or block it. */
  datatype Ballot = Pending | For | Against

  /** The verdict over the answers so far; `Undecided` is still answerable. */
  datatype Outcome = Undecided | Passes | Fails

  function Count(ballots: seq<Ballot>, b: Ballot): (n: nat)
    ensures n <= |ballots|
  {
    if ballots == [] then 0
    else Count(ballots[..|ballots| - 1], b) + if ballots[|ballots| - 1] == b then 1 else 0
  }

  /** How many of `peers` must agree for a majority: floor(n / 2) + 1. */
  function NeededVotes(peers: nat): nat {
    peers / 2 + 1
  }

  function UnanimityOf(ballots: seq<Ballot>): Outcome {
    if ballots == [] || Against in ballots then Fails
    else if Pending in ballots then Undecided
    else Passes
  }

  function MajorityOf(ballots: seq<Ballot>): Outcome {
    if ballots == [] then Fails
    else if Count(ballots, For) >= NeededVotes(|ballots|) then Passes
    else if Count(ballots, Against) > |ballots| - NeededVotes(|ballots|) then Fails
    else Undecided
  }

  method Unanimity(ballots: seq<Ballot>) returns (o: Outcome)
    ensures o == UnanimityOf(ballots)
  {
    var any, allFor := false, true;
    for i := 0 to |ballots|
      invariant any == (i > 0)
      invariant Against !in ballots[..i]
      invariant allFor <==> Pending !in ballots[..i]
    {
      any := true;
      match ballots[i] {
        case Against => return Fails;
        case Pending => allFor := false;
        case For =>
      }
    }
    assert ballots[..|ballots|] == ballots;
    return if any && allFor then Passes else if any then Undecided else Fails;
  }

  method Majority(ballots: seq<Ballot>) returns (o: Outcome)
    ensures o == MajorityOf(ballots)
  {
    var total, for_, against := 0, 0, 0;
    for i := 0 to |ballots|
      invariant total == i
      invariant for_ == Count(ballots[..i], For)
      invariant against == Count(ballots[..i], Against)
    {
      assert ballots[..i + 1][..i] == ballots[..i];
      total := total + 1;
      match ballots[i] {
        case For => for_ := for_ + 1;
        case Against => against := against + 1;
        case Pending =>
      }
    }
    assert ballots[..|ballots|] == ballots;
    if total == 0 {
      return Fails;
    }
    var needed := NeededVotes(total);
    if for_ >= needed {
      return Passes;
    }
    // Even every remaining peer voting For could not reach the bar.
    if against > total - needed {
      return Fails;
    }
    return Undecided;
  }

  // What the rules mean, said without counting: a completion answers every pending
  // ballot, and a full set of answers carries or it does not.

  ghost predicate IsCompletion(ballots: seq<Ballot>, c: seq<Ballot>) {
    && |c| == |ballots|
    && Pending !in c
    && forall i :: 0 <= i < |c| && ballots[i] != Pending ==> c[i] == ballots[i]
  }

  ghost predicate CarriesUnanimously(c: seq<Ballot>) {
    c != [] && forall b :: b in c ==> b == For
  }

  /** Strictly more than half of everybody asked said For. */
  ghost predicate CarriesByMajority(c: seq<Ballot>) {
    2 * Count(c, For) > |c|
  }

  function Answered(ballots: seq<Ballot>, answer: Ballot): (c: seq<Ballot>)
    requires answer != Pending
    ensures IsCompletion(ballots, c)
    ensures forall i :: 0 <= i < |c| && ballots[i] == Pending ==> c[i] == answer
  {
    seq(|ballots|, i requires 0 <= i < |ballots| => if ballots[i] == Pending then answer else ballots[i])
  }

  /** `later` is `ballots` after some more of the pending peers answered. */
  ghost predicate Extends(ballots: seq<Ballot>, later: seq<Ballot>) {
    && |later| == |ballots|
    && forall i :: 0 <= i < |ballots| && ballots[i] != Pending ==> later[i] == ballots[i]
  }

  lemma {:induction false} CountsPartition(ballots: seq<Ballot>)
    ensures Count(ballots, For) + Count(ballots, Against) + Count(ballots, Pending) == |ballots|
  {
    if ballots != [] {
      CountsPartition(ballots[..|ballots| - 1]);
    }
  }

  lemma {:induction false} CountPositive(ballots: seq<Ballot>, b: Ballot)
    ensures b in ballots <==> Count(ballots, b) > 0
  {
    if ballots != [] {
      var init := ballots[..|ballots| - 1];
      assert ballots == init + [ballots[|ballots| - 1]];
      CountPositive(init, b);
    }
  }

  lemma {:induction false} CountConcat(a: seq<Ballot>, b: seq<Ballot>, x: Ballot)
    ensures Count(a + b, x) == Count(a, x) + Count(b, x)
  {
    if b == [] {
      assert a + b == a;
    } else {
      var last := |b| - 1;
      assert (a + b)[..|a + b| - 1] == a + b[..last];
      CountConcat(a, b[..last], x);
    }
  }

  /** Casting pending ballots can only raise the For and the Against counts. */
  lemma {:induction false} CountGrows(ballots: seq<Ballot>, later: seq<Ballot>, b: Ballot)
    requires Extends(ballots, later) && b != Pending
    ensures Count(ballots, b) <= Count(later, b)
  {
    if ballots != [] {
      CountGrows(ballots[..|ballots| - 1], later[..|later| - 1], b);
    }
  }

  /** The completion answering everything `answer` moves every pending ballot there. */
  lemma {:induction false} AnsweredCount(ballots: seq<Ballot>, answer: Ballot)
    requires answer != Pending
    ensures Count(Answered(ballots, answer), answer) == Count(ballots, answer) + Count(ballots, Pending)
  {
    if ballots != [] {
      var init := ballots[..|ballots| - 1];
      AnsweredCount(init, answer);
      assert Answered(ballots, answer)[..|ballots| - 1] == Answered(init, answer);
    }
  }

  /** Unanimity is exact: it passes iff every way of answering the pending ballots
      carries, fails iff none does, and stays open iff both kinds exist. */
  lemma UnanimityIsExact(ballots: seq<Ballot>)
    ensures UnanimityOf(ballots) == Passes <==> forall c :: IsCompletion(ballots, c) ==> CarriesUnanimously(c)
    ensures UnanimityOf(ballots) == Fails <==> forall c :: IsCompletion(ballots, c) ==> !CarriesUnanimously(c)
    ensures UnanimityOf(ballots) == Undecided <==>
            && (exists c :: IsCompletion(ballots, c) && CarriesUnanimously(c))
            && (exists c :: IsCompletion(ballots, c) && !CarriesUnanimously(c))
  {
    var all, none := Answered(ballots, For), Answered(ballots, Against);
    assert IsCompletion(ballots, all) && IsCompletion(ballots, none);
    if Against in ballots {
      var i :| 0 <= i < |ballots| && ballots[i] == Against;
      forall c | IsCompletion(ballots, c) ensures !CarriesUnanimously(c) {
        assert c[i] == Against && c[i] in c;
      }
    } else if Pending in ballots {
      var i :| 0 <= i < |ballots| && ballots[i] == Pending;
      assert none[i] == Against && none[i] in none;
      assert CarriesUnanimously(all) && !CarriesUnanimously(none);
    }
  }

  /** The majority rule is exact in the same sense, its bar being "more than half". */
  lemma MajorityIsExact(ballots: seq<Ballot>)
    ensures MajorityOf(ballots) == Passes <==> forall c :: IsCompletion(ballots, c) ==> CarriesByMajority(c)
    ensures MajorityOf(ballots) == Fails <==> forall c :: IsCompletion(ballots, c) ==> !CarriesByMajority(c)
    ensures MajorityOf(ballots) == Undecided <==>
            && (exists c :: IsCompletion(ballots, c) && CarriesByMajority(c))
            && (exists c :: IsCompletion(ballots, c) && !CarriesByMajority(c))
  {
    var all, none := Answered(ballots, For), Answered(ballots, Against);
    assert IsCompletion(ballots, all) && IsCompletion(ballots, none);
    CountsPartition(ballots);
    CountsPartition(none);
    AnsweredCount(ballots, For);
    AnsweredCount(ballots, Against);
    CountGrows(ballots, none, For);
    CountPositive(none, Pending);
    forall c | IsCompletion(ballots, c)
      ensures Count(ballots, For) <= Count(c, For) <= |c| - Count(ballots, Against)
    {
      CountGrows(ballots, c, For);
      CountGrows(ballots, c, Against);
      CountsPartition(c);
    }
  }

  /** A verdict once reached survives every further vote, under either rule. */
  lemma VerdictIsFinal(ballots: seq<Ballot>, later: seq<Ballot>)
    requires Extends(ballots, later)
    ensures UnanimityOf(ballots) != Undecided ==> UnanimityOf(later) == UnanimityOf(ballots)
    ensures MajorityOf(ballots) != Undecided ==> MajorityOf(later) == MajorityOf(ballots)
  {
    UnanimityIsFinal(ballots, later);
    MajorityIsFinal(ballots, later);
  }

  lemma UnanimityIsFinal(ballots: seq<Ballot>, later: seq<Ballot>)
    requires Extends(ballots, later)
    ensures UnanimityOf(ballots) != Undecided ==> UnanimityOf(later) == UnanimityOf(ballots)
  {
    UnanimityIsExact(ballots);
    UnanimityIsExact(later);
    assert forall c :: IsCompletion(later, c) ==> IsCompletion(ballots, c);
  }

  lemma MajorityIsFinal(ballots: seq<Ballot>, later: seq<Ballot>)
    requires Extends(ballots, later)
    ensures MajorityOf(ballots) != Undecided ==> MajorityOf(later) == MajorityOf(ballots)
  {
    MajorityIsExact(ballots);
    MajorityIsExact(later);
    assert forall c :: IsCompletion(later, c) ==> IsCompletion(ballots, c);
  }

  /** Up to two peers the rules coincide; beyond that, unanimity is the stronger one. */
  lemma RulesCompared(ballots: seq<Ballot>)
    ensures |ballots| <= 2 ==> UnanimityOf(ballots) == MajorityOf(ballots)
    ensures UnanimityOf(ballots) == Passes ==> MajorityOf(ballots) == Passes
    ensures MajorityOf(ballots) == Fails ==> UnanimityOf(ballots) == Fails
  {
    CountsPartition(ballots);
    CountPositive(ballots, Against);
    CountPositive(ballots, Pending);
  }
}
