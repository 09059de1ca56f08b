/** What one admin's emergency brake can cost an account: however often it is pressed, lifted
    and swept, no stretch of eight days holds more than one day of it. Each command carries
    the clock its sender read, and they land in any order of their readings. */
module HoldBudget {
  import opened Results
  import opened Users

  /** The seconds a hold was in force: from the press to its lift, or to its deadline if
      nobody lifted it sooner, however late the sweep came. */
  datatype Interval = Interval(start: int, end: int)

  /** An account with the holds it has seen, and the press of the one in force. */
  datatype Watched = Watched(user: User, past: seq<Interval>, pressed: int)
  {
    function Holds(): seq<Interval> {
      if user.Held() then past + [Interval(pressed, user.suspension.value.expiresAt)] else past
    }
  }

  /** The commands at issue: holds pressed with no proposal pending, lifts and sweeps, and
      everything that does not touch the suspension; no verdict and no raw brake. */
  predicate Counted(c: Command) {
    !c.Disable? && !c.Suspend? && (c.Hold? ==> !c.ratificationPending)
  }

  predicate Timed(c: Command) {
    c.Hold? || c.Enable? || c.Reinstate? || c.LapseHold?
  }

  function Step(w: Watched, c: Command): Watched {
    var v := Next(w.user, c);
    Watched(v,
            if w.user.Held() && !v.Held() && v.holdEndedAt.Some?
            then w.past + [Interval(w.pressed, v.holdEndedAt.value)]
            else w.past,
            if !w.user.Held() && v.Held() && c.Hold? then c.now else w.pressed)
  }

  function Run(w: Watched, commands: seq<Command>): Watched {
    if commands == [] then w else Step(Run(w, commands[..|commands| - 1]), commands[|commands| - 1])
  }

  function Watch(u: User): Watched {
    Watched(u, [], 0)
  }

  /** Readings are `i64`s, and no lift reads a clock more than `skew` seconds behind an earlier
      press. */
  ghost predicate Lags(commands: seq<Command>, skew: nat) {
    && (forall i :: 0 <= i < |commands| ==> Counted(commands[i]))
    && (forall i :: 0 <= i < |commands| && Timed(commands[i]) ==> I64_MIN <= commands[i].now <= I64_MAX)
    && (forall i, j :: 0 <= i < j < |commands| && commands[i].Hold? && Lifts(commands[j]) ==>
          commands[i].now <= commands[j].now + skew)
  }

  predicate Lifts(c: Command) {
    c.Enable? || c.Reinstate?
  }

  // ---- The shape every run keeps ----

  /** A hold lasts at most a day, or ends by a lift that read no more than a cooldown before
      its press. */
  predicate Bounded(h: Interval) {
    && I64_MIN <= h.start <= I64_MAX && I64_MIN <= h.end
    && h.start - HOLD_COOLDOWN_SECS <= h.end <= SaturatingAdd(h.start, HOLD_TTL_SECS)
  }

  /** And each starts a cooldown after every earlier one ended. */
  ghost predicate Chained(holds: seq<Interval>) {
    && (forall i :: 0 <= i < |holds| ==> Bounded(holds[i]))
    && (forall i, j :: 0 <= i < j < |holds| ==>
          SaturatingAdd(holds[i].end, HOLD_COOLDOWN_SECS) <= holds[j].start)
  }

  ghost predicate Paced(w: Watched) {
    && Chained(w.Holds())
    && w.user.suspension != Some(Governance)
    && (w.user.Held() ==>
        && I64_MIN <= w.pressed <= I64_MAX
        && w.user.suspension.value.expiresAt == SaturatingAdd(w.pressed, HOLD_TTL_SECS))
    && (w.past != [] ==> w.user.holdEndedAt == Some(w.past[|w.past| - 1].end))
  }

  lemma LiftPaces(w: Watched, c: Command)
    requires Paced(w) && (Lifts(c) || c.LapseHold?) && I64_MIN <= c.now <= I64_MAX
    requires Lifts(c) && w.user.Held() ==> w.pressed - HOLD_COOLDOWN_SECS <= c.now
    ensures Paced(Step(w, c))
  {
    var v := Step(w, c);
    if w.user.Held() && !v.user.Held() {
      var n := |w.past|;
      var before := w.Holds();
      assert before[n] == Interval(w.pressed, w.user.suspension.value.expiresAt);
      assert forall i :: 0 <= i < n ==> before[i] == w.past[i] == v.past[i];
      assert v.past[n].end <= before[n].end;
    }
  }

  lemma PressPaces(w: Watched, c: Command)
    requires Paced(w) && c.Hold? && !c.ratificationPending && I64_MIN <= c.now <= I64_MAX
    ensures Paced(Step(w, c))
  {
    if HoldRefused(w.user, c.actor, c.now, false).None? {
      var v := Step(w, c);
      var hold := Interval(c.now, SaturatingAdd(c.now, HOLD_TTL_SECS));
      assert v.user.suspension == Some(AdminHold(hold.end)) && v.past == w.past;
      assert v.Holds() == w.past + [hold];
      AppendHold(w.past, hold);
    }
  }

  lemma AppendHold(holds: seq<Interval>, hold: Interval)
    requires Chained(holds) && Bounded(hold)
    requires holds != [] ==> SaturatingAdd(holds[|holds| - 1].end, HOLD_COOLDOWN_SECS) <= hold.start
    ensures Chained(holds + [hold])
  {
    if holds != [] {
      var last := holds[|holds| - 1];
      assert Bounded(last) && last.start <= hold.start;
      forall i | 0 <= i < |holds| ensures SaturatingAdd(holds[i].end, HOLD_COOLDOWN_SECS) <= hold.start {
        if i < |holds| - 1 {
          assert SaturatingAdd(holds[i].end, HOLD_COOLDOWN_SECS) <= last.start;
        }
      }
    }
  }

  /** What moves no clock leaves the suspension and the last hold's end alone. */
  lemma UntimedKeepsHolds(u: User, c: Command)
    requires Counted(c) && !Timed(c)
    ensures Next(u, c).suspension == u.suspension && Next(u, c).holdEndedAt == u.holdEndedAt
  {
  }

  lemma SameHoldsPace(w: Watched, v: Watched)
    requires Paced(w) && v.past == w.past && v.pressed == w.pressed
    requires v.user.suspension == w.user.suspension && v.user.holdEndedAt == w.user.holdEndedAt
    ensures Paced(v)
  {
    assert v.Holds() == w.Holds();
  }

  lemma StepPaces(w: Watched, c: Command)
    requires Paced(w) && Counted(c) && (Timed(c) ==> I64_MIN <= c.now <= I64_MAX)
    requires Lifts(c) && w.user.Held() ==> w.pressed - HOLD_COOLDOWN_SECS <= c.now
    ensures Paced(Step(w, c))
  {
    if c.Hold? {
      PressPaces(w, c);
    } else if Timed(c) {
      LiftPaces(w, c);
    } else {
      UntimedKeepsHolds(w.user, c);
      SameHoldsPace(w, Step(w, c));
    }
  }

  /** A hold in force was pressed by a command of the run. */
  ghost predicate Pressed(w: Watched, commands: seq<Command>) {
    w.user.Held() ==> exists i :: 0 <= i < |commands| && commands[i].Hold? && commands[i].now == w.pressed
  }

  lemma StepPresses(w: Watched, commands: seq<Command>, c: Command)
    requires Pressed(w, commands) && (c.Hold? ==> !c.ratificationPending)
    ensures Pressed(Step(w, c), commands + [c])
  {
    var all := commands + [c];
    if w.user.Held() {
      var i :| 0 <= i < |commands| && commands[i].Hold? && commands[i].now == w.pressed;
      assert all[i] == commands[i];
    } else if c.Hold? {
      assert all[|commands|] == c;
    } else {
      OnlyPressesHold(w.user, c);
    }
  }

  lemma OnlyPressesHold(u: User, c: Command)
    requires !u.Held() && !c.Hold?
    ensures !Next(u, c).Held()
  {
  }

  lemma {:induction false} RunPaces(u: User, commands: seq<Command>)
    requires u.suspension.None? && Lags(commands, HOLD_COOLDOWN_SECS)
    ensures Paced(Run(Watch(u), commands)) && Pressed(Run(Watch(u), commands), commands)
    decreases |commands|
  {
    if commands != [] {
      var front, last := commands[..|commands| - 1], commands[|commands| - 1];
      RunPaces(u, front);
      var w := Run(Watch(u), front);
      if Lifts(last) && w.user.Held() {
        var i :| 0 <= i < |front| && front[i].Hold? && front[i].now == w.pressed;
        assert commands[i] == front[i];
      }
      StepPaces(w, last);
      StepPresses(w, front, last);
      assert commands == front + [last];
    }
  }

  // ---- Counting seconds ----

  function Max(a: int, b: int): int {
    if a > b then a else b
  }

  function Min(a: int, b: int): int {
    if a < b then a else b
  }

  /** The seconds of `h` inside `[from, to)`. */
  function Overlap(h: Interval, from: int, to: int): int {
    Max(0, Min(h.end, to) - Max(h.start, from))
  }

  function Covered(holds: seq<Interval>, from: int, to: int): int {
    if holds == [] then 0 else Covered(holds[..|holds| - 1], from, to) + Overlap(holds[|holds| - 1], from, to)
  }

  lemma FrontChained(holds: seq<Interval>)
    requires Chained(holds) && holds != []
    ensures Chained(holds[..|holds| - 1])
  {
    var front := holds[..|holds| - 1];
    assert forall i :: 0 <= i < |front| ==> front[i] == holds[i];
  }

  /** Holds that are over by `limit` cover no more of a window than lies before it. */
  lemma {:induction false} CoveredBefore(holds: seq<Interval>, from: int, to: int, limit: int)
    requires Chained(holds) && forall i :: 0 <= i < |holds| ==> holds[i].end <= limit
    ensures 0 <= Covered(holds, from, to) <= Max(0, limit - from)
    decreases |holds|
  {
    if holds != [] {
      var last, front := holds[|holds| - 1], holds[..|holds| - 1];
      FrontChained(holds);
      if Overlap(last, from, to) > 0 {
        EndsBefore(holds);
        CoveredBefore(front, from, to, last.start - HOLD_COOLDOWN_SECS);
      } else {
        CoveredBefore(front, from, to, limit);
      }
    }
  }

  /** Whatever came before a hold that was in force at all was over a cooldown before it. */
  lemma EndsBefore(holds: seq<Interval>)
    requires Chained(holds) && holds != [] && holds[|holds| - 1].start < holds[|holds| - 1].end
    ensures forall i :: 0 <= i < |holds| - 1 ==> holds[i].end <= holds[|holds| - 1].start - HOLD_COOLDOWN_SECS
  {
    var last := holds[|holds| - 1];
    assert Bounded(last) && last.start < I64_MAX;
    forall i | 0 <= i < |holds| - 1 ensures holds[i].end <= last.start - HOLD_COOLDOWN_SECS {
      assert Bounded(holds[i]) && SaturatingAdd(holds[i].end, HOLD_COOLDOWN_SECS) <= last.start;
    }
  }

  lemma {:induction false} ChainedBudget(holds: seq<Interval>, from: int, to: int)
    requires Chained(holds) && to - from <= HOLD_TTL_SECS + HOLD_COOLDOWN_SECS
    ensures Covered(holds, from, to) <= HOLD_TTL_SECS
    decreases |holds|
  {
    if holds != [] {
      var last, front := holds[|holds| - 1], holds[..|holds| - 1];
      FrontChained(holds);
      if Overlap(last, from, to) > 0 {
        EndsBefore(holds);
        CoveredBefore(front, from, to, last.start - HOLD_COOLDOWN_SECS);
        assert last.end <= last.start + HOLD_TTL_SECS;
      } else {
        ChainedBudget(front, from, to);
      }
    }
  }

  /** Every hold lasts at most a day, each starts a cooldown after the last ended, and so any
      window of a day and a cooldown contains at most a day of hold: for every run of presses,
      lifts and sweeps, at any readings up to the end of `i64` and in any order, whose lifts
      lag behind earlier presses by no more than the cooldown. */
  lemma HoldsStayWithinBudget(u: User, commands: seq<Command>, from: int)
    requires u.suspension.None? && Lags(commands, HOLD_COOLDOWN_SECS)
    ensures Chained(Run(Watch(u), commands).Holds()) && WithinDay(u, commands, from)
  {
    RunPaces(u, commands);
    ChainedBudget(Run(Watch(u), commands).Holds(), from, from + HOLD_TTL_SECS + HOLD_COOLDOWN_SECS);
  }

  ghost predicate WithinDay(u: User, commands: seq<Command>, from: int) {
    Covered(Run(Watch(u), commands).Holds(), from, from + HOLD_TTL_SECS + HOLD_COOLDOWN_SECS) <= HOLD_TTL_SECS
  }

  // ---- A lift that lags behind its press by more than the cooldown ----

  lemma PressHolds(w: Watched, now: int)
    requires w.user.suspension.None? && w.user.role == Investor && !Cooling(w.user, now)
    ensures var v := Step(w, Hold(Admin, now, false));
            && v.user.suspension == Some(AdminHold(SaturatingAdd(now, HOLD_TTL_SECS)))
            && v.user.role == Investor && v.user.holdEndedAt == w.user.holdEndedAt
            && v.past == w.past && v.pressed == now
  {
  }

  lemma LiftEnds(w: Watched, now: int)
    requires w.user.Held() && w.user.role == Investor && now <= w.user.suspension.value.expiresAt
    ensures var v := Step(w, Enable(now));
            && v.user.suspension.None? && v.user.role == Investor && v.user.holdEndedAt == Some(now)
            && v.past == w.past + [Interval(w.pressed, now)]
  {
  }

  lemma RunOfOneMore(w: Watched, commands: seq<Command>, c: Command)
    ensures Run(w, commands + [c]) == Step(Run(w, commands), c)
  {
    assert (commands + [c])[..|commands|] == commands;
  }

  /** A press and its lift, over an account nobody holds. */
  lemma HeldOnce(w: Watched, before: seq<Command>, press: int, lift: int)
    requires var v := Run(w, before);
             && v.user.suspension.None? && v.user.role == Investor && !Cooling(v.user, press)
             && lift <= SaturatingAdd(press, HOLD_TTL_SECS)
    ensures var v, x := Run(w, before), Run(w, before + [Hold(Admin, press, false)] + [Enable(lift)]);
            && x.user.suspension.None? && x.user.role == Investor && x.user.holdEndedAt == Some(lift)
            && x.past == v.past + [Interval(press, lift)]
  {
    var held := before + [Hold(Admin, press, false)];
    RunOfOneMore(w, before, Hold(Admin, press, false));
    RunOfOneMore(w, held, Enable(lift));
    PressHolds(Run(w, before), press);
    LiftEnds(Run(w, held), lift);
  }

  /** A day of hold; a second hold lifted by a reading one second before the first ended; and
      a third, which the cooldown lets in one second early. */
  function ThreeHolds(): seq<Command> {
    var again := HOLD_TTL_SECS + HOLD_COOLDOWN_SECS;
    [Hold(Admin, 0, false)] + [Enable(HOLD_TTL_SECS)]
    + [Hold(Admin, again, false)] + [Enable(HOLD_TTL_SECS - 1)]
    + [Hold(Admin, again - 1, false)]
  }

  lemma ThirdHoldOverlaps(u: User)
    requires u.suspension.None? && u.holdEndedAt.None? && u.role == Investor
    ensures Run(Watch(u), ThreeHolds()).Holds()
            == [Interval(0, HOLD_TTL_SECS), Interval(HOLD_TTL_SECS + HOLD_COOLDOWN_SECS, HOLD_TTL_SECS - 1),
                Interval(HOLD_TTL_SECS + HOLD_COOLDOWN_SECS - 1, 2 * HOLD_TTL_SECS + HOLD_COOLDOWN_SECS - 1)]
  {
    var again := HOLD_TTL_SECS + HOLD_COOLDOWN_SECS;
    var one := [] + [Hold(Admin, 0, false)] + [Enable(HOLD_TTL_SECS)];
    HeldOnce(Watch(u), [], 0, HOLD_TTL_SECS);
    var two := one + [Hold(Admin, again, false)] + [Enable(HOLD_TTL_SECS - 1)];
    HeldOnce(Watch(u), one, again, HOLD_TTL_SECS - 1);
    RunOfOneMore(Watch(u), two, Hold(Admin, again - 1, false));
    PressHolds(Run(Watch(u), two), again - 1);
    assert ThreeHolds() == two + [Hold(Admin, again - 1, false)];
  }

  lemma CoveredByThree(a: Interval, b: Interval, c: Interval, from: int, to: int)
    ensures Covered([a, b, c], from, to) == Overlap(a, from, to) + Overlap(b, from, to) + Overlap(c, from, to)
  {
    assert [a, b, c][..2] == [a, b] && [a, b][..1] == [a] && [a][..0] == [];
    assert Covered([a], from, to) == Overlap(a, from, to);
    assert Covered([a, b], from, to) == Covered([a], from, to) + Overlap(b, from, to);
  }

  /** The bound holds of every account, run and window exactly as long as no lift lags behind
      an earlier press by more than the cooldown. */
  lemma WithinDayExactly(skew: nat)
    ensures (forall u: User, commands: seq<Command>, from: int ::
               u.suspension.None? && Lags(commands, skew) ==> WithinDay(u, commands, from))
            <==> skew <= HOLD_COOLDOWN_SECS
  {
    if skew <= HOLD_COOLDOWN_SECS {
      forall u: User, commands: seq<Command>, from: int | u.suspension.None? && Lags(commands, skew)
        ensures WithinDay(u, commands, from)
      {
        HoldsStayWithinBudget(u, commands, from);
      }
    } else {
      var u := Provision(0, true, None);
      assert Lags(ThreeHolds(), skew);
      ThirdHoldOverlaps(u);
      var holds, window := Run(Watch(u), ThreeHolds()).Holds(), HOLD_TTL_SECS + HOLD_COOLDOWN_SECS;
      CoveredByThree(holds[0], holds[1], holds[2], 0, window);
      assert !WithinDay(u, ThreeHolds(), 0);
    }
  }

  /** With a suspension proposal pending the same two presses join: a hold extends for as long
      as the owners are deciding, and only the exclusion of such presses makes the budget. */
  lemma PendingProposalExtends(u: User, first: int, again: int)
    requires u.suspension.None? && u.role == Investor && !Cooling(u, first)
    requires I64_MIN <= first <= again <= SaturatingAdd(first, HOLD_TTL_SECS)
    ensures var held := Next(u, Hold(Admin, first, false));
            && held.suspension == Some(AdminHold(SaturatingAdd(first, HOLD_TTL_SECS)))
            && Apply(held, Hold(Admin, again, false)) == Failure(Forbidden)
            && Next(held, Hold(Admin, again, true)).suspension == Some(AdminHold(SaturatingAdd(again, HOLD_TTL_SECS)))
  {
    var held := SuspendedAs(u, Some(AdminHold(SaturatingAdd(first, HOLD_TTL_SECS))));
    assert Next(u, Hold(Admin, first, false)) == held;
  }
}
