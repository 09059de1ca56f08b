/** Emailed one-time codes: a table of issued codes, throttled per address, at most one live
    per address, purpose and user, each good for ten minutes and five guesses. Digests are
    bound to their row and injective, so a guess matches exactly when it is the code. Rows
    stand in the order their transactions committed; the clock each carries was read before
    it took its locks, so the readings of a run come in any order. */
module Codes {
  import opened Results

  type Email = nat

  const CODE_TTL_SECS: int := 600
  const CODE_MAX_ATTEMPTS: nat := 5
  const CODE_SENDS_PER_WINDOW: nat := 5
  const CODE_SEND_WINDOW_SECS: int := 900

  /** What a code is for: a sign-in, or proving the address of one account. */
  datatype Scope = Login | Verify(user: nat)

  /** One comparison made against a code. */
  datatype Guess = Guess(at: int, matched: bool)

  /** `guesses` is the history `attempts` counts. */
  datatype Row = Row(email: Email, scope: Scope, code: nat, createdAt: int, expiresAt: int,
                     attempts: nat, burned: bool, guesses: seq<Guess>)

  datatype Refusal = Missing | Expired | Exhausted | Wrong

  datatype Outcome = Accepted | Refused(why: Refusal)

  // ---- Issuing ----

  /** Codes of `email` created after `lo` and no later than `hi`. */
  function Issued(rows: seq<Row>, email: Email, lo: int, hi: int): nat {
    if rows == [] then 0
    else
      var last := rows[|rows| - 1];
      Issued(rows[..|rows| - 1], email, lo, hi) + (if last.email == email && lo < last.createdAt <= hi then 1 else 0)
  }

  function Recent(rows: seq<Row>, email: Email, since: int): nat {
    if rows == [] then 0
    else
      var last := rows[|rows| - 1];
      Recent(rows[..|rows| - 1], email, since) + (if last.email == email && last.createdAt > since then 1 else 0)
  }

  predicate Throttled(rows: seq<Row>, email: Email, now: int) {
    Recent(rows, email, now - CODE_SEND_WINDOW_SECS) >= CODE_SENDS_PER_WINDOW
  }

  function BurnPredecessors(rows: seq<Row>, email: Email, scope: Scope): (burnt: seq<Row>)
    ensures |burnt| == |rows|
    ensures forall i :: 0 <= i < |rows| ==>
              burnt[i] == if rows[i].email == email && rows[i].scope == scope then rows[i].(burned := true) else rows[i]
  {
    seq(|rows|, i requires 0 <= i < |rows| =>
      if rows[i].email == email && rows[i].scope == scope then rows[i].(burned := true) else rows[i])
  }

  function AfterIssue(rows: seq<Row>, email: Email, scope: Scope, code: nat, now: int): seq<Row> {
    if Throttled(rows, email, now) then rows
    else BurnPredecessors(rows, email, scope) + [Row(email, scope, code, now, now + CODE_TTL_SECS, 0, false, [])]
  }

  // ---- Redeeming ----

  predicate Matches(row: Row, email: Email, scope: Scope) {
    row.email == email && row.scope == scope
  }

  predicate Live(row: Row, email: Email, scope: Scope) {
    Matches(row, email, scope) && !row.burned
  }

  /** A code of that address, purpose and user with the latest creation. */
  function Newest(rows: seq<Row>, email: Email, scope: Scope): (at: Option<nat>)
    ensures at.None? <==> forall i :: 0 <= i < |rows| ==> !Matches(rows[i], email, scope)
    ensures at.Some? ==>
              && at.value < |rows| && Matches(rows[at.value], email, scope)
              && forall i :: 0 <= i < |rows| && Matches(rows[i], email, scope) ==>
                   rows[i].createdAt <= rows[at.value].createdAt
  {
    if rows == [] then None
    else
      var last, earlier := rows[|rows| - 1], Newest(rows[..|rows| - 1], email, scope);
      if Matches(last, email, scope) && (earlier.None? || rows[earlier.value].createdAt <= last.createdAt)
      then Some(|rows| - 1)
      else earlier
  }

  function LiveOne(rows: seq<Row>, email: Email, scope: Scope): (at: Option<nat>)
    ensures at.None? <==> forall i :: 0 <= i < |rows| ==> !Live(rows[i], email, scope)
    ensures at.Some? ==> at.value < |rows| && Live(rows[at.value], email, scope)
  {
    if rows == [] then None
    else if Live(rows[|rows| - 1], email, scope) then Some(|rows| - 1)
    else LiveOne(rows[..|rows| - 1], email, scope)
  }

  /** The live code if there is one, otherwise the newest. */
  function Picked(rows: seq<Row>, email: Email, scope: Scope): (at: Option<nat>)
    ensures at.Some? ==> at.value < |rows| && Matches(rows[at.value], email, scope)
  {
    var live := LiveOne(rows, email, scope);
    if live.Some? then live else Newest(rows, email, scope)
  }

  /** One comparison, counted before its answer is known, burning the code on a match or on
      the last guess it survives. */
  function Guessed(row: Row, code: nat, now: int): Row {
    var attempts := row.attempts + 1;
    var matched := row.code == code;
    row.(attempts := attempts,
         burned := matched || attempts >= CODE_MAX_ATTEMPTS,
         guesses := row.guesses + [Guess(now, matched)])
  }

  function Redeem(rows: seq<Row>, email: Email, scope: Scope, code: nat, now: int): (seq<Row>, Outcome) {
    match Picked(rows, email, scope)
    case None => (rows, Refused(Missing))
    case Some(i) =>
      var row := rows[i];
      if row.burned then (rows, Refused(if row.attempts >= CODE_MAX_ATTEMPTS then Exhausted else Missing))
      else if row.expiresAt <= now then (rows, Refused(Expired))
      else
        var after := Guessed(row, code, now);
        (rows[i := after],
         if row.code == code then Accepted else if after.burned then Refused(Exhausted) else Refused(Wrong))
  }

  /** The table the handlers work on. */
  class CodeTable {
    var rows: seq<Row>

    method IssueCode(email: Email, scope: Scope, code: nat, now: int) returns (sent: bool)
      modifies this
      ensures sent == !old(Throttled(rows, email, now))
      ensures rows == AfterIssue(old(rows), email, scope, code, now)
    {
      var recent := Recent(rows, email, now - CODE_SEND_WINDOW_SECS);
      if recent >= CODE_SENDS_PER_WINDOW {
        return false;
      }
      rows := BurnPredecessors(rows, email, scope);
      rows := rows + [Row(email, scope, code, now, now + CODE_TTL_SECS, 0, false, [])];
      sent := true;
    }

    method RedeemCode(email: Email, scope: Scope, code: nat, now: int) returns (outcome: Outcome)
      modifies this
      ensures (rows, outcome) == Redeem(old(rows), email, scope, code, now)
    {
      var picked := Picked(rows, email, scope);
      if picked.None? { return Refused(Missing); }
      var i := picked.value;
      var row := rows[i];
      if row.burned { return Refused(if row.attempts >= CODE_MAX_ATTEMPTS then Exhausted else Missing); }
      if row.expiresAt <= now { return Refused(Expired); }
      var attempts := row.attempts + 1;
      var matched := code == row.code;
      var burned := matched || attempts >= CODE_MAX_ATTEMPTS;
      rows := rows[i := row.(attempts := attempts, burned := burned, guesses := row.guesses + [Guess(now, matched)])];
      outcome := if matched then Accepted else if burned then Refused(Exhausted) else Refused(Wrong);
    }
  }

  // ---- Runs ----

  datatype Step =
    | Issues(email: Email, scope: Scope, code: nat, now: int)
    | Redeems(email: Email, scope: Scope, code: nat, now: int)

  function Apply(rows: seq<Row>, s: Step): seq<Row> {
    match s
    case Issues(email, scope, code, now) => AfterIssue(rows, email, scope, code, now)
    case Redeems(email, scope, code, now) => Redeem(rows, email, scope, code, now).0
  }

  function Run(steps: seq<Step>): seq<Row> {
    if steps == [] then [] else Apply(Run(steps[..|steps| - 1]), steps[|steps| - 1])
  }

  /** A code's marks are exactly its history: guesses come before its expiry, at most five, a
      match is the last of them and burns it, and so does the fifth. */
  ghost predicate RowSound(row: Row) {
    && row.expiresAt == row.createdAt + CODE_TTL_SECS
    && row.attempts == |row.guesses| <= CODE_MAX_ATTEMPTS
    && (row.attempts == CODE_MAX_ATTEMPTS ==> row.burned)
    && (forall k :: 0 <= k < |row.guesses| ==> row.guesses[k].at < row.expiresAt)
    && (forall k :: 0 <= k < |row.guesses| && row.guesses[k].matched ==> k == |row.guesses| - 1 && row.burned)
  }

  /** Only the last code of its address, purpose and user may be live. */
  ghost predicate TableSound(rows: seq<Row>) {
    && (forall i :: 0 <= i < |rows| ==> RowSound(rows[i]))
    && (forall i, j :: 0 <= i < j < |rows| && rows[i].email == rows[j].email && rows[i].scope == rows[j].scope ==>
        rows[i].burned)
  }

  /** No window of fifteen minutes has more than five codes sent to one address. */
  predicate WithinRation(rows: seq<Row>, email: Email, lo: int) {
    Issued(rows, email, lo, lo + CODE_SEND_WINDOW_SECS) <= CODE_SENDS_PER_WINDOW
  }

  ghost predicate Rationed(rows: seq<Row>) {
    forall email: Email, lo: int :: WithinRation(rows, email, lo)
  }

  lemma {:induction false} SameIssues(rows: seq<Row>, others: seq<Row>, email: Email, lo: int, hi: int)
    requires |rows| == |others|
    requires forall i :: 0 <= i < |rows| ==>
             rows[i].email == others[i].email && rows[i].createdAt == others[i].createdAt
    ensures Issued(rows, email, lo, hi) == Issued(others, email, lo, hi)
    decreases |rows|
  {
    if rows != [] {
      SameIssues(rows[..|rows| - 1], others[..|rows| - 1], email, lo, hi);
    }
  }

  lemma {:induction false} IssuedWithinRecent(rows: seq<Row>, email: Email, lo: int, hi: int, since: int)
    requires since <= lo
    ensures Issued(rows, email, lo, hi) <= Recent(rows, email, since)
    decreases |rows|
  {
    if rows != [] {
      IssuedWithinRecent(rows[..|rows| - 1], email, lo, hi, since);
    }
  }

  lemma IssueKeeps(rows: seq<Row>, email: Email, scope: Scope, code: nat, now: int)
    requires TableSound(rows)
    ensures TableSound(AfterIssue(rows, email, scope, code, now))
  {
    if !Throttled(rows, email, now) {
      BurningKeeps(rows, email, scope);
    }
  }

  lemma BurningKeeps(rows: seq<Row>, email: Email, scope: Scope)
    requires TableSound(rows)
    ensures TableSound(BurnPredecessors(rows, email, scope))
  {
    var burnt := BurnPredecessors(rows, email, scope);
    forall i | 0 <= i < |rows| ensures RowSound(burnt[i]) {
      assert RowSound(rows[i]);
    }
  }

  lemma IssueRations(rows: seq<Row>, email: Email, scope: Scope, code: nat, now: int)
    requires Rationed(rows)
    ensures Rationed(AfterIssue(rows, email, scope, code, now))
  {
    if !Throttled(rows, email, now) {
      forall other: Email, lo: int ensures WithinRation(AfterIssue(rows, email, scope, code, now), other, lo) {
        IssueRationsWindow(rows, email, scope, code, now, other, lo);
      }
    }
  }

  lemma IssueRationsWindow(rows: seq<Row>, email: Email, scope: Scope, code: nat, now: int, other: Email, lo: int)
    requires WithinRation(rows, other, lo) && !Throttled(rows, email, now)
    ensures WithinRation(AfterIssue(rows, email, scope, code, now), other, lo)
  {
    var hi := lo + CODE_SEND_WINDOW_SECS;
    var row := Row(email, scope, code, now, now + CODE_TTL_SECS, 0, false, []);
    BurningIssuesNothing(rows, email, scope, other, lo, hi);
    IssuedAppend(BurnPredecessors(rows, email, scope), row, other, lo, hi);
    if other == email && lo < now <= hi {
      IssuedWithinRecent(rows, email, lo, hi, now - CODE_SEND_WINDOW_SECS);
    }
  }

  lemma BurningIssuesNothing(rows: seq<Row>, email: Email, scope: Scope, other: Email, lo: int, hi: int)
    ensures Issued(BurnPredecessors(rows, email, scope), other, lo, hi) == Issued(rows, other, lo, hi)
  {
    SameIssues(rows, BurnPredecessors(rows, email, scope), other, lo, hi);
  }

  lemma IssuedAppend(rows: seq<Row>, row: Row, email: Email, lo: int, hi: int)
    ensures Issued(rows + [row], email, lo, hi)
            == Issued(rows, email, lo, hi) + (if row.email == email && lo < row.createdAt <= hi then 1 else 0)
  {
    assert (rows + [row])[..|rows|] == rows;
  }

  lemma RedeemKeeps(rows: seq<Row>, email: Email, scope: Scope, code: nat, now: int)
    requires TableSound(rows)
    ensures TableSound(Redeem(rows, email, scope, code, now).0)
  {
    var picked := Picked(rows, email, scope);
    if picked.Some? && !rows[picked.value].burned && now < rows[picked.value].expiresAt {
      assert RowSound(rows[picked.value]);
      assert RowSound(Guessed(rows[picked.value], code, now));
    }
  }

  lemma RedeemRations(rows: seq<Row>, email: Email, scope: Scope, code: nat, now: int)
    requires Rationed(rows)
    ensures Rationed(Redeem(rows, email, scope, code, now).0)
  {
    var after := Redeem(rows, email, scope, code, now).0;
    forall other: Email, lo: int ensures WithinRation(after, other, lo) {
      assert WithinRation(rows, other, lo);
      SameIssues(rows, after, other, lo, lo + CODE_SEND_WINDOW_SECS);
    }
  }

  lemma {:induction false} RunKeeps(steps: seq<Step>)
    ensures TableSound(Run(steps)) && Rationed(Run(steps))
    decreases |steps|
  {
    if steps != [] {
      var n := |steps| - 1;
      RunKeeps(steps[..n]);
      var rows := Run(steps[..n]);
      match steps[n] {
        case Issues(email, scope, code, now) =>
          IssueKeeps(rows, email, scope, code, now);
          IssueRations(rows, email, scope, code, now);
        case Redeems(email, scope, code, now) =>
          RedeemKeeps(rows, email, scope, code, now);
          RedeemRations(rows, email, scope, code, now);
      }
    }
  }

  // ---- What a guesser gets ----

  function GuessesIn(guesses: seq<Guess>, start: int, end: int): (n: nat)
    ensures n <= |guesses|
  {
    if guesses == [] then 0
    else GuessesIn(guesses[..|guesses| - 1], start, end) + (if start <= guesses[|guesses| - 1].at < end then 1 else 0)
  }

  /** Comparisons made against codes of `email` within `[start, end)`. */
  function Comparisons(rows: seq<Row>, email: Email, start: int, end: int): nat {
    if rows == [] then 0
    else
      var last := rows[|rows| - 1];
      Comparisons(rows[..|rows| - 1], email, start, end)
        + (if last.email == email then GuessesIn(last.guesses, start, end) else 0)
  }

  lemma {:induction false} NoGuesses(guesses: seq<Guess>, start: int, end: int)
    requires forall k :: 0 <= k < |guesses| ==> guesses[k].at < start || guesses[k].at >= end
    ensures GuessesIn(guesses, start, end) == 0
    decreases |guesses|
  {
    if guesses != [] {
      NoGuesses(guesses[..|guesses| - 1], start, end);
    }
  }

  lemma {:induction false} IssuedSplits(rows: seq<Row>, email: Email, lo: int, mid: int, hi: int)
    requires lo <= mid <= hi
    ensures Issued(rows, email, lo, hi) == Issued(rows, email, lo, mid) + Issued(rows, email, mid, hi)
    decreases |rows|
  {
    if rows != [] {
      IssuedSplits(rows[..|rows| - 1], email, lo, mid, hi);
    }
  }

  lemma {:induction false} IssuedInWindows(rows: seq<Row>, email: Email, lo: int, hi: int, windows: nat)
    requires Rationed(rows) && lo <= hi <= lo + windows * CODE_SEND_WINDOW_SECS
    ensures Issued(rows, email, lo, hi) <= windows * CODE_SENDS_PER_WINDOW
    decreases windows
  {
    if windows == 0 {
      NoneIssued(rows, email, lo, hi);
    } else {
      var next := lo + CODE_SEND_WINDOW_SECS;
      assert WithinRation(rows, email, lo);
      if hi <= next {
        IssuedSplits(rows, email, lo, hi, next);
      } else {
        IssuedSplits(rows, email, lo, next, hi);
        IssuedInWindows(rows, email, next, hi, windows - 1);
      }
    }
  }

  lemma {:induction false} NoneIssued(rows: seq<Row>, email: Email, lo: int, hi: int)
    requires hi <= lo
    ensures Issued(rows, email, lo, hi) == 0
    decreases |rows|
  {
    if rows != [] {
      NoneIssued(rows[..|rows| - 1], email, lo, hi);
    }
  }

  /** Over any run, in whatever order its readings come: at most five codes carry creations
      within one fifteen minutes of an address, at most one is live per address, purpose and
      user, and each is compared at most five times, before its expiry, and matched at most
      once. */
  lemma GuessBudget(steps: seq<Step>, email: Email, start: int)
    ensures var rows := Run(steps);
            && Issued(rows, email, start, start + CODE_SEND_WINDOW_SECS) <= CODE_SENDS_PER_WINDOW
            && (forall i :: 0 <= i < |rows| ==> RowSound(rows[i]))
            && (forall i, j ::
                  0 <= i < j < |rows| && rows[i].email == rows[j].email && rows[i].scope == rows[j].scope ==>
                    rows[i].burned)
  {
    RunKeeps(steps);
    assert WithinRation(Run(steps), email, start);
  }

  // ---- How many comparisons fifteen minutes allow ----

  predicate ForSame(s: Step, t: Step) {
    s.email == t.email && s.scope == t.scope
  }

  /** No redemption reads a clock more than `skew` seconds behind an earlier issue of its
      address, purpose and user. */
  ghost predicate Lags(steps: seq<Step>, skew: nat) {
    forall i, j :: 0 <= i < j < |steps| && steps[i].Issues? && steps[j].Redeems? && ForSame(steps[i], steps[j]) ==>
      steps[i].now <= steps[j].now + skew
  }

  ghost predicate Issuer(s: Step, row: Row) {
    s.Issues? && s.email == row.email && s.scope == row.scope && s.now == row.createdAt
  }

  ghost predicate HasIssuer(steps: seq<Step>, row: Row) {
    exists j :: 0 <= j < |steps| && Issuer(steps[j], row)
  }

  /** Each row was issued by a step, and each guess at it lags behind it by `skew` at most. */
  ghost predicate Timely(steps: seq<Step>, rows: seq<Row>, skew: nat) {
    && (forall i :: 0 <= i < |rows| ==> HasIssuer(steps, rows[i]))
    && (forall i, k :: 0 <= i < |rows| && 0 <= k < |rows[i].guesses| ==>
          rows[i].createdAt <= rows[i].guesses[k].at + skew)
  }

  lemma IssuerLasts(steps: seq<Step>, s: Step, row: Row)
    requires HasIssuer(steps, row)
    ensures HasIssuer(steps + [s], row)
  {
    var j :| 0 <= j < |steps| && Issuer(steps[j], row);
    assert Issuer((steps + [s])[j], row);
  }

  lemma IssueIsTimely(steps: seq<Step>, rows: seq<Row>, s: Step, skew: nat)
    requires Timely(steps, rows, skew) && s.Issues?
    ensures Timely(steps + [s], Apply(rows, s), skew)
  {
    var after := Apply(rows, s);
    forall i | 0 <= i < |after| ensures HasIssuer(steps + [s], after[i]) {
      if i < |rows| {
        IssuerLasts(steps, s, rows[i]);
        assert after[i] == rows[i] || after[i] == rows[i].(burned := true);
      } else {
        assert Issuer((steps + [s])[|steps|], after[i]);
      }
    }
  }

  lemma RedeemIsTimely(steps: seq<Step>, rows: seq<Row>, s: Step, skew: nat)
    requires Timely(steps, rows, skew) && s.Redeems? && Lags(steps + [s], skew)
    ensures Timely(steps + [s], Apply(rows, s), skew)
  {
    var all, after := steps + [s], Apply(rows, s);
    forall i | 0 <= i < |rows| ensures HasIssuer(all, rows[i]) {
      IssuerLasts(steps, s, rows[i]);
    }
    var picked := Picked(rows, s.email, s.scope);
    if picked.Some? && after != rows {
      var row := rows[picked.value];
      assert after == rows[picked.value := Guessed(row, s.code, s.now)];
      assert HasIssuer(steps, row);
      var born :| 0 <= born < |steps| && Issuer(steps[born], row);
      assert all[born] == steps[born] && all[|steps|] == s && ForSame(all[born], s);
      assert HasIssuer(all, after[picked.value]) by {
        assert Issuer(all[born], after[picked.value]);
      }
    }
  }

  lemma {:induction false} RunIsTimely(steps: seq<Step>, skew: nat)
    requires Lags(steps, skew)
    ensures Timely(steps, Run(steps), skew)
    decreases |steps|
  {
    if steps != [] {
      var n := |steps| - 1;
      assert steps == steps[..n] + [steps[n]];
      assert Lags(steps[..n], skew);
      RunIsTimely(steps[..n], skew);
      if steps[n].Issues? {
        IssueIsTimely(steps[..n], Run(steps[..n]), steps[n], skew);
      } else {
        RedeemIsTimely(steps[..n], Run(steps[..n]), steps[n], skew);
      }
    }
  }

  /** Only codes created less than a lifetime before the interval, and no later after its end
      than guesses lag, are compared in it. */
  lemma {:induction false} ComparisonsByCodes(rows: seq<Row>, email: Email, start: int, end: int, skew: nat)
    requires forall i :: 0 <= i < |rows| ==> RowSound(rows[i])
    requires forall i, k :: 0 <= i < |rows| && 0 <= k < |rows[i].guesses| ==>
               rows[i].createdAt <= rows[i].guesses[k].at + skew
    ensures Comparisons(rows, email, start, end)
            <= CODE_MAX_ATTEMPTS * Issued(rows, email, start - CODE_TTL_SECS, end - 1 + skew)
    decreases |rows|
  {
    if rows != [] {
      var last := rows[|rows| - 1];
      ComparisonsByCodes(rows[..|rows| - 1], email, start, end, skew);
      assert RowSound(last);
      if last.email == email && !(start - CODE_TTL_SECS < last.createdAt <= end - 1 + skew) {
        NoGuesses(last.guesses, start, end);
      }
    }
  }

  /** Fifteen minutes allow twenty-five comparisons against an address for each window it
      takes to cover them, a code's lifetime before them and the lag of the guesses. */
  lemma ComparisonBudget(steps: seq<Step>, email: Email, start: int, skew: nat, windows: nat)
    requires Lags(steps, skew)
    requires CODE_TTL_SECS + CODE_SEND_WINDOW_SECS - 1 + skew <= windows * CODE_SEND_WINDOW_SECS
    ensures Comparisons(Run(steps), email, start, start + CODE_SEND_WINDOW_SECS)
            <= windows * CODE_SENDS_PER_WINDOW * CODE_MAX_ATTEMPTS
  {
    RunKeeps(steps);
    RunIsTimely(steps, skew);
    var lo, end := start - CODE_TTL_SECS, start + CODE_SEND_WINDOW_SECS;
    ComparisonsByCodes(Run(steps), email, start, end, skew);
    IssuedInWindows(Run(steps), email, lo, end - 1 + skew, windows);
  }

  /** The most a guess may lag for two windows to cover what fifteen minutes compare. */
  const SAFE_LAG: int := CODE_SEND_WINDOW_SECS - CODE_TTL_SECS + 1

  // ---- Eleven codes compared in fifteen minutes ----

  /** When the k-th code of the run is created, and when its five guesses read the clock: five
      codes just short of their expiry, five a window later, and one another window later,
      guessed 302 seconds behind. */
  function CreatedAt(k: nat): int {
    if k < 5 then 1 - CODE_TTL_SECS
    else if k < 10 then 1 - CODE_TTL_SECS + CODE_SEND_WINDOW_SECS
    else 1 - CODE_TTL_SECS + 2 * CODE_SEND_WINDOW_SECS
  }

  function GuessedAt(k: nat): int {
    if k < 5 then 0 else if k < 10 then CreatedAt(k) else CODE_SEND_WINDOW_SECS - 1
  }

  function WrongGuesses(k: nat, n: nat): seq<Step> {
    if n == 0 then [] else WrongGuesses(k, n - 1) + [Redeems(0, Login, 1, GuessedAt(k))]
  }

  /** One code of the first address, and as many wrong guesses at it. */
  function Round(k: nat, guesses: nat): seq<Step> {
    [Issues(0, Login, 0, CreatedAt(k))] + WrongGuesses(k, guesses)
  }

  function Rounds(n: nat, guesses: nat): seq<Step> {
    if n == 0 then [] else Rounds(n - 1, guesses) + Round(n - 1, guesses)
  }

  function WrongRow(k: nat, guesses: nat): Row {
    Row(0, Login, 0, CreatedAt(k), CreatedAt(k) + CODE_TTL_SECS, guesses, guesses >= CODE_MAX_ATTEMPTS,
        seq(guesses, _ => Guess(GuessedAt(k), false)))
  }

  function SpentRows(n: nat, guesses: nat): seq<Row> {
    if n == 0 then [] else SpentRows(n - 1, guesses) + [WrongRow(n - 1, guesses)]
  }

  lemma RunOfOneMore(steps: seq<Step>, s: Step)
    ensures Run(steps + [s]) == Apply(Run(steps), s)
  {
    assert (steps + [s])[..|steps|] == steps;
  }

  lemma WrongGuess(rows: seq<Row>, k: nat, guesses: nat)
    requires guesses < 5
    ensures Apply(rows + [WrongRow(k, guesses)], Redeems(0, Login, 1, GuessedAt(k)))
            == rows + [WrongRow(k, guesses + 1)]
  {
    var row := WrongRow(k, guesses);
    assert (rows + [row])[|rows|] == row && Live(row, 0, Login);
    assert Picked(rows + [row], 0, Login) == Some(|rows|);
    assert Guessed(row, 1, GuessedAt(k)) == WrongRow(k, guesses + 1);
  }

  lemma {:induction false} WrongGuessesSpend(steps: seq<Step>, rows: seq<Row>, k: nat, n: nat)
    requires n <= 5 && Run(steps) == rows + [WrongRow(k, 0)]
    ensures Run(steps + WrongGuesses(k, n)) == rows + [WrongRow(k, n)]
  {
    if n == 0 {
      assert steps + [] == steps;
    } else {
      var done, wrong := steps + WrongGuesses(k, n - 1), Redeems(0, Login, 1, GuessedAt(k));
      WrongGuessesSpend(steps, rows, k, n - 1);
      WrongGuess(rows, k, n - 1);
      RunOfOneMore(done, wrong);
      assert steps + WrongGuesses(k, n) == done + [wrong];
    }
  }

  lemma CodeEnters(rows: seq<Row>, k: nat)
    requires !Throttled(rows, 0, CreatedAt(k))
    requires forall i :: 0 <= i < |rows| ==> rows[i].burned
    ensures Apply(rows, Issues(0, Login, 0, CreatedAt(k))) == rows + [WrongRow(k, 0)]
  {
    assert BurnPredecessors(rows, 0, Login) == rows;
    assert WrongRow(k, 0).guesses == [];
  }

  lemma RoundIs(steps: seq<Step>, k: nat, guesses: nat)
    ensures steps + Round(k, guesses) == (steps + [Issues(0, Login, 0, CreatedAt(k))]) + WrongGuesses(k, guesses)
  {
  }

  lemma RoundSpends(steps: seq<Step>, rows: seq<Row>, k: nat, guesses: nat)
    requires Run(steps) == rows && guesses <= CODE_MAX_ATTEMPTS
    requires Apply(rows, Issues(0, Login, 0, CreatedAt(k))) == rows + [WrongRow(k, 0)]
    ensures Run(steps + Round(k, guesses)) == rows + [WrongRow(k, guesses)]
  {
    var issue := Issues(0, Login, 0, CreatedAt(k));
    RunOfOneMore(steps, issue);
    WrongGuessesSpend(steps + [issue], rows, k, guesses);
    RoundIs(steps, k, guesses);
  }

  /** How many of the first `m` codes count against the throttle when the n-th is issued. */
  function Counting(m: nat, n: nat): int {
    if n < 5 then m else if n < 10 && m >= 5 then m - 5 else 0
  }

  lemma RecentAppend(rows: seq<Row>, row: Row, email: Email, since: int)
    ensures Recent(rows + [row], email, since)
            == Recent(rows, email, since) + (if row.email == email && row.createdAt > since then 1 else 0)
  {
    assert (rows + [row])[..|rows|] == rows;
  }

  lemma CountingStep(m: nat, n: nat)
    requires m < n <= 10
    ensures Counting(m + 1, n)
            == Counting(m, n) + if CreatedAt(m) > CreatedAt(n) - CODE_SEND_WINDOW_SECS then 1 else 0
  {
  }

  lemma {:induction false} RecentOfSpent(m: nat, n: nat, guesses: nat)
    requires m <= n <= 10
    ensures Recent(SpentRows(m, guesses), 0, CreatedAt(n) - CODE_SEND_WINDOW_SECS) == Counting(m, n)
    decreases m
  {
    if m > 0 {
      RecentOfSpent(m - 1, n, guesses);
      RecentAppend(SpentRows(m - 1, guesses), WrongRow(m - 1, guesses), 0, CreatedAt(n) - CODE_SEND_WINDOW_SECS);
      CountingStep(m - 1, n);
    }
  }

  lemma {:induction false} SpentAreBurned(n: nat, guesses: nat)
    requires guesses >= CODE_MAX_ATTEMPTS
    ensures forall i :: 0 <= i < |SpentRows(n, guesses)| ==> SpentRows(n, guesses)[i].burned
  {
    if n > 0 {
      SpentAreBurned(n - 1, guesses);
    }
  }

  lemma NextEnters(n: nat, guesses: nat)
    requires n <= 10 && guesses >= CODE_MAX_ATTEMPTS
    ensures Apply(SpentRows(n, guesses), Issues(0, Login, 0, CreatedAt(n)))
            == SpentRows(n, guesses) + [WrongRow(n, 0)]
  {
    SpentAreBurned(n, guesses);
    RecentOfSpent(n, n, guesses);
    CodeEnters(SpentRows(n, guesses), n);
  }

  lemma {:induction false} RoundsSpend(n: nat, guesses: nat)
    requires n <= 11 && guesses == CODE_MAX_ATTEMPTS
    ensures Run(Rounds(n, guesses)) == SpentRows(n, guesses)
  {
    if n > 0 {
      RoundsSpend(n - 1, guesses);
      NextEnters(n - 1, guesses);
      RoundSpends(Rounds(n - 1, guesses), SpentRows(n - 1, guesses), n - 1, guesses);
    }
  }

  lemma {:induction false} AllGuesses(guesses: seq<Guess>, start: int, end: int)
    requires forall k :: 0 <= k < |guesses| ==> start <= guesses[k].at < end
    ensures GuessesIn(guesses, start, end) == |guesses|
    decreases |guesses|
  {
    if guesses != [] {
      AllGuesses(guesses[..|guesses| - 1], start, end);
    }
  }

  lemma ComparisonsAppend(rows: seq<Row>, row: Row, email: Email, start: int, end: int)
    ensures Comparisons(rows + [row], email, start, end)
            == Comparisons(rows, email, start, end)
               + (if row.email == email then GuessesIn(row.guesses, start, end) else 0)
  {
    assert (rows + [row])[..|rows|] == rows;
  }

  lemma RowCompared(k: nat, guesses: nat)
    ensures GuessesIn(WrongRow(k, guesses).guesses, 0, CODE_SEND_WINDOW_SECS) == guesses
  {
    AllGuesses(WrongRow(k, guesses).guesses, 0, CODE_SEND_WINDOW_SECS);
  }

  lemma {:induction false} SpentCompared(n: nat, guesses: nat)
    requires guesses == CODE_MAX_ATTEMPTS
    ensures Comparisons(SpentRows(n, guesses), 0, 0, CODE_SEND_WINDOW_SECS) == CODE_MAX_ATTEMPTS * n
  {
    if n > 0 {
      SpentCompared(n - 1, guesses);
      RowCompared(n - 1, guesses);
      ComparisonsAppend(SpentRows(n - 1, guesses), WrongRow(n - 1, guesses), 0, 0, CODE_SEND_WINDOW_SECS);
    }
  }

  lemma {:induction false} WrongGuessesAre(k: nat, n: nat)
    ensures forall i :: 0 <= i < |WrongGuesses(k, n)| ==> WrongGuesses(k, n)[i] == Redeems(0, Login, 1, GuessedAt(k))
  {
    if n > 0 {
      WrongGuessesAre(k, n - 1);
    }
  }

  ghost predicate IssuedBy(steps: seq<Step>, latest: int) {
    forall i :: 0 <= i < |steps| && steps[i].Issues? ==> steps[i].now <= latest
  }

  lemma GuessesLag(steps: seq<Step>, k: nat, guesses: nat, skew: nat)
    requires Lags(steps, skew) && IssuedBy(steps, CreatedAt(k)) && CreatedAt(k) <= GuessedAt(k) + skew
    ensures Lags(steps + Round(k, guesses), skew) && IssuedBy(steps + Round(k, guesses), CreatedAt(k))
  {
    WrongGuessesAre(k, guesses);
    var round := Round(k, guesses);
    var all := steps + round;
    assert forall i :: 0 <= i < |steps| ==> all[i] == steps[i];
    assert forall i :: |steps| <= i < |all| ==> all[i] == round[i - |steps|];
    assert forall i :: 0 < i < |round| ==> round[i] == Redeems(0, Login, 1, GuessedAt(k));
  }

  lemma {:induction false} RoundsLag(n: nat, guesses: nat, skew: nat)
    requires skew > SAFE_LAG
    ensures Lags(Rounds(n, guesses), skew) && IssuedBy(Rounds(n, guesses), CreatedAt(n))
  {
    if n > 0 {
      RoundsLag(n - 1, guesses, skew);
      GuessesLag(Rounds(n - 1, guesses), n - 1, guesses, skew);
    }
  }

  /** So a lag of one second more lets an eleventh code in: fifty-five comparisons. */
  lemma EleventhCode(skew: nat) returns (steps: seq<Step>)
    requires skew > SAFE_LAG
    ensures Lags(steps, skew) && Comparisons(Run(steps), 0, 0, CODE_SEND_WINDOW_SECS) == 55
  {
    var n: nat :| n == 11;
    var guesses: nat :| guesses == CODE_MAX_ATTEMPTS;
    RoundsLag(n, guesses, skew);
    RoundsSpend(n, guesses);
    SpentCompared(n, guesses);
    steps := Rounds(n, guesses);
  }

  ghost predicate WithinFifty(steps: seq<Step>, email: Email, start: int) {
    Comparisons(Run(steps), email, start, start + CODE_SEND_WINDOW_SECS)
    <= 2 * CODE_SENDS_PER_WINDOW * CODE_MAX_ATTEMPTS
  }

  /** Fifty comparisons bound every fifteen minutes of every address exactly as long as no
      redemption lags behind its code's issue by more than 301 seconds; in particular on a
      clock that does not go back. */
  lemma FiftyExactly(skew: nat)
    ensures (forall steps: seq<Step>, email: Email, start: int ::
               Lags(steps, skew) ==> WithinFifty(steps, email, start))
            <==> skew <= SAFE_LAG
  {
    if skew <= SAFE_LAG {
      forall steps: seq<Step>, email: Email, start: int | Lags(steps, skew) ensures WithinFifty(steps, email, start) {
        ComparisonBudget(steps, email, start, skew, 2);
      }
    } else {
      var steps := EleventhCode(skew);
      assert !WithinFifty(steps, 0, 0);
    }
  }

  // ---- What is accepted ----

  /** When a presentation is accepted, exactly: the last code issued for that address, purpose
      and user is the one presented, and it is neither spent nor expired. */
  lemma AcceptsExactly(rows: seq<Row>, email: Email, scope: Scope, code: nat, now: int)
    requires TableSound(rows)
    ensures Redeem(rows, email, scope, code, now).1 == Accepted <==>
              exists i :: 0 <= i < |rows| && IsLast(rows, i, email, scope)
                          && rows[i].code == code && !rows[i].burned && now < rows[i].expiresAt
  {
    var live, newest := LiveOne(rows, email, scope), Newest(rows, email, scope);
    if live.Some? {
      assert IsLast(rows, live.value, email, scope);
    } else if newest.Some? {
      assert !Live(rows[newest.value], email, scope);
    }
  }

  ghost predicate IsLast(rows: seq<Row>, i: nat, email: Email, scope: Scope)
    requires i < |rows|
  {
    Matches(rows[i], email, scope) && forall j :: i < j < |rows| ==> !Matches(rows[j], email, scope)
  }

  // ---- What each request does ----

  /** The codes of `email` created in the fifteen minutes before `now`, or since. */
  function RecentOnes(rows: seq<Row>, email: Email, now: int): set<nat> {
    set i: nat | i < |rows| && rows[i].email == email && rows[i].createdAt > now - 900
  }

  lemma {:induction false} RecentCounts(rows: seq<Row>, email: Email, now: int)
    ensures Recent(rows, email, now - 900) == |RecentOnes(rows, email, now)|
    decreases |rows|
  {
    if rows == [] {
      assert RecentOnes(rows, email, now) == {};
    } else {
      var n := |rows| - 1;
      RecentCounts(rows[..n], email, now);
      var front := RecentOnes(rows[..n], email, now);
      assert n !in front;
      assert RecentOnes(rows, email, now) == front + if n in RecentOnes(rows, email, now) then {n} else {};
    }
  }

  /** A code is sent exactly when fewer than five were, and is then a new row, live for ten
      minutes; whatever was live of its scope is spent, and nothing else has moved. */
  lemma IssueDoes(rows: seq<Row>, email: Email, scope: Scope, code: nat, now: int)
    ensures var after := AfterIssue(rows, email, scope, code, now);
            if |RecentOnes(rows, email, now)| >= 5 then after == rows
            else
              && |after| == |rows| + 1
              && after[|rows|] == Row(email, scope, code, now, now + 600, 0, false, [])
              && (forall i :: 0 <= i < |rows| ==>
                    after[i]
                    == rows[i].(burned := rows[i].burned || (rows[i].email == email && rows[i].scope == scope)))
  {
    RecentCounts(rows, email, now);
  }

  /** The row a guess is compared with, and what is left of it: one more attempt, spent by a
      match or by the fifth. */
  ghost predicate Compared(rows: seq<Row>, after: seq<Row>, i: nat, code: nat, now: int)
    requires i < |rows|
  {
    && |after| == |rows| && (forall j :: 0 <= j < |rows| && j != i ==> after[j] == rows[j])
    && after[i] == rows[i].(attempts := rows[i].attempts + 1,
                            burned := rows[i].code == code || rows[i].attempts + 1 >= 5,
                            guesses := rows[i].guesses + [Guess(now, rows[i].code == code)])
  }

  /** Against a live code in time the guess is compared and counted, whatever it says; it is
      accepted when it matches, and told it was the last when it was. */
  lemma LiveRedeemDoes(rows: seq<Row>, email: Email, scope: Scope, code: nat, now: int, i: nat)
    requires TableSound(rows) && i < |rows| && Live(rows[i], email, scope)
    ensures var (after, o) := Redeem(rows, email, scope, code, now);
            if rows[i].expiresAt <= now then after == rows && o == Refused(Expired)
            else
              && Compared(rows, after, i, code, now)
              && o == (if rows[i].code == code then Accepted
                       else if rows[i].attempts + 1 >= 5 then Refused(Exhausted) else Refused(Wrong))
  {
    var live := LiveOne(rows, email, scope);
    assert live.Some? && Live(rows[live.value], email, scope);
    assert live.value == i;
  }

  /** Against a spent one nothing is compared: a code of the latest creation says whether its
      guesses ran out. */
  lemma SpentRedeemDoes(rows: seq<Row>, email: Email, scope: Scope, code: nat, now: int)
    requires forall i :: 0 <= i < |rows| ==> !Live(rows[i], email, scope)
    ensures var (after, o) := Redeem(rows, email, scope, code, now);
            && after == rows
            && ((forall i :: 0 <= i < |rows| ==> !Matches(rows[i], email, scope)) ==> o == Refused(Missing))
            && (o == Refused(Missing) || o == Refused(Exhausted))
            && (o == Refused(Exhausted) ==>
                  exists i :: 0 <= i < |rows| && Matches(rows[i], email, scope) && rows[i].attempts >= 5)
            && ((exists i :: 0 <= i < |rows| && Matches(rows[i], email, scope))
                && (forall i :: 0 <= i < |rows| && Matches(rows[i], email, scope) ==> rows[i].attempts >= 5) ==>
                  o == Refused(Exhausted))
  {
    assert LiveOne(rows, email, scope).None?;
  }

  /** So the code that was sent is the code that opens, once, for as long as it lives and its
      guesses last. */
  lemma SentCodeOpens(rows: seq<Row>, email: Email, scope: Scope, code: nat, now: int, later: int, again: nat, at: int)
    requires TableSound(rows) && |RecentOnes(rows, email, now)| < 5 && later < now + 600
    ensures var sent := AfterIssue(rows, email, scope, code, now);
            var (after, o) := Redeem(sent, email, scope, code, later);
            && o == Accepted
            && Redeem(after, email, scope, again, at).1.Refused?
  {
    IssueDoes(rows, email, scope, code, now);
    IssueKeeps(rows, email, scope, code, now);
    var sent := AfterIssue(rows, email, scope, code, now);
    LiveRedeemDoes(sent, email, scope, code, later, |rows|);
    var after := Redeem(sent, email, scope, code, later).0;
    forall i | 0 <= i < |after| ensures !Live(after[i], email, scope) {
    }
    SpentRedeemDoes(after, email, scope, again, at);
  }

  // ---- Drawing six digits ----

  const SPAN: nat := 1_000_000
  const U32_MAX: nat := 0xFFFF_FFFF
  const LIMIT: nat := U32_MAX - U32_MAX % SPAN

  /** The first draw below the limit, reduced; none when every draw was rejected. */
  method SixDigits(draws: seq<nat>) returns (code: Option<nat>)
    requires forall i :: 0 <= i < |draws| ==> draws[i] <= U32_MAX
    ensures code.None? <==> forall i :: 0 <= i < |draws| ==> draws[i] >= LIMIT
    ensures code.Some? ==> code.value < SPAN
    ensures code.Some? ==> exists i :: 0 <= i < |draws| && draws[i] < LIMIT && code.value == draws[i] % SPAN
                                       && forall k :: 0 <= k < i ==> draws[k] >= LIMIT
  {
    for i := 0 to |draws|
      invariant forall k :: 0 <= k < i ==> draws[k] >= LIMIT
    {
      if draws[i] < LIMIT {
        return Some(draws[i] % SPAN);
      }
    }
    code := None;
  }

  /** The accepted draws that give `code`, among the first `blocks` stretches of a million. */
  function Draws(code: nat, blocks: nat): set<nat> {
    set n: nat | 0 <= n < blocks * SPAN && n % SPAN == code
  }

  lemma {:induction false} DrawsPerBlock(code: nat, blocks: nat)
    requires code < SPAN
    ensures |Draws(code, blocks)| == blocks
    decreases blocks
  {
    if blocks == 0 {
      assert Draws(code, 0) == {};
    } else {
      DrawsPerBlock(code, blocks - 1);
      var n := (blocks - 1) * SPAN + code;
      assert Draws(code, blocks) == Draws(code, blocks - 1) + {n};
    }
  }

  /** No code is likelier than another: each is given by exactly 4294 accepted draws. */
  lemma NoCodeIsLikelier(code: nat)
    requires code < SPAN
    ensures LIMIT == 4294 * SPAN
    ensures |(set n: nat | 0 <= n < LIMIT && n % SPAN == code)| == 4294
  {
    DrawsPerBlock(code, 4294);
    assert Draws(code, 4294) == (set n: nat | 0 <= n < LIMIT && n % SPAN == code);
  }
}
