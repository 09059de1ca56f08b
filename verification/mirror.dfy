/** The outbox and the bridge. Every transaction that changes an account appends a row per
    event, stamped with the row counter it was emitted at and a snapshot taken when the events
    are drained; a remote reader pages the rows and keeps its own picture of each account,
    applying a row only if its sequence exceeds the last it stored. */
module Mirror {
  import opened Results
  import opened Users

  type UserId = nat

  const MAX_LIMIT: int := 500

  datatype Snapshot = Snapshot(email: nat, emailVerified: bool, kycLevel: nat, tokenVersion: nat, role: Role)

  datatype Row = Row(position: nat, user: UserId, kind: Event, sequence: int, snapshot: Snapshot)

  /** What the reader keeps of one account. */
  datatype Seen = Seen(sequence: int, frozen: bool, snapshot: Snapshot)

  type Picture = map<UserId, Seen>

  function SnapshotOf(u: User): Snapshot {
    Snapshot(u.email, u.emailVerified, u.kycLevel, u.tokenVersion, u.role)
  }

  /** Everything of a snapshot but the address, which may change without an event. */
  predicate SameStanding(s: Snapshot, t: Snapshot) {
    s.kycLevel == t.kycLevel && s.tokenVersion == t.tokenVersion && s.role == t.role
  }

  // ---- Writing ----

  /** The drained events of one transaction: the i-th of n was emitted n - 1 - i bumps before
      the counter's final value. */
  function Drained(id: UserId, u: User, first: nat): seq<Row> {
    seq(|u.pending|, i requires 0 <= i < |u.pending| =>
      Row(first + i, id, u.pending[i], u.rowVersion - (|u.pending| - 1 - i), SnapshotOf(u)))
  }

  /** A transaction's commands in order; the first refusal rolls all of it back. */
  function Attempt(u: User, commands: seq<Command>): Result<User> {
    if commands == [] then Success(u)
    else
      match Attempt(u, commands[..|commands| - 1])
      case Success(v) => Users.Apply(v, commands[|commands| - 1])
      case Failure(e) => Failure(e)
  }

  /** `next` is where the position counter stands; a rolled-back insert leaves a gap. `told`
      remembers each account as it stood when its last event was drained. */
  datatype Plane = Plane(users: map<UserId, User>, outbox: seq<Row>, next: nat, told: map<UserId, Snapshot>)

  datatype Write =
    | Create(id: UserId, email: nat, verified: bool, username: Option<nat>)
    | Commit(id: UserId, commands: seq<Command>)
    | Announce(id: UserId)
    | Abort(burnt: nat)

  function Stored(p: Plane, id: UserId, u: User): Plane {
    Plane(p.users[id := u.(pending := [])], p.outbox + Drained(id, u, p.next), p.next + |u.pending|,
          if u.pending == [] then p.told else p.told[id := SnapshotOf(u)])
  }

  function Perform(p: Plane, w: Write): Plane {
    match w
    case Create(id, email, verified, username) =>
      if id in p.users then p else Stored(p, id, Provision(email, verified, username))
    case Commit(id, commands) =>
      if id !in p.users then p
      else (match Attempt(p.users[id], commands)
            case Success(u) => Stored(p, id, u)
            case Failure(_) => p)
    case Announce(id) => if id in p.users then Stored(p, id, Emit(p.users[id], PermissionsChanged)) else p
    case Abort(burnt) => p.(next := p.next + burnt)
  }

  // ---- Reading ----

  function Absorb(m: Picture, row: Row): Picture {
    if row.user in m && row.sequence <= m[row.user].sequence then m
    else
      var was := row.user in m && m[row.user].frozen;
      m[row.user := Seen(row.sequence, FrozenAfter(was, [row.kind]), row.snapshot)]
  }

  function Fold(m: Picture, rows: seq<Row>): Picture {
    if rows == [] then m else Absorb(Fold(m, rows[..|rows| - 1]), rows[|rows| - 1])
  }

  /** `WHERE position > after ORDER BY position`, over rows appended in position order. */
  function After(outbox: seq<Row>, after: nat): seq<Row> {
    if outbox == [] then []
    else
      var rest := After(outbox[..|outbox| - 1], after);
      if outbox[|outbox| - 1].position > after then rest + [outbox[|outbox| - 1]] else rest
  }

  function Clamp(limit: int): nat {
    if limit < 1 then 1 else if limit > MAX_LIMIT then MAX_LIMIT else limit
  }

  function Page(outbox: seq<Row>, after: nat, limit: int): seq<Row> {
    var rows := After(outbox, after);
    if |rows| <= Clamp(limit) then rows else rows[..Clamp(limit)]
  }

  function NextPosition(page: seq<Row>, after: nat): nat {
    if page == [] then after else page[|page| - 1].position
  }

  // ---- The rows ----

  ghost predicate Ordered(outbox: seq<Row>) {
    && (forall i :: 0 <= i < |outbox| ==> outbox[i].position > 0)
    && (forall i, j :: 0 <= i < j < |outbox| ==> outbox[i].position < outbox[j].position)
  }

  /** The position of the `n`-th row read, or the beginning. */
  function CursorAt(outbox: seq<Row>, n: nat): nat
    requires n <= |outbox|
  {
    if n == 0 then 0 else outbox[n - 1].position
  }

  lemma {:induction false} AfterIsSuffix(outbox: seq<Row>, n: nat)
    requires Ordered(outbox) && n <= |outbox|
    ensures After(outbox, CursorAt(outbox, n)) == outbox[n..]
    decreases |outbox|
  {
    if outbox != [] {
      var front := outbox[..|outbox| - 1];
      assert Ordered(front);
      if n == |outbox| {
        NothingAfter(front, outbox[n - 1].position);
      } else {
        assert CursorAt(front, n) == CursorAt(outbox, n);
        AfterIsSuffix(front, n);
        assert outbox[n..] == front[n..] + [outbox[|outbox| - 1]];
      }
    }
  }

  lemma {:induction false} NothingAfter(outbox: seq<Row>, after: nat)
    requires forall i :: 0 <= i < |outbox| ==> outbox[i].position <= after
    ensures After(outbox, after) == []
    decreases |outbox|
  {
    if outbox != [] {
      NothingAfter(outbox[..|outbox| - 1], after);
    }
  }

  lemma PageIsSlice(outbox: seq<Row>, n: nat, limit: int)
    requires Ordered(outbox) && n <= |outbox|
    ensures var page := Page(outbox, CursorAt(outbox, n), limit);
            && n + |page| <= |outbox| && page == outbox[n..n + |page|]
            && (page == [] <==> n == |outbox|)
            && NextPosition(page, CursorAt(outbox, n)) == CursorAt(outbox, n + |page|)
  {
    AfterIsSuffix(outbox, n);
  }

  function FewestOf(a: int, b: int): int {
    if a < b then a else b
  }

  /** A page is exactly the next rows, never a repeat and never a gap: as many as were asked
      for, between one and five hundred, or all that are left; so empty only at the end. */
  lemma PageIsNextRows(outbox: seq<Row>, n: nat, limit: int)
    requires Ordered(outbox) && n <= |outbox|
    ensures var page := Page(outbox, CursorAt(outbox, n), limit);
            && |page| == FewestOf(|outbox| - n, if limit < 1 then 1 else if limit > 500 then 500 else limit)
            && page == outbox[n..n + |page|]
            && (page == [] <==> n == |outbox|)
            && NextPosition(page, CursorAt(outbox, n)) == CursorAt(outbox, n + |page|)
  {
    AfterIsSuffix(outbox, n);
    PageIsSlice(outbox, n, limit);
  }

  /** What one pull adds to the rows read so far. */
  lemma PageExtends(outbox: seq<Row>, read: seq<Row>, cursor: nat, limit: int)
    requires Ordered(outbox) && |read| <= |outbox| && read == outbox[..|read|] && cursor == CursorAt(outbox, |read|)
    ensures var page := Page(outbox, cursor, limit);
            && |read + page| <= |outbox| && read + page == outbox[..|read + page|]
            && NextPosition(page, cursor) == CursorAt(outbox, |read + page|)
            && (page == [] <==> read == outbox)
  {
    PageIsSlice(outbox, |read|, limit);
    var page := Page(outbox, cursor, limit);
    assert outbox[..|read| + |page|] == outbox[..|read|] + outbox[|read|..|read| + |page|];
    assert page == [] ==> outbox[..|read|] == outbox;
  }

  /** Pages pulled with limits of any size from the beginning, until one comes back empty: it
      ends, and has read every row exactly once and in order. */
  method PullAll(outbox: seq<Row>) returns (read: seq<Row>, mirror: Picture)
    requires Ordered(outbox)
    ensures read == outbox
    ensures mirror == Fold(map[], outbox)
  {
    var cursor := 0;
    read, mirror := [], map[];
    while true
      invariant |read| <= |outbox| && read == outbox[..|read|]
      invariant cursor == CursorAt(outbox, |read|)
      invariant mirror == Fold(map[], read)
      decreases |outbox| - |read|
    {
      var limit: int := *;
      var page := Page(outbox, cursor, limit);
      PageExtends(outbox, read, cursor, limit);
      if page == [] { return; }
      mirror := AbsorbAll(mirror, page, read);
      cursor := NextPosition(page, cursor);
      read := read + page;
    }
  }

  method AbsorbAll(start: Picture, page: seq<Row>, ghost before: seq<Row>) returns (mirror: Picture)
    requires start == Fold(map[], before)
    ensures mirror == Fold(map[], before + page)
  {
    mirror := start;
    assert before + page[..0] == before;
    for i := 0 to |page|
      invariant mirror == Fold(map[], before + page[..i])
    {
      assert (before + page[..i + 1])[..|before| + i] == before + page[..i];
      mirror := Absorb(mirror, page[i]);
    }
    assert page[..|page|] == page;
  }

  // ---- The fold ----

  lemma {:induction false} FoldSplit(m: Picture, a: seq<Row>, b: seq<Row>)
    ensures Fold(m, a + b) == Fold(Fold(m, a), b)
    decreases |b|
  {
    if b == [] {
      assert a + b == a;
    } else {
      assert (a + b)[..|a + b| - 1] == a + b[..|b| - 1];
      FoldSplit(m, a, b[..|b| - 1]);
    }
  }

  /** Everything ever folded in stays recorded at no lower a sequence. */
  ghost predicate Covers(m: Picture, row: Row) {
    row.user in m && row.sequence <= m[row.user].sequence
  }

  lemma {:induction false} FoldCovers(m: Picture, rows: seq<Row>, row: Row)
    requires row in rows || Covers(m, row)
    ensures Covers(Fold(m, rows), row)
    decreases |rows|
  {
    if rows != [] {
      var n := |rows| - 1;
      if row in rows[..n] || Covers(m, row) {
        FoldCovers(m, rows[..n], row);
      }
    }
  }

  /** Rows delivered again change nothing, in any order and any number of times: an old
      REINSTATED cannot unfreeze what a later SUSPENDED froze. */
  lemma {:induction false} RedeliveryChangesNothing(rows: seq<Row>, again: seq<Row>)
    requires forall i :: 0 <= i < |again| ==> again[i] in rows
    ensures Fold(Fold(map[], rows), again) == Fold(map[], rows)
    decreases |again|
  {
    if again != [] {
      RedeliveryChangesNothing(rows, again[..|again| - 1]);
      FoldCovers(map[], rows, again[|again| - 1]);
    }
  }

  // ---- The writer keeps the picture right ----

  /** The reader's row for an account, and the account. */
  ghost predicate Agrees(m: Picture, id: UserId, u: User) {
    id in m && m[id].sequence <= u.rowVersion && m[id].frozen == !u.active
      && SameStanding(m[id].snapshot, SnapshotOf(u))
  }

  /** Per account, sequences strictly rise along the outbox. */
  ghost predicate Rising(outbox: seq<Row>) {
    forall i, j :: 0 <= i < j < |outbox| && outbox[i].user == outbox[j].user ==> outbox[i].sequence < outbox[j].sequence
  }

  /** The reader has each account as it stood when its last event was drained. */
  ghost predicate Told(m: Picture, told: map<UserId, Snapshot>) {
    m.Keys == told.Keys && forall id :: id in told ==> m[id].snapshot == told[id]
  }

  ghost predicate Faithful(p: Plane) {
    && Ordered(p.outbox) && Rising(p.outbox) && p.next > 0
    && (forall i :: 0 <= i < |p.outbox| ==> p.outbox[i].position < p.next)
    && Fold(map[], p.outbox).Keys == p.users.Keys
    && Told(Fold(map[], p.outbox), p.told)
    && Settled(Fold(map[], p.outbox), p.users)
  }

  /** Nothing the reader mirrors moves without an event. */
  lemma QuietCommand(u: User, c: Command)
    requires Proper(u)
    ensures Next(u, c).pending == u.pending ==>
            Next(u, c).active == u.active && SameStanding(SnapshotOf(u), SnapshotOf(Next(u, c)))
  {
    forall e: Event ensures u.pending + [e] != u.pending {
      assert |u.pending + [e]| == |u.pending| + 1;
    }
    match c {
      case SetKycLevel(_) =>
      case SetRole(_) =>
      case RevokeTokens =>
      case TakeOver =>
      case _ =>
    }
  }

  lemma {:induction false} AttemptKeeps(u: User, commands: seq<Command>)
    requires Proper(u) && u.pending == [] && Attempt(u, commands).Success?
    ensures var v := Attempt(u, commands).value;
            && Proper(v) && Announced(!u.active, v)
            && v.rowVersion - u.rowVersion >= |v.pending|
            && (v.pending == [] ==> SameStanding(SnapshotOf(u), SnapshotOf(v)))
    decreases |commands|
  {
    if commands != [] {
      var n := |commands| - 1;
      AttemptKeeps(u, commands[..n]);
      var v := Attempt(u, commands[..n]).value;
      CommandKeeps(!u.active, v, commands[n]);
      QuietCommand(v, commands[n]);
    }
  }

  /** Folding in the first `k` of one transaction's rows. */
  lemma {:induction false} DrainedFolds(m: Picture, id: UserId, u: User, first: nat, floor: int, k: nat)
    requires k <= |u.pending| && floor + |u.pending| <= u.rowVersion
    requires id in m ==> m[id].sequence <= floor
    ensures var f := Fold(m, Drained(id, u, first)[..k]);
            && f.Keys == m.Keys + (if k == 0 then {} else {id})
            && (forall other :: other in m && other != id ==> f[other] == m[other])
            && (k == 0 ==> f == m)
            && (k > 0 ==>
                f[id] == Seen(u.rowVersion - (|u.pending| - k), FrozenAfter(id in m && m[id].frozen, u.pending[..k]),
                              SnapshotOf(u)))
    decreases k
  {
    if k > 0 {
      DrainedFolds(m, id, u, first, floor, k - 1);
      var rows := Drained(id, u, first)[..k];
      assert rows[..k - 1] == Drained(id, u, first)[..k - 1];
      assert u.pending[..k][..k - 1] == u.pending[..k - 1];
      FrozenByLast(id in m && m[id].frozen, u.pending[..k]);
    }
  }

  lemma FrozenByLast(frozen: bool, events: seq<Event>)
    requires events != []
    ensures FrozenAfter(frozen, events)
            == FrozenAfter(FrozenAfter(frozen, events[..|events| - 1]), [events[|events| - 1]])
  {
    var last := [events[|events| - 1]];
    assert last[..0] == [];
  }

  lemma StoredIsOrdered(p: Plane, id: UserId, u: User)
    requires Ordered(p.outbox) && p.next > 0
    requires forall i :: 0 <= i < |p.outbox| ==> p.outbox[i].position < p.next
    ensures var q := Stored(p, id, u);
            && Ordered(q.outbox) && q.next > 0
            && (forall i :: 0 <= i < |q.outbox| ==> q.outbox[i].position < q.next)
  {
  }

  lemma StoredAgrees(p: Plane, id: UserId, u: User, floor: int)
    requires floor + |u.pending| <= u.rowVersion
    requires var m := Fold(map[], p.outbox);
             && (id in m ==> m[id].sequence <= floor)
             && (id !in m ==> u.pending != [])
             && Announced(id in m && m[id].frozen, u)
             && (u.pending == [] ==> SameStanding(m[id].snapshot, SnapshotOf(u)))
    ensures var m, n := Fold(map[], p.outbox), Fold(map[], Stored(p, id, u).outbox);
            && n.Keys == m.Keys + {id}
            && Agrees(n, id, u)
            && n[id].snapshot == (if u.pending == [] then m[id].snapshot else SnapshotOf(u))
            && (forall other :: other in m && other != id ==> n[other] == m[other])
  {
    var m := Fold(map[], p.outbox);
    var rows := Drained(id, u, p.next);
    FoldSplit(map[], p.outbox, rows);
    DrainedFolds(m, id, u, p.next, floor, |u.pending|);
    assert rows[..|u.pending|] == rows;
    assert u.pending[..|u.pending|] == u.pending;
  }

  lemma StoredRises(p: Plane, id: UserId, u: User, floor: int)
    requires Rising(p.outbox) && floor + |u.pending| <= u.rowVersion
    requires id in Fold(map[], p.outbox) ==> Fold(map[], p.outbox)[id].sequence <= floor
    ensures Rising(Stored(p, id, u).outbox)
  {
    var m := Fold(map[], p.outbox);
    var rows := Drained(id, u, p.next);
    forall i | 0 <= i < |p.outbox| && p.outbox[i].user == id ensures p.outbox[i].sequence <= floor {
      FoldCovers(map[], p.outbox, p.outbox[i]);
    }
    assert forall i :: 0 <= i < |rows| ==> rows[i].user == id && rows[i].sequence > floor;
  }

  lemma StoredKeeps(p: Plane, id: UserId, u: User, floor: int)
    requires Faithful(p) && Proper(u)
    requires floor + |u.pending| <= u.rowVersion
    requires if id in p.users then floor == p.users[id].rowVersion else u.pending != []
    requires Announced(id in p.users && !p.users[id].active, u)
    requires u.pending == [] ==> SameStanding(SnapshotOf(p.users[id]), SnapshotOf(u))
    ensures Faithful(Stored(p, id, u))
  {
    var m := Fold(map[], p.outbox);
    assert id in p.users ==> Agrees(m, id, p.users[id]);
    StoredIsOrdered(p, id, u);
    StoredRises(p, id, u, floor);
    StoredAgrees(p, id, u, floor);
    var q := Stored(p, id, u);
    var n := Fold(map[], q.outbox);
    StoredTells(m, n, p.told, id, u);
    StoredSettles(m, n, p.users, id, u);
  }

  ghost predicate Settled(m: Picture, users: map<UserId, User>) {
    forall id :: id in users ==> Proper(users[id]) && users[id].pending == [] && Agrees(m, id, users[id])
  }

  lemma StoredSettles(m: Picture, n: Picture, users: map<UserId, User>, id: UserId, u: User)
    requires Settled(m, users) && Proper(u) && Agrees(n, id, u)
    requires forall other :: other in m && other != id ==> other in n && n[other] == m[other]
    ensures Settled(n, users[id := u.(pending := [])])
  {
    forall other | other in users && other != id ensures Agrees(n, other, users[other]) {
      assert Agrees(m, other, users[other]);
    }
  }

  lemma StoredTells(m: Picture, n: Picture, told: map<UserId, Snapshot>, id: UserId, u: User)
    requires Told(m, told) && n.Keys == m.Keys + {id} && (id !in m ==> u.pending != [])
    requires forall other :: other in m && other != id ==> n[other] == m[other]
    requires n[id].snapshot == (if u.pending == [] then m[id].snapshot else SnapshotOf(u))
    ensures Told(n, if u.pending == [] then told else told[id := SnapshotOf(u)])
  {
  }

  lemma CreateKeeps(p: Plane, id: UserId, email: nat, verified: bool, username: Option<nat>)
    requires Faithful(p) && id !in p.users
    ensures Faithful(Stored(p, id, Provision(email, verified, username)))
  {
    LogTellsStanding(email, verified, username, []);
    var u := Provision(email, verified, username);
    assert Users.Run(u, []) == u;
    StoredKeeps(p, id, u, 0);
  }

  lemma CommitKeeps(p: Plane, id: UserId, commands: seq<Command>)
    requires Faithful(p) && id in p.users && Attempt(p.users[id], commands).Success?
    ensures Faithful(Stored(p, id, Attempt(p.users[id], commands).value))
  {
    AttemptKeeps(p.users[id], commands);
    StoredKeeps(p, id, Attempt(p.users[id], commands).value, p.users[id].rowVersion);
  }

  lemma AnnounceKeeps(p: Plane, id: UserId)
    requires Faithful(p) && id in p.users
    ensures Faithful(Stored(p, id, Emit(p.users[id], PermissionsChanged)))
  {
    var u := Emit(p.users[id], PermissionsChanged);
    AppendAlternates(!p.users[id].active, [], PermissionsChanged);
    assert u.pending == [] + [PermissionsChanged];
    StoredKeeps(p, id, u, p.users[id].rowVersion);
  }

  lemma PerformKeeps(p: Plane, w: Write)
    requires Faithful(p)
    ensures Faithful(Perform(p, w))
  {
    match w {
      case Create(id, email, verified, username) =>
        if id !in p.users { CreateKeeps(p, id, email, verified, username); }
      case Commit(id, commands) =>
        if id in p.users && Attempt(p.users[id], commands).Success? { CommitKeeps(p, id, commands); }
      case Announce(id) =>
        if id in p.users { AnnounceKeeps(p, id); }
      case Abort(_) =>
    }
  }

  // ---- Both at once ----

  /** The writer, and a reader that may lose its place: `cursor` is where it pulls from next. */
  datatype World = World(plane: Plane, cursor: nat, mirror: Picture)

  datatype Step =
    | Writes(write: Write)
    | Pulls(limit: int)
    | Restarts(cursor: nat)

  function Apply(w: World, s: Step): World {
    match s
    case Writes(write) => w.(plane := Perform(w.plane, write))
    case Pulls(limit) =>
      var page := Page(w.plane.outbox, w.cursor, limit);
      w.(cursor := NextPosition(page, w.cursor), mirror := Fold(w.mirror, page))
    case Restarts(cursor) =>
      if cursor == 0
        || (exists i :: 0 <= i < |w.plane.outbox| && w.plane.outbox[i].position == cursor && cursor <= w.cursor)
      then w.(cursor := cursor) else w
  }

  function Run(w: World, steps: seq<Step>): World {
    if steps == [] then w else Apply(Run(w, steps[..|steps| - 1]), steps[|steps| - 1])
  }

  function Start(): World {
    World(Plane(map[], [], 1, map[]), 0, map[])
  }

  /** At row `at` of the outbox, with the first `high` rows folded in. */
  ghost predicate ReaderAt(w: World, at: nat, high: nat) {
    && at <= high <= |w.plane.outbox|
    && w.cursor == CursorAt(w.plane.outbox, at)
    && w.mirror == Fold(map[], w.plane.outbox[..high])
  }

  ghost predicate InStep(w: World) {
    Faithful(w.plane) && exists at: nat, high: nat :: ReaderAt(w, at, high)
  }

  lemma PullKeeps(w: World, limit: int, at: nat, high: nat)
    requires Faithful(w.plane) && ReaderAt(w, at, high)
    ensures var v := Apply(w, Pulls(limit));
            exists n: nat, k: nat :: ReaderAt(v, n, k)
  {
    var outbox := w.plane.outbox;
    PageIsSlice(outbox, at, limit);
    var end := at + |Page(outbox, w.cursor, limit)|;
    PrefixThenPage(outbox, at, high, end);
    assert ReaderAt(Apply(w, Pulls(limit)), end, if end <= high then high else end);
  }

  /** Folding in any stretch that begins within what was already folded in. */
  lemma PrefixThenPage(outbox: seq<Row>, at: nat, high: nat, end: nat)
    requires at <= high <= |outbox| && at <= end <= |outbox|
    ensures Fold(Fold(map[], outbox[..high]), outbox[at..end])
            == Fold(map[], outbox[..if end <= high then high else end])
  {
    var mid := if end <= high then end else high;
    var known, news := outbox[at..mid], outbox[mid..end];
    assert outbox[at..end] == known + news;
    assert forall i :: 0 <= i < |known| ==> known[i] == outbox[..high][at + i];
    RedeliveryChangesNothing(outbox[..high], known);
    FoldSplit(Fold(map[], outbox[..high]), known, news);
    if end > high {
      FoldSplit(map[], outbox[..high], news);
      assert outbox[..high] + news == outbox[..end];
    }
  }

  lemma WriteKeeps(w: World, write: Write, at: nat, high: nat)
    requires Faithful(w.plane) && ReaderAt(w, at, high)
    ensures ReaderAt(Apply(w, Writes(write)), at, high)
  {
    var outbox, longer := w.plane.outbox, Perform(w.plane, write).outbox;
    assert outbox == longer[..|outbox|];
    assert longer[..high] == outbox[..high];
  }

  lemma RestartKeeps(w: World, cursor: nat, at: nat, high: nat)
    requires Faithful(w.plane) && ReaderAt(w, at, high)
    ensures exists n: nat :: ReaderAt(Apply(w, Restarts(cursor)), n, high)
  {
    var v := Apply(w, Restarts(cursor));
    if cursor == 0 {
      assert ReaderAt(v, 0, high);
    } else if v != w {
      var i :| 0 <= i < |w.plane.outbox| && w.plane.outbox[i].position == cursor && cursor <= w.cursor;
      assert at > 0 && i <= at - 1;
      assert ReaderAt(v, i + 1, high);
    } else {
      assert ReaderAt(v, at, high);
    }
  }

  lemma {:induction false} RunKeeps(steps: seq<Step>)
    ensures InStep(Run(Start(), steps))
    decreases |steps|
  {
    if steps == [] {
      assert ReaderAt(Start(), 0, 0);
    } else {
      var w := Run(Start(), steps[..|steps| - 1]);
      RunKeeps(steps[..|steps| - 1]);
      var at: nat, high: nat :| ReaderAt(w, at, high);
      match steps[|steps| - 1] {
        case Writes(write) =>
          PerformKeeps(w.plane, write);
          WriteKeeps(w, write, at, high);
        case Pulls(limit) => PullKeeps(w, limit, at, high);
        case Restarts(cursor) => RestartKeeps(w, cursor, at, high);
      }
    }
  }

  /** A reader with nothing left to pull sees every account exactly as it stands: frozen or
      not, seat, KYC level and token version, and no account that does not exist; whatever
      transactions, rollbacks, page sizes and lost places came before. Its address it sees as
      of the account's last event, and so stale exactly until the next. And the rows it read
      rise strictly in position, and per account in sequence. */
  lemma CaughtUpReaderAgrees(steps: seq<Step>, limit: int)
    requires var w := Run(Start(), steps); Page(w.plane.outbox, w.cursor, limit) == []
    ensures var w := Run(Start(), steps);
            && w.mirror.Keys == w.plane.users.Keys
            && (forall id :: id in w.plane.users ==> Agrees(w.mirror, id, w.plane.users[id]))
            && (forall id :: id in w.plane.users ==> id in w.plane.told && w.mirror[id].snapshot == w.plane.told[id])
            && Ordered(w.plane.outbox) && Rising(w.plane.outbox)
  {
    var w := Run(Start(), steps);
    RunKeeps(steps);
    var at: nat, high: nat :| ReaderAt(w, at, high);
    PageIsSlice(w.plane.outbox, at, limit);
    assert w.plane.outbox[..high] == w.plane.outbox;
  }

  // ---- What each write does ----

  /** Every command of a transaction is accepted in its turn. */
  predicate AllAccepted(u: User, commands: seq<Command>) {
    commands != [] ==>
      && AllAccepted(u, commands[..|commands| - 1])
      && Users.Apply(Users.Run(u, commands[..|commands| - 1]), commands[|commands| - 1]).Success?
  }

  lemma {:induction false} AttemptRuns(u: User, commands: seq<Command>)
    ensures Attempt(u, commands).Success? <==> AllAccepted(u, commands)
    ensures AllAccepted(u, commands) ==> Attempt(u, commands) == Success(Users.Run(u, commands))
    decreases |commands|
  {
    if commands != [] {
      AttemptRuns(u, commands[..|commands| - 1]);
    }
  }

  /** The account as its transaction leaves it, its events appended in order behind the rows
      already there. */
  ghost predicate Written(p: Plane, q: Plane, id: UserId, u: User) {
    && id in q.users && q.users[id] == u.(pending := [])
    && (forall k :: k != id ==> (k in q.users <==> k in p.users) && (k in p.users ==> q.users[k] == p.users[k]))
    && |q.outbox| == |p.outbox| + |u.pending| && p.outbox <= q.outbox
    && (forall i :: 0 <= i < |u.pending| ==>
          var row := q.outbox[|p.outbox| + i];
          && row.kind == u.pending[i] && row.user == id && row.snapshot == SnapshotOf(u)
          && row.position == p.next + i && row.sequence == u.rowVersion - (|u.pending| - 1 - i))
    && q.next == p.next + |u.pending|
  }

  /** A transaction commits all its commands or none; creating provisions an account that was
      not there; announcing appends one row; a rollback only burns positions. */
  lemma WritesDo(p: Plane, w: Write)
    ensures var q := Perform(p, w);
            match w
            case Create(id, email, verified, username) =>
              if id in p.users then q == p else Written(p, q, id, Provision(email, verified, username))
            case Commit(id, commands) =>
              if id in p.users && AllAccepted(p.users[id], commands)
              then Written(p, q, id, Users.Run(p.users[id], commands)) else q == p
            case Announce(id) =>
              if id in p.users then Written(p, q, id, Emit(p.users[id], PermissionsChanged)) else q == p
            case Abort(burnt) => q == p.(next := p.next + burnt)
  {
    if w.Commit? && w.id in p.users {
      AttemptRuns(p.users[w.id], w.commands);
    }
  }
}
