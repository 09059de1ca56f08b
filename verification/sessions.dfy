/** What a session is worth, read off the operations alone: when it was issued, when it last
    rotated, and which secrets it knows. Both stores honour a handle exactly by that. */
module Sessions {
  import opened Results
  import opened RefreshStore
  import opened RefreshRefinement
  import RI = RedisInterleavings

  /** A family's history: the readings of its issue and of its last rotation, the secret handed
      out then, and the one that replaced. */
  datatype Session =
    | Gone
    | Kept(user: UserId, version: nat, current: Secret, prev: Option<Secret>, issued: nat, last: nat)

  /** The three bounds: the whole session since its issue, the sliding window since its last
      rotation, and the idle timeout since then, which zero turns off. */
  predicate Within(s: Session, now: nat, b: Bounds) {
    && s.Kept?
    && now < s.issued + b.maxSession
    && now < s.last + b.ttl
    && (b.idle != 0 ==> now <= s.last + b.idle)
  }

  function Opened(user: UserId, version: nat, secret: Secret, now: nat): Session {
    Kept(user, version, secret, None, now, now)
  }

  /** A rotation within the bounds moves the session to its next secret; the secret before, or
      any out of bounds, ends it; any other changes nothing. */
  function Presented(s: Session, secret: Secret, next: Secret, now: nat, b: Bounds): Session {
    if s.Gone? then s
    else if !Within(s, now, b) then Gone
    else if secret == s.current then s.(current := next, prev := Some(s.current), last := now)
    else if s.prev == Some(secret) then Gone
    else s
  }

  /** How an inspection must answer, and how a rotation. */
  function Inspected(s: Session, shown: Secret, now: nat, b: Bounds): Answer {
    if !Within(s, now, b) then Invalid
    else if shown == s.current then Current(s.user)
    else if s.prev == Some(shown) then Reuse(s.user)
    else Invalid
  }

  function Rotated(s: Session, f: FamilyId, shown: Secret, next: Secret, now: nat, b: Bounds): Answer {
    if Within(s, now, b) && shown == s.current then RotatedTo(s.version, f, next, now + b.ttl) else Refused
  }

  // ---- In process ----

  function Next(s: Session, f: FamilyId, op: Op, b: Bounds): Session {
    match op
    case Issue(family, user, version, secret, now) => if family == f then Opened(user, version, secret, now) else s
    case Rotate(token, next, now) =>
      if token.Handle? && token.family == f then Presented(s, token.secret, next, now, b) else s
    case Revoke(token, _) => if token.Handle? && token.family == f then Gone else s
    case RevokeUser(user, _) => if s.Kept? && s.user == user then Gone else s
    case _ => s
  }

  function History(s: Session, f: FamilyId, ops: seq<Op>, b: Bounds): Session
    decreases |ops|
  {
    if ops == [] then s else History(Next(s, f, ops[0], b), f, ops[1..], b)
  }

  function MapAfter(m: Families, ops: seq<Op>, b: Bounds): Families
    decreases |ops|
  {
    if ops == [] then m else MapAfter(InProcess(m, ops[0], b).0, ops[1..], b)
  }

  /** The stored family says what the history says. */
  ghost predicate Tells(m: Families, f: FamilyId, s: Session, b: Bounds) {
    match s
    case Gone => f !in m
    case Kept(user, version, current, prev, issued, last) =>
      f in m && m[f] == Family(user, current, prev, version, last + b.ttl, issued + b.maxSession, last)
  }

  lemma StepTells(m: Families, f: FamilyId, s: Session, op: Op, b: Bounds)
    requires Tells(m, f, s, b)
    ensures Tells(InProcess(m, op, b).0, f, Next(s, f, op, b), b)
  {
  }

  lemma {:induction false} RunTells(m: Families, f: FamilyId, s: Session, ops: seq<Op>, b: Bounds)
    requires Tells(m, f, s, b)
    ensures Tells(MapAfter(m, ops, b), f, History(s, f, ops, b), b)
    decreases |ops|
  {
    if ops != [] {
      StepTells(m, f, s, ops[0], b);
      RunTells(InProcess(m, ops[0], b).0, f, Next(s, f, ops[0], b), ops[1..], b);
    }
  }

  lemma TellsAnswers(m: Families, f: FamilyId, s: Session, shown: Secret, next: Secret, now: nat, b: Bounds)
    requires Tells(m, f, s, b)
    ensures MapInspect(m, Handle(f, shown), now, b) == Inspected(s, shown, now, b)
    ensures MapRotate(m, Handle(f, shown), next, now, b).1 == Rotated(s, f, shown, next, now, b)
  {
  }

  /** In process, after any operations at any readings: a handle is inspected current, and
      rotates, exactly when its family was not ended, its secret is the last handed out, and
      the reading is within the three bounds of the family's issue and last rotation. */
  lemma HonouredExactly(ops: seq<Op>, f: FamilyId, shown: Secret, next: Secret, now: nat, b: Bounds)
    ensures var m, s := MapAfter(map[], ops, b), History(Gone, f, ops, b);
            && MapInspect(m, Handle(f, shown), now, b) == Inspected(s, shown, now, b)
            && MapRotate(m, Handle(f, shown), next, now, b).1 == Rotated(s, f, shown, next, now, b)
  {
    RunTells(map[], f, Gone, ops, b);
    TellsAnswers(MapAfter(map[], ops, b), f, History(Gone, f, ops, b), shown, next, now, b);
  }

  // ---- Redis, on one clock ----

  function RedisAfter(r: Redis, ops: seq<Op>, b: Bounds): Redis
    decreases |ops|
  {
    if ops == [] then r else RedisAfter(OnRedis(r, ops[0], b).0, ops[1..], b)
  }

  function ClockAfter(ops: seq<Op>, now: nat): nat {
    if ops == [] then now else ops[|ops| - 1].now
  }

  lemma {:induction false} AskedLast(m: Families, r: Redis, ops: seq<Op>, op: Op, b: Bounds)
    ensures |MapAnswers(m, ops + [op], b)| == |ops| + 1 == |RedisAnswers(r, ops + [op], b)|
    ensures MapAnswers(m, ops + [op], b)[|ops|] == InProcess(MapAfter(m, ops, b), op, b).1
    ensures RedisAnswers(r, ops + [op], b)[|ops|] == OnRedis(RedisAfter(r, ops, b), op, b).1
    decreases |ops|
  {
    var all := ops + [op];
    if ops == [] {
      assert all[1..] == [];
    } else {
      assert all[0] == ops[0] && all[1..] == ops[1..] + [op];
      AskedLast(InProcess(m, ops[0], b).0, OnRedis(r, ops[0], b).0, ops[1..], op, b);
    }
  }

  lemma {:induction false} AdmissibleMore(ops: seq<Op>, op: Op, now: nat, used: set<FamilyId>)
    requires Admissible(ops, now, used) && ClockAfter(ops, now) <= op.now && !op.Issue?
    ensures Admissible(ops + [op], now, used)
    decreases |ops|
  {
    var all := ops + [op];
    if ops == [] {
      assert all[1..] == [];
    } else {
      assert all[0] == ops[0] && all[1..] == ops[1..] + [op];
      AdmissibleMore(ops[1..], op, ops[0].now, used + if ops[0].Issue? then {ops[0].family} else {});
    }
  }

  /** On Redis the same, on one clock, however keys expired and were pruned on the way. */
  lemma HonouredOnRedisExactly(ops: seq<Op>, f: FamilyId, shown: Secret, next: Secret, now: nat, b: Bounds)
    requires Admissible(ops, 0, {}) && ClockAfter(ops, 0) <= now
    ensures var r, s := RedisAfter(Redis(map[], map[]), ops, b), History(Gone, f, ops, b);
            && RedisInspect(r, Handle(f, shown), now, b) == Inspected(s, shown, now, b)
            && RedisRotate(r, Handle(f, shown), next, now, b).1 == Rotated(s, f, shown, next, now, b)
  {
    var inspect, rotate := Inspect(Handle(f, shown), now), Rotate(Handle(f, shown), next, now);
    var r, m := Redis(map[], map[]), map[];
    HonouredExactly(ops, f, shown, next, now, b);
    AdmissibleMore(ops, inspect, 0, {});
    AdmissibleMore(ops, rotate, 0, {});
    AskedLast(m, r, ops, inspect, b);
    AskedLast(m, r, ops, rotate, b);
    RedisRefinesInProcess(ops + [inspect], b);
    RedisRefinesInProcess(ops + [rotate], b);
  }

  // ---- Redis, command by command ----

  /** What the commands say of a family, its deletion apart: ids are issued once. */
  function Landed(s: Session, f: FamilyId, c: RI.Command, b: Bounds): Session {
    match c
    case Issues(family, user, version, secret, read) =>
      if family == f && s.Gone? then Opened(user, version, secret, read) else s
    case Rotates(family, secret, next, read) =>
      if family == f && Within(s, read, b) && secret == s.current then Presented(s, secret, next, read, b) else s
    case _ => s
  }

  function Story(f: FamilyId, cs: seq<RI.Command>, b: Bounds): Session {
    if cs == [] then Gone else Landed(Story(f, cs[..|cs| - 1], b), f, cs[|cs| - 1], b)
  }

  ghost predicate Stands(w: RI.World, f: FamilyId, s: Session, b: Bounds) {
    && (f in w.issued <==> s.Kept?)
    && (f in w.r.hashes ==>
          && s.Kept?
          && w.r.hashes[f].family
             == Family(s.user, s.current, s.prev, s.version, s.last + b.ttl, s.issued + b.maxSession, s.last))
  }

  lemma CommandStands(w: RI.World, f: FamilyId, s: Session, c: RI.Command, b: Bounds)
    requires Stands(w, f, s, b)
    ensures Stands(RI.Apply(w, c, b), f, Landed(s, f, c, b), b)
  {
  }

  lemma {:induction false} StoryStands(w: RI.World, f: FamilyId, cs: seq<RI.Command>, b: Bounds)
    requires w.r.hashes == map[] && w.issued == map[]
    ensures Stands(RI.Run(w, cs, b), f, Story(f, cs, b), b)
    decreases |cs|
  {
    if cs != [] {
      StoryStands(w, f, cs[..|cs| - 1], b);
      CommandStands(RI.Run(w, cs[..|cs| - 1], b), f, Story(f, cs[..|cs| - 1], b), cs[|cs| - 1], b);
    }
  }

  /** In every interleaving, whatever each sender's clock read: a handle is inspected current,
      and its rotation accepted, exactly when its family is still in the store, its secret is
      the last handed out, and the reading is within the three bounds of the family's issue
      and last rotation. */
  lemma HonouredInterleavedExactly(w: RI.World, cs: seq<RI.Command>, f: FamilyId, shown: Secret, next: Secret,
                                   read: nat, b: Bounds)
    requires w.r.hashes == map[] && w.issued == map[]
    ensures var v, s := RI.Run(w, cs, b), Story(f, cs, b);
            && RedisInspect(v.r, Handle(f, shown), read, b)
               == (if f in v.r.hashes then Inspected(s, shown, read, b) else Invalid)
            && RotateScript(v.r, f, shown, next, read, b).1
               == (if f !in v.r.hashes || !Within(s, read, b) then ScriptNil
                   else if shown == s.current then ScriptOk(s.user, s.version)
                   else if s.prev == Some(shown) then ScriptReuse(s.user)
                   else ScriptNil)
  {
    StoryStands(w, f, cs, b);
  }

  /** When a family leaves the store, exactly: at its cap, by a rotation out of its bounds, by
      its deletion, or by the revoke-user script of an index that names it. Every other command
      leaves it standing, and but for a rotation of its current secret leaves it as it is. */
  lemma LeavesExactly(w: RI.World, f: FamilyId, s: Session, c: RI.Command, b: Bounds)
    requires RI.Consistent(w) && Stands(w, f, s, b) && f in w.r.hashes
    ensures var v := RI.Apply(w, c, b);
            && (f !in v.r.hashes <==>
                  match c
                  case Tick(to) => to > 1000 * (s.issued + b.maxSession)
                  case Rotates(family, _, _, read) => family == f && !Within(s, read, b)
                  case Deletes(family, _) => family == f
                  case RevokesUser(user) => user in w.r.index && f in w.r.index[user].members
                  case _ => false)
            && (f in v.r.hashes && v.r.hashes[f] != w.r.hashes[f] ==>
                  c.Rotates? && c.family == f && c.secret == s.current)
  {
  }
}
