/** The two backends answer alike: every run of store operations gives the same `rotate` and
    `inspect` answers on Redis as in process. */
module RefreshRefinement {
  import opened RefreshStore

  /** Operations carry the clock they read. The last three are Redis's own business: keys
      expiring away and stale index entries pruned. */
  datatype Op =
    | Issue(family: FamilyId, user: UserId, tokenVersion: nat, secret: Secret, now: nat)
    | Rotate(token: Token, next: Secret, now: nat)
    | Inspect(token: Token, now: nat)
    | Revoke(token: Token, now: nat)
    | RevokeUser(user: UserId, now: nat)
    | HashExpires(family: FamilyId, now: nat)
    | IndexExpires(user: UserId, now: nat)
    | Prune(user: UserId, now: nat)

  function InProcess(m: Families, op: Op, b: Bounds): (Families, Answer) {
    match op
    case Issue(family, user, tokenVersion, secret, now) =>
      (m[family := NewFamily(user, tokenVersion, secret, now, b)], Done)
    case Rotate(token, next, now) => MapRotate(m, token, next, now, b)
    case Inspect(token, now) => (m, MapInspect(m, token, now, b))
    case Revoke(token, _) => (if token.Malformed? then m else m - {token.family}, Done)
    case RevokeUser(user, _) => (MapRevokeUser(m, user), Done)
    case _ => (m, Done)
  }

  function OnRedis(r: Redis, op: Op, b: Bounds): (Redis, Answer) {
    match op
    case Issue(family, user, tokenVersion, secret, now) =>
      (IssuePipe(r, family, NewFamily(user, tokenVersion, secret, now, b)), Done)
    case Rotate(token, next, now) => RedisRotate(r, token, next, now, b)
    case Inspect(token, now) => (r, RedisInspect(r, token, now, b))
    case Revoke(token, _) => (RedisRevoke(r, token), Done)
    case RevokeUser(user, _) => (RevokeUserScript(r, user), Done)
    case HashExpires(family, now) => (ReapHash(r, family, now), Done)
    case IndexExpires(user, now) => (ReapIndex(r, user, now), Done)
    case Prune(user, _) => (RedisPrune(r, user), Done)
  }

  function MapAnswers(m: Families, ops: seq<Op>, b: Bounds): seq<Answer>
    decreases |ops|
  {
    if ops == [] then [] else [InProcess(m, ops[0], b).1] + MapAnswers(InProcess(m, ops[0], b).0, ops[1..], b)
  }

  function RedisAnswers(r: Redis, ops: seq<Op>, b: Bounds): seq<Answer>
    decreases |ops|
  {
    if ops == [] then [] else [OnRedis(r, ops[0], b).1] + RedisAnswers(OnRedis(r, ops[0], b).0, ops[1..], b)
  }

  /** One clock, never running back, and family ids never minted twice. */
  ghost predicate Admissible(ops: seq<Op>, now: nat, used: set<FamilyId>) {
    ops != [] ==>
      && ops[0].now >= now
      && (ops[0].Issue? ==> ops[0].family !in used)
      && Admissible(ops[1..], ops[0].now, used + if ops[0].Issue? then {ops[0].family} else {})
  }

  // ---- The abstraction ----

  function Stored(r: Redis): Families {
    map f | f in r.hashes :: r.hashes[f].family
  }

  /** The families a presented handle could still be honoured by. */
  function Live(m: Families, now: nat, b: Bounds): Families {
    map f | f in m && !m[f].Expired(now, b) :: m[f]
  }

  function Abstraction(r: Redis, now: nat, b: Bounds): Families {
    Live(Stored(r), now, b)
  }

  /** Each hash dies at its own absolute cap, set no later than one full session from now;
      while it lasts, its owner's index names it and outlives it. */
  ghost predicate Indexed(r: Redis, now: nat, b: Bounds) {
    && (forall f :: f in r.hashes ==>
          && r.hashes[f].expireAt == r.hashes[f].family.absoluteExpiresAt
          && r.hashes[f].family.absoluteExpiresAt <= now + b.maxSession)
    && (forall f :: f in r.hashes && now < r.hashes[f].family.absoluteExpiresAt ==>
          var user := r.hashes[f].family.user;
          && user in r.index && f in r.index[user].members
          && r.hashes[f].family.absoluteExpiresAt <= r.index[user].expireAt)
  }

  lemma IndexedLater(r: Redis, now: nat, later: nat, b: Bounds)
    requires Indexed(r, now, b) && now <= later
    ensures Indexed(r, later, b)
  {
  }

  /** What is dead stays dead: a later view is a view of an earlier one. */
  lemma LiveLater(m: Families, now: nat, later: nat, b: Bounds)
    requires now <= later
    ensures Live(m, later, b) == Live(Live(m, now, b), later, b)
  {
  }

  lemma RemovingMembersKeepsIndexed(r: Redis, user: UserId, gone: set<FamilyId>, now: nat, b: Bounds)
    requires Indexed(r, now, b)
    requires forall f :: f in gone && f in r.hashes ==> now >= r.hashes[f].family.absoluteExpiresAt
    ensures Indexed(RemoveMembers(r, user, gone), now, b)
  {
    var q := RemoveMembers(r, user, gone);
    forall f | f in q.hashes && now < q.hashes[f].family.absoluteExpiresAt
      ensures var u := q.hashes[f].family.user;
              && u in q.index && f in q.index[u].members && q.hashes[f].family.absoluteExpiresAt <= q.index[u].expireAt
    {
      assert f !in gone;
      if r.hashes[f].family.user == user {
        assert f in r.index[user].members - gone;
      }
    }
  }

  lemma DeletingKeepsIndexed(r: Redis, family: FamilyId, user: UserId, now: nat, b: Bounds)
    requires Indexed(r, now, b)
    ensures Indexed(DeleteFamily(r, family, user), now, b)
  {
    RemovingMembersKeepsIndexed(r.(hashes := r.hashes - {family}), user, {family}, now, b);
  }

  lemma IssuingKeepsIndexed(r: Redis, family: FamilyId, user: UserId, tokenVersion: nat, secret: Secret, now: nat,
                            b: Bounds)
    requires Indexed(r, now, b)
    ensures Indexed(IssuePipe(r, family, NewFamily(user, tokenVersion, secret, now, b)), now, b)
  {
  }

  // ---- Each backend against the view ----

  /** In process, an operation sees only the live families and leaves the live families it
      would have left of them alone. */
  lemma MapThroughView(m: Families, op: Op, b: Bounds)
    ensures InProcess(m, op, b).1 == InProcess(Live(m, op.now, b), op, b).1
    ensures Live(InProcess(m, op, b).0, op.now, b) == Live(InProcess(Live(m, op.now, b), op, b).0, op.now, b)
  {
    var v := Live(m, op.now, b);
    match op {
      case Rotate(token, next, now) => MapRotateThroughView(m, token, next, now, b);
      case Issue(f, user, tv, secret, now) =>
        LiveUpdated(m, f, NewFamily(user, tv, secret, now, b), now, b);
      case Revoke(token, now) =>
        if token.Handle? {
          LiveWithout(m, {token.family}, now, b);
          LiveWithout(v, {token.family}, now, b);
        }
      case RevokeUser(user, now) =>
        assert Live(MapRevokeUser(m, user), now, b) == Live(MapRevokeUser(v, user), now, b);
      case _ =>
    }
  }

  lemma MapRotateThroughView(m: Families, token: Token, next: Secret, now: nat, b: Bounds)
    ensures MapRotate(m, token, next, now, b).1 == MapRotate(Live(m, now, b), token, next, now, b).1
    ensures Live(MapRotate(m, token, next, now, b).0, now, b)
            == Live(MapRotate(Live(m, now, b), token, next, now, b).0, now, b)
  {
    var v := Live(m, now, b);
    if token.Handle? && token.family in m {
      LiveWithout(m, {token.family}, now, b);
      LiveWithout(v, {token.family}, now, b);
      LiveUpdated(m, token.family, m[token.family].Rotated(next, now, b), now, b);
      LiveUpdated(v, token.family, m[token.family].Rotated(next, now, b), now, b);
    }
  }

  lemma LiveWithout(m: Families, gone: set<FamilyId>, now: nat, b: Bounds)
    ensures Live(m - gone, now, b) == Live(m, now, b) - gone
    ensures Live(Live(m, now, b), now, b) == Live(m, now, b)
    ensures gone !! Live(m, now, b).Keys ==> Live(m, now, b) - gone == Live(m, now, b)
  {
  }

  lemma LiveUpdated(m: Families, f: FamilyId, fam: Family, now: nat, b: Bounds)
    ensures Live(m[f := fam], now, b)
            == if fam.Expired(now, b) then Live(m, now, b) - {f} else Live(m, now, b)[f := fam]
    ensures Live(Live(m, now, b)[f := fam], now, b) == Live(m[f := fam], now, b)
  {
  }

  /** An index entry never names a family of somebody else, nor an id not minted yet. */
  ghost predicate Honest(r: Redis, used: set<FamilyId>) {
    && r.hashes.Keys <= used
    && (forall u :: u in r.index ==> r.index[u].members <= used)
    && (forall u, f :: u in r.index && f in r.index[u].members && f in r.hashes ==> r.hashes[f].family.user == u)
  }

  lemma StoredDeleted(r: Redis, f: FamilyId, user: UserId)
    ensures Stored(DeleteFamily(r, f, user)) == Stored(r) - {f}
    ensures Stored(r.(hashes := r.hashes - {f})) == Stored(r) - {f}
  {
  }

  lemma RedisRotateThroughView(r: Redis, token: Token, next: Secret, now: nat, b: Bounds)
    ensures RedisRotate(r, token, next, now, b).1 == MapRotate(Stored(r), token, next, now, b).1
    ensures Stored(RedisRotate(r, token, next, now, b).0) == MapRotate(Stored(r), token, next, now, b).0
  {
    if token.Handle? && token.family in r.hashes {
      var fam := r.hashes[token.family].family;
      StoredDeleted(r, token.family, fam.user);
      var (after, verdict) := RotateScript(r, token.family, token.secret, next, now, b);
      if !fam.Expired(now, b) && fam.current == token.secret {
        assert Stored(after) == Stored(r)[token.family := fam.Rotated(next, now, b)];
      }
    }
  }

  lemma SameLive(m: Families, n: Families, now: nat, b: Bounds)
    requires forall f :: f in m && !m[f].Expired(now, b) ==> f in n && n[f] == m[f]
    requires forall f :: f in n && !n[f].Expired(now, b) ==> f in m && m[f] == n[f]
    ensures Live(m, now, b) == Live(n, now, b)
  {
  }

  /** Revoking a user hits every live family of theirs, because the index names them all. */
  lemma RedisRevokeUserThroughView(r: Redis, user: UserId, now: nat, used: set<FamilyId>, b: Bounds)
    requires Indexed(r, now, b) && Honest(r, used)
    ensures Abstraction(RevokeUserScript(r, user), now, b) == Live(MapRevokeUser(Stored(r), user), now, b)
  {
    var q := RevokeUserScript(r, user);
    var m, n := Stored(q), MapRevokeUser(Stored(r), user);
    forall f | f in m && !m[f].Expired(now, b)
      ensures f in n && n[f] == m[f]
    {
      assert f in r.hashes && r.hashes[f] == q.hashes[f];
    }
    forall f | f in n && !n[f].Expired(now, b)
      ensures f in m && m[f] == n[f]
    {
      assert f in r.hashes && r.hashes[f].family == n[f];
      assert user in r.index ==> f !in r.index[user].members;
    }
    SameLive(m, n, now, b);
  }

  lemma RedisReapsThroughView(r: Redis, f: FamilyId, now: nat, b: Bounds)
    requires Indexed(r, now, b)
    ensures Abstraction(ReapHash(r, f, now), now, b) == Abstraction(r, now, b)
  {
    SameLive(Stored(ReapHash(r, f, now)), Stored(r), now, b);
  }

  lemma RedisIssueThroughView(r: Redis, f: FamilyId, fam: Family)
    ensures Stored(IssuePipe(r, f, fam)) == Stored(r)[f := fam]
  {
  }

  lemma RedisRevokeThroughView(r: Redis, token: Token)
    requires token.Handle?
    ensures Stored(RedisRevoke(r, token)) == Stored(r) - {token.family}
  {
    if token.family in r.hashes {
      StoredDeleted(r, token.family, r.hashes[token.family].family.user);
    }
  }

  lemma RedisIndexOpsThroughView(r: Redis, user: UserId, now: nat)
    ensures Stored(ReapIndex(r, user, now)) == Stored(r)
    ensures Stored(RedisPrune(r, user)) == Stored(r)
  {
  }

  /** Every operation but the two that need the index sees exactly the stored families. */
  lemma RedisOnStored(r: Redis, op: Op, b: Bounds)
    requires !op.RevokeUser? && !op.HashExpires?
    ensures OnRedis(r, op, b).1 == InProcess(Stored(r), op, b).1
    ensures Stored(OnRedis(r, op, b).0) == InProcess(Stored(r), op, b).0
  {
    match op {
      case Issue(f, user, tv, secret, now) => RedisIssueThroughView(r, f, NewFamily(user, tv, secret, now, b));
      case Rotate(token, next, now) => RedisRotateThroughView(r, token, next, now, b);
      case Inspect(_, _) =>
      case Revoke(token, now) =>
        if token.Handle? {
          RedisRevokeThroughView(r, token);
        }
      case IndexExpires(user, now) => RedisIndexOpsThroughView(r, user, now);
      case Prune(user, now) => RedisIndexOpsThroughView(r, user, now);
    }
  }

  /** Redis answers as its own live families would in process, and leaves what they would. */
  ghost predicate ActsAsView(r: Redis, op: Op, b: Bounds) {
    && OnRedis(r, op, b).1 == InProcess(Stored(r), op, b).1
    && Abstraction(OnRedis(r, op, b).0, op.now, b) == Live(InProcess(Stored(r), op, b).0, op.now, b)
  }

  lemma RedisPlainOps(r: Redis, op: Op, b: Bounds)
    requires !op.RevokeUser? && !op.HashExpires?
    ensures ActsAsView(r, op, b)
  {
    RedisOnStored(r, op, b);
  }

  lemma RedisThroughView(r: Redis, op: Op, used: set<FamilyId>, b: Bounds)
    requires Indexed(r, op.now, b) && Honest(r, used)
    ensures ActsAsView(r, op, b)
  {
    if op.RevokeUser? {
      RedisRevokeUserThroughView(r, op.user, op.now, used, b);
    } else if op.HashExpires? {
      RedisReapsThroughView(r, op.family, op.now, b);
    } else {
      RedisPlainOps(r, op, b);
    }
  }

  // ---- What Redis keeps to itself ----

  lemma HonestKept(r: Redis, op: Op, used: set<FamilyId>, b: Bounds)
    requires Honest(r, used)
    requires op.Issue? ==> op.family !in used
    ensures Honest(OnRedis(r, op, b).0, used + if op.Issue? then {op.family} else {})
  {
  }

  lemma RotatingKeepsIndexed(r: Redis, token: Token, next: Secret, now: nat, b: Bounds)
    requires Indexed(r, now, b)
    ensures Indexed(RedisRotate(r, token, next, now, b).0, now, b)
  {
    if token.Handle? && token.family in r.hashes {
      var f, fam := token.family, r.hashes[token.family].family;
      DeletingKeepsIndexed(r, f, fam.user, now, b);
      if !fam.Expired(now, b) && fam.current == token.secret {
        var q := RedisRotate(r, token, next, now, b).0;
        assert q.index == r.index && q.hashes[f].expireAt == r.hashes[f].expireAt;
        assert forall g :: g in q.hashes && g != f ==> g in r.hashes && q.hashes[g] == r.hashes[g];
      }
    }
  }

  lemma ExpiringKeepsIndexed(r: Redis, user: UserId, now: nat, b: Bounds)
    requires Indexed(r, now, b)
    ensures Indexed(ReapIndex(r, user, now), now, b)
  {
  }

  lemma RevokingKeepsIndexed(r: Redis, user: UserId, now: nat, b: Bounds)
    requires Indexed(r, now, b)
    ensures Indexed(RevokeUserScript(r, user), now, b)
  {
  }

  lemma ReapingKeepsIndexed(r: Redis, f: FamilyId, now: nat, b: Bounds)
    requires Indexed(r, now, b)
    ensures Indexed(ReapHash(r, f, now), now, b)
  {
  }

  lemma ForgettingKeepsIndexed(r: Redis, token: Token, now: nat, b: Bounds)
    requires Indexed(r, now, b)
    ensures Indexed(RedisRevoke(r, token), now, b)
  {
    if token.Handle? && token.family in r.hashes {
      DeletingKeepsIndexed(r, token.family, r.hashes[token.family].family.user, now, b);
    }
  }

  lemma PruningKeepsIndexed(r: Redis, user: UserId, now: nat, b: Bounds)
    requires Indexed(r, now, b)
    ensures Indexed(RedisPrune(r, user), now, b)
  {
    if user in r.index {
      RemovingMembersKeepsIndexed(r, user, (set f | f in r.index[user].members && f !in r.hashes), now, b);
    }
  }

  lemma IndexedKept(r: Redis, op: Op, b: Bounds)
    requires Indexed(r, op.now, b)
    ensures Indexed(OnRedis(r, op, b).0, op.now, b)
  {
    match op {
      case Issue(f, user, tv, secret, now) => IssuingKeepsIndexed(r, f, user, tv, secret, now, b);
      case Rotate(token, next, now) => RotatingKeepsIndexed(r, token, next, now, b);
      case Inspect(_, _) =>
      case Revoke(token, now) => ForgettingKeepsIndexed(r, token, now, b);
      case RevokeUser(user, now) => RevokingKeepsIndexed(r, user, now, b);
      case HashExpires(f, now) => ReapingKeepsIndexed(r, f, now, b);
      case IndexExpires(user, now) => ExpiringKeepsIndexed(r, user, now, b);
      case Prune(user, now) => PruningKeepsIndexed(r, user, now, b);
    }
  }

  // ---- The refinement ----

  lemma StepSimulates(m: Families, r: Redis, op: Op, now: nat, used: set<FamilyId>, b: Bounds)
    requires Live(m, now, b) == Abstraction(r, now, b) && now <= op.now
    requires Indexed(r, now, b) && Honest(r, used) && (op.Issue? ==> op.family !in used)
    ensures InProcess(m, op, b).1 == OnRedis(r, op, b).1
    ensures Live(InProcess(m, op, b).0, op.now, b) == Abstraction(OnRedis(r, op, b).0, op.now, b)
    ensures Indexed(OnRedis(r, op, b).0, op.now, b)
  {
    LiveLater(m, now, op.now, b);
    LiveLater(Stored(r), now, op.now, b);
    MapThroughView(m, op, b);
    MapThroughView(Stored(r), op, b);
    IndexedLater(r, now, op.now, b);
    RedisThroughView(r, op, used, b);
    IndexedKept(r, op, b);
  }

  lemma {:induction false} RunSimulates(m: Families, r: Redis, ops: seq<Op>, now: nat, used: set<FamilyId>, b: Bounds)
    requires Live(m, now, b) == Abstraction(r, now, b)
    requires Indexed(r, now, b) && Honest(r, used) && Admissible(ops, now, used)
    ensures MapAnswers(m, ops, b) == RedisAnswers(r, ops, b)
    decreases |ops|
  {
    if ops != [] {
      var op := ops[0];
      StepSimulates(m, r, op, now, used, b);
      HonestKept(r, op, used, b);
      RunSimulates(InProcess(m, op, b).0, OnRedis(r, op, b).0, ops[1..], op.now,
                   used + (if op.Issue? then {op.family} else {}), b);
    }
  }

  /** From empty stores, under one fixed policy, the backends cannot be told apart by any
      answer, however keys expire in between. */
  lemma RedisRefinesInProcess(ops: seq<Op>, b: Bounds)
    requires Admissible(ops, 0, {})
    ensures RedisAnswers(Redis(map[], map[]), ops, b) == MapAnswers(map[], ops, b)
  {
    RunSimulates(map[], Redis(map[], map[]), ops, 0, {}, b);
  }

  // ---- A reuse verdict in process ----

  /** Whatever is asked of a family that is gone is refused, in whatever order the clocks of
      the tasks asking were read. */
  lemma {:induction false} GoneIsRefused(m: Families, ops: seq<Op>, b: Bounds, f: FamilyId, i: nat)
    requires f !in m && forall k :: 0 <= k < |ops| && ops[k].Issue? ==> ops[k].family != f
    requires i < |ops| && (ops[i].Rotate? || ops[i].Inspect?)
    requires ops[i].token.Handle? && ops[i].token.family == f
    ensures |MapAnswers(m, ops, b)| > i
    ensures MapAnswers(m, ops, b)[i] == if ops[i].Rotate? then Refused else Invalid
    decreases |ops|
  {
    if i > 0 {
      var n := InProcess(m, ops[0], b).0;
      assert f !in n;
      GoneIsRefused(n, ops[1..], b, f, i - 1);
    }
  }

  /** In process the verdict on a rotated-out secret and the wipe are one critical section:
      once a rotation has met reuse, every later rotation and inspection of that family is
      refused, by whichever of any number of tasks and at any reading, where over Redis the
      current secret may still rotate before the wipe. */
  lemma ReuseVerdictIsFinal(m: Families, f: FamilyId, stale: Secret, next: Secret, now: nat, b: Bounds,
                            ops: seq<Op>, i: nat)
    requires MapInspect(m, Handle(f, stale), now, b).Reuse?
    requires forall k :: 0 <= k < |ops| && ops[k].Issue? ==> ops[k].family != f
    requires i < |ops| && (ops[i].Rotate? || ops[i].Inspect?)
    requires ops[i].token.Handle? && ops[i].token.family == f
    ensures var (after, verdict) := InProcess(m, Rotate(Handle(f, stale), next, now), b);
            && verdict == Refused && after == m - {f}
            && |MapAnswers(after, ops, b)| > i
            && MapAnswers(after, ops, b)[i] == if ops[i].Rotate? then Refused else Invalid
  {
    GoneIsRefused(m - {f}, ops, b, f, i);
  }
}
