/** Redis commands of many tasks interleaved one at a time. A task reads its clock before it
    sends, so commands land in any order of their readings; the server keeps a clock of its
    own, and a key past its expiry does not exist for any command. */
module RedisInterleavings {
  import opened RefreshStore

  /** What the server shows, its clock in milliseconds, whom each family id was ever issued
      to, and the families some listing task has found missing and may still prune. */
  datatype World = World(r: Redis, now: nat, issued: map<FamilyId, UserId>, missing: set<FamilyId>)

  /** One atomic command. `read` is the second its sender's clock showed, which need not be
      the server's. Rotation's reuse verdict and the wipe that follows it, and the lookup and
      the delete of a revocation, are commands of their own. */
  datatype Command =
    | Tick(to: nat)
    | Issues(family: FamilyId, user: UserId, tokenVersion: nat, secret: Secret, read: nat)
    | Rotates(family: FamilyId, secret: Secret, next: Secret, read: nat)
    | Deletes(family: FamilyId, user: UserId)
    | FindsMissing(family: FamilyId)
    | Prunes(user: UserId, families: set<FamilyId>)
    | RevokesUser(user: UserId)

  /** Keys expire once the clock has passed them, whole seconds against milliseconds. */
  function Unexpired(r: Redis, now: nat): Redis {
    Redis(map f | f in r.hashes && now <= 1000 * r.hashes[f].expireAt :: r.hashes[f],
          map u | u in r.index && now <= 1000 * r.index[u].expireAt :: r.index[u])
  }

  function Apply(w: World, c: Command, b: Bounds): World {
    match c
    case Tick(to) =>
      var now := if to > w.now then to else w.now;
      w.(now := now, r := Unexpired(w.r, now))
    case Issues(family, user, tokenVersion, secret, read) =>
      if family in w.issued then w
      else
        var fam := NewFamily(user, tokenVersion, secret, read, b);
        w.(r := Unexpired(IssuePipe(w.r, family, fam), w.now), issued := w.issued[family := user])
    case Rotates(family, secret, next, read) => w.(r := RotateScript(w.r, family, secret, next, read, b).0)
    case Deletes(family, user) => w.(r := DeleteFamily(w.r, family, user))
    case FindsMissing(family) =>
      if family in w.issued && family !in w.r.hashes then w.(missing := w.missing + {family}) else w
    case Prunes(user, families) =>
      if families <= w.missing then w.(r := RemoveMembers(w.r, user, families)) else w
    case RevokesUser(user) => w.(r := RevokeUserScript(w.r, user))
  }

  function Run(w: World, cs: seq<Command>, b: Bounds): World {
    if cs == [] then w else Apply(Run(w, cs[..|cs| - 1], b), cs[|cs| - 1], b)
  }

  /** Every family in the store is known, unexpired, and expires at its own absolute cap. */
  ghost predicate Consistent(w: World) {
    && (forall f :: f in w.r.hashes ==>
          && w.now <= 1000 * w.r.hashes[f].expireAt
          && w.r.hashes[f].expireAt == w.r.hashes[f].family.absoluteExpiresAt
          && f in w.issued && w.r.hashes[f].family.user == w.issued[f])
    && (forall f :: f in w.missing ==> f in w.issued && f !in w.r.hashes)
  }

  ghost predicate Listed(w: World, f: FamilyId)
    requires f in w.r.hashes
  {
    var user := w.r.hashes[f].family.user;
    user in w.r.index && f in w.r.index[user].members
  }

  ghost predicate Covered(w: World, f: FamilyId)
    requires f in w.r.hashes
  {
    Listed(w, f) && w.r.hashes[f].expireAt <= w.r.index[w.r.hashes[f].family.user].expireAt
  }

  /** Each family in the store is in its owner's index, which outlives it. */
  ghost predicate NoOrphan(w: World) {
    forall f :: f in w.r.hashes ==> Covered(w, f)
  }

  /** The new family's cap is no earlier than those of its owner's families in the store. */
  ghost predicate LandsInOrder(w: World, c: Command, b: Bounds) {
    c.Issues? && c.family !in w.issued ==>
      forall f :: f in w.r.hashes && w.r.hashes[f].family.user == c.user ==>
        w.r.hashes[f].family.absoluteExpiresAt <= c.read + b.maxSession
  }

  lemma IssueKeepsConsistent(w: World, c: Command, b: Bounds)
    requires Consistent(w) && c.Issues?
    ensures Consistent(Apply(w, c, b))
  {
  }

  lemma RotateKeepsConsistent(w: World, c: Command, b: Bounds)
    requires Consistent(w) && c.Rotates?
    ensures Consistent(Apply(w, c, b))
  {
  }

  lemma RemovalKeepsConsistent(w: World, r: Redis)
    requires Consistent(w)
    requires forall f :: f in r.hashes ==> f in w.r.hashes && r.hashes[f] == w.r.hashes[f]
    ensures Consistent(w.(r := r))
  {
  }

  lemma StepKeepsConsistent(w: World, c: Command, b: Bounds)
    requires Consistent(w)
    ensures Consistent(Apply(w, c, b))
  {
    match c {
      case Tick(_) =>
      case FindsMissing(_) =>
      case Issues(_, _, _, _, _) => IssueKeepsConsistent(w, c, b);
      case Rotates(_, _, _, _) => RotateKeepsConsistent(w, c, b);
      case _ => RemovalKeepsConsistent(w, Apply(w, c, b).r);
    }
  }

  // ---- Which runs keep every family indexed ----

  lemma PruningKeepsNoOrphan(w: World, user: UserId, gone: set<FamilyId>)
    requires NoOrphan(w) && gone !! w.r.hashes.Keys
    ensures NoOrphan(w.(r := RemoveMembers(w.r, user, gone)))
  {
    var v := w.(r := RemoveMembers(w.r, user, gone));
    forall f | f in v.r.hashes ensures Covered(v, f) {
      assert Covered(w, f) && f !in gone;
      if w.r.hashes[f].family.user == user {
        assert f in w.r.index[user].members - gone;
      }
    }
  }

  lemma HashRemovalKeepsNoOrphan(w: World, gone: set<FamilyId>)
    requires NoOrphan(w)
    ensures NoOrphan(w.(r := w.r.(hashes := w.r.hashes - gone)))
  {
    var v := w.(r := w.r.(hashes := w.r.hashes - gone));
    forall f | f in v.r.hashes ensures Covered(v, f) {
      assert Covered(w, f);
    }
  }

  lemma RotateKeepsNoOrphan(w: World, c: Command, b: Bounds)
    requires NoOrphan(w) && c.Rotates?
    ensures NoOrphan(Apply(w, c, b))
  {
    var v := Apply(w, c, b);
    forall f | f in v.r.hashes ensures Covered(v, f) {
      assert Covered(w, f);
    }
  }

  lemma RevokeUserKeepsNoOrphan(w: World, user: UserId)
    requires Consistent(w) && NoOrphan(w)
    ensures NoOrphan(w.(r := RevokeUserScript(w.r, user)))
  {
    var v := w.(r := RevokeUserScript(w.r, user));
    forall f | f in v.r.hashes ensures Covered(v, f) {
      assert Covered(w, f);
    }
  }

  /** An index outlives the families it covers, so time alone orphans nothing. */
  lemma TickKeepsNoOrphan(w: World, to: nat, b: Bounds)
    requires NoOrphan(w)
    ensures NoOrphan(Apply(w, Tick(to), b))
  {
    var v := Apply(w, Tick(to), b);
    forall f | f in v.r.hashes ensures Covered(v, f) {
      assert Covered(w, f);
    }
  }

  lemma OthersKeepNoOrphan(w: World, c: Command, b: Bounds)
    requires Consistent(w) && NoOrphan(w) && !c.Issues?
    ensures NoOrphan(Apply(w, c, b))
  {
    match c {
      case Tick(to) => TickKeepsNoOrphan(w, to, b);
      case Rotates(_, _, _, _) => RotateKeepsNoOrphan(w, c, b);
      case Deletes(family, user) =>
        HashRemovalKeepsNoOrphan(w, {family});
        PruningKeepsNoOrphan(w.(r := w.r.(hashes := w.r.hashes - {family})), user, {family});
      case Prunes(user, families) =>
        if families <= w.missing {
          PruningKeepsNoOrphan(w, user, families);
        }
      case RevokesUser(user) => RevokeUserKeepsNoOrphan(w, user);
      case FindsMissing(_) =>
        forall f | f in w.r.hashes ensures Covered(Apply(w, c, b), f) {
          assert Covered(w, f);
        }
    }
  }

  /** An issue keeps the index covering exactly when the new family's cap is no earlier than
      its owner's others: EXPIREAT overwrites the index key's expiry, so an issue that lands
      after one with a later reading, or under a shorter `maxSession`, cuts it short. */
  lemma IssueCoversExactly(w: World, c: Command, b: Bounds)
    requires Consistent(w) && NoOrphan(w) && c.Issues? && c.family !in w.issued
    ensures NoOrphan(Apply(w, c, b)) <==>
            forall f :: f in w.r.hashes && w.r.hashes[f].family.user == c.user ==>
              w.r.hashes[f].family.absoluteExpiresAt <= c.read + b.maxSession
  {
    var v := Apply(w, c, b);
    forall f | f in w.r.hashes
      ensures f in v.r.hashes && v.r.hashes[f] == w.r.hashes[f]
      ensures Covered(v, f) <==>
              (w.r.hashes[f].family.user == c.user ==>
                 w.r.hashes[f].family.absoluteExpiresAt <= c.read + b.maxSession)
    {
      assert Covered(w, f);
    }
    assert c.family in v.r.hashes ==> Covered(v, c.family);
    assert v.r.hashes.Keys <= w.r.hashes.Keys + {c.family};
  }

  lemma StepCoversExactly(w: World, c: Command, b: Bounds)
    requires Consistent(w) && NoOrphan(w)
    ensures NoOrphan(Apply(w, c, b)) <==> LandsInOrder(w, c, b)
  {
    if !c.Issues? {
      OthersKeepNoOrphan(w, c, b);
    } else if c.family !in w.issued {
      IssueCoversExactly(w, c, b);
    }
  }

  ghost predicate InOrder(w: World, cs: seq<Command>, b: Bounds) {
    cs != [] ==> InOrder(w, cs[..|cs| - 1], b) && LandsInOrder(Run(w, cs[..|cs| - 1], b), cs[|cs| - 1], b)
  }

  ghost predicate NeverOrphans(w: World, cs: seq<Command>, b: Bounds) {
    NoOrphan(Run(w, cs, b)) && (cs != [] ==> NeverOrphans(w, cs[..|cs| - 1], b))
  }

  /** A run of any interleaving keeps every family indexed at every command exactly when
      each of its issues lands in the order of its owner's caps. */
  lemma {:induction false} NoOrphanExactly(w: World, cs: seq<Command>, b: Bounds)
    requires Consistent(w) && NoOrphan(w)
    ensures Consistent(Run(w, cs, b))
    ensures NeverOrphans(w, cs, b) <==> InOrder(w, cs, b)
    decreases |cs|
  {
    if cs != [] {
      NoOrphanExactly(w, cs[..|cs| - 1], b);
      var v := Run(w, cs[..|cs| - 1], b);
      StepKeepsConsistent(v, cs[|cs| - 1], b);
      if InOrder(w, cs[..|cs| - 1], b) {
        assert NoOrphan(v);
        StepCoversExactly(v, cs[|cs| - 1], b);
      }
    }
  }

  /** The latest reading a user was issued a family under. */
  function LatestRead(cs: seq<Command>, user: UserId): nat {
    if cs == [] then 0
    else
      var c, earlier := cs[|cs| - 1], LatestRead(cs[..|cs| - 1], user);
      if c.Issues? && c.user == user && c.read > earlier then c.read else earlier
  }

  /** Each user's issues land in the order of their readings. */
  predicate ReadingsInOrder(cs: seq<Command>) {
    cs != [] ==>
      && ReadingsInOrder(cs[..|cs| - 1])
      && var c := cs[|cs| - 1]; c.Issues? ==> LatestRead(cs[..|cs| - 1], c.user) <= c.read
  }

  lemma StepCapped(w: World, c: Command, b: Bounds, f: FamilyId)
    requires f in Apply(w, c, b).r.hashes
    ensures var fam := Apply(w, c, b).r.hashes[f].family;
            || (f in w.r.hashes && w.r.hashes[f].family.user == fam.user
                && w.r.hashes[f].family.absoluteExpiresAt == fam.absoluteExpiresAt)
            || (c.Issues? && c.user == fam.user && fam.absoluteExpiresAt == c.read + b.maxSession)
  {
  }

  lemma {:induction false} CappedByReadings(w: World, cs: seq<Command>, b: Bounds, f: FamilyId)
    requires w.r.hashes == map[] && f in Run(w, cs, b).r.hashes
    ensures var fam := Run(w, cs, b).r.hashes[f].family;
            fam.absoluteExpiresAt <= LatestRead(cs, fam.user) + b.maxSession
    decreases |cs|
  {
    if cs != [] {
      var v := Run(w, cs[..|cs| - 1], b);
      StepCapped(v, cs[|cs| - 1], b, f);
      if f in v.r.hashes {
        CappedByReadings(w, cs[..|cs| - 1], b, f);
      }
    }
  }

  /** Under one session length it is enough that each user's issues land in the order of
      their readings. */
  lemma {:induction false} OrderedReadingsSuffice(w: World, cs: seq<Command>, b: Bounds)
    requires w.r.hashes == map[] && ReadingsInOrder(cs)
    ensures InOrder(w, cs, b)
    decreases |cs|
  {
    if cs != [] {
      OrderedReadingsSuffice(w, cs[..|cs| - 1], b);
      var v := Run(w, cs[..|cs| - 1], b);
      forall f | f in v.r.hashes
        ensures v.r.hashes[f].family.absoluteExpiresAt
                <= LatestRead(cs[..|cs| - 1], v.r.hashes[f].family.user) + b.maxSession
      {
        CappedByReadings(w, cs[..|cs| - 1], b, f);
      }
    }
  }

  // ---- Revocation ----

  /** Issued once, and gone. */
  predicate Dead(w: World, f: FamilyId) {
    f in w.issued && f !in w.r.hashes
  }

  lemma StepLeavesDead(w: World, c: Command, b: Bounds, f: FamilyId)
    requires Dead(w, f)
    ensures Dead(Apply(w, c, b), f)
  {
  }

  /** A family that is gone never comes back, whatever lands later and whatever it read. */
  lemma {:induction false} DeadStaysDead(w: World, cs: seq<Command>, b: Bounds, f: FamilyId)
    requires Dead(w, f)
    ensures Dead(Run(w, cs, b), f)
    decreases |cs|
  {
    if cs != [] {
      DeadStaysDead(w, cs[..|cs| - 1], b, f);
      StepLeavesDead(Run(w, cs[..|cs| - 1], b), cs[|cs| - 1], b, f);
    }
  }

  /** The revoke-user script ends a family of that user exactly when the index names it; one
      it does not name is left as it was. */
  lemma RevocationReachesExactly(w: World, user: UserId, b: Bounds, f: FamilyId)
    requires Consistent(w) && f in w.issued && w.issued[f] == user
    ensures var v := Apply(w, RevokesUser(user), b);
            && (Dead(v, f) <==> f in w.r.hashes ==> Listed(w, f))
            && (f in v.r.hashes ==> v.r.hashes[f] == w.r.hashes[f])
  {
  }

  /** With every family indexed at that instant, no family of that user issued before the
      script is ever honoured again: whatever lands afterwards, in any order, every
      inspection of it is Invalid and every rotation nil, at any reading. */
  lemma RevokedForGood(w: World, user: UserId, cs: seq<Command>, b: Bounds, f: FamilyId,
                       secret: Secret, next: Secret, read: nat)
    requires Consistent(w) && NoOrphan(w) && f in w.issued && w.issued[f] == user
    ensures var v := Run(Apply(w, RevokesUser(user), b), cs, b);
            && RedisInspect(v.r, Handle(f, secret), read, b) == Invalid
            && RotateScript(v.r, f, secret, next, read, b) == (v.r, ScriptNil)
  {
    if f in w.r.hashes {
      assert Covered(w, f);
    }
    RevocationReachesExactly(w, user, b, f);
    DeadStaysDead(Apply(w, RevokesUser(user), b), cs, b, f);
  }

  /** So it is after any run from an empty store in which each user's issues landed in the
      order of their readings. */
  lemma OrderedRunRevokes(w: World, before: seq<Command>, user: UserId, after: seq<Command>, b: Bounds,
                          f: FamilyId, secret: Secret, next: Secret, read: nat)
    requires Consistent(w) && w.r.hashes == map[] && ReadingsInOrder(before)
    requires f in Run(w, before, b).issued && Run(w, before, b).issued[f] == user
    ensures var v := Run(Apply(Run(w, before, b), RevokesUser(user), b), after, b);
            && RedisInspect(v.r, Handle(f, secret), read, b) == Invalid
            && RotateScript(v.r, f, secret, next, read, b) == (v.r, ScriptNil)
  {
    OrderedReadingsSuffice(w, before, b);
    NoOrphanExactly(w, before, b);
    RevokedForGood(Run(w, before, b), user, after, b, f, secret, next, read);
  }

  function Members(w: World, user: UserId): set<FamilyId> {
    if user in w.r.index then w.r.index[user].members else {}
  }

  /** Whom an index names after a command: an issue adds its family to its owner's, which then
      expires with it; a deletion takes one family off the index it is sent to, a pruning
      those found missing; the revoke-user script empties one; time empties those it passes;
      and no command touches any other. */
  lemma IndexMoves(w: World, c: Command, b: Bounds, user: UserId)
    requires forall u :: u in w.r.index ==> w.now <= 1000 * w.r.index[u].expireAt
    ensures var v := Apply(w, c, b);
            var until := if c.Issues? && c.family !in w.issued && c.user == user then c.read + b.maxSession
                         else if user in w.r.index then w.r.index[user].expireAt else 0;
            Members(v, user)
            == (match c
                case Tick(to) => if to > 1000 * until && to > w.now then {} else Members(w, user)
                case Issues(family, u, _, _, _) =>
                  if family in w.issued || u != user then Members(w, user)
                  else if w.now > 1000 * until then {} else Members(w, user) + {family}
                case Deletes(family, u) => if u == user then Members(w, user) - {family} else Members(w, user)
                case Prunes(u, families) =>
                  if u == user && families <= w.missing then Members(w, user) - families else Members(w, user)
                case RevokesUser(u) => if u == user then {} else Members(w, user)
                case _ => Members(w, user))
            && (user in v.r.index ==> v.r.index[user].expireAt == until)
  {
  }

  /** A listing remembers as missing exactly the issued families whose hash it did not find,
      and pruning those takes them off the index it was reading. */
  lemma ListingPrunes(w: World, user: UserId, f: FamilyId, b: Bounds)
    ensures var v := Apply(w, FindsMissing(f), b);
            && v.r == w.r && v.issued == w.issued && v.now == w.now
            && v.missing == w.missing + (if f in w.issued && f !in w.r.hashes then {f} else {})
            && (f in v.missing ==> Members(Apply(v, Prunes(user, {f}), b), user) == Members(w, user) - {f})
  {
  }

  // ---- Where the guarantees stop ----

  /** The family is in the store, and a revoke-user script would change nothing. */
  ghost predicate OutOfReach(w: World, user: UserId, f: FamilyId, fam: Family) {
    && f in w.r.hashes && w.r.hashes[f].family == fam
    && RevokeUserScript(w.r, user) == w.r
  }

  /** Once an index that expires before one of its families is gone, that family is out of
      the script's reach. */
  lemma IndexGoneFirst(w: World, user: UserId, f: FamilyId, to: nat, b: Bounds)
    requires f in w.r.hashes && user in w.r.index && w.now <= to
    requires 1000 * w.r.index[user].expireAt < to <= 1000 * w.r.hashes[f].expireAt
    ensures OutOfReach(Apply(w, Tick(to), b), user, f, w.r.hashes[f].family)
  {
    var v := Apply(w, Tick(to), b);
    assert user !in v.r.index && v.r.hashes[f] == w.r.hashes[f];
  }

  lemma IssueLands(w: World, f: FamilyId, user: UserId, version: nat, s: Secret, read: nat, b: Bounds)
    requires Consistent(w) && f !in w.issued && w.now <= 1000 * (read + b.maxSession)
    ensures var v := Apply(w, Issues(f, user, version, s, read), b);
            && v.now == w.now && v.issued == w.issued[f := user]
            && v.r.hashes == w.r.hashes[f := Hash(NewFamily(user, version, s, read, b), read + b.maxSession)]
            && user in v.r.index && v.r.index[user].expireAt == read + b.maxSession
  {
  }

  lemma LandsAgainstReadings(w: World, g: FamilyId, f: FamilyId, user: UserId, version: nat,
                             s: Secret, s': Secret, early: nat, late: nat, b: Bounds)
    requires Consistent(w) && g !in w.issued && f !in w.issued && g != f
    requires early < late && w.now <= 1000 * (early + b.maxSession)
    ensures var v := Apply(Apply(w, Issues(g, user, version, s, late), b), Issues(f, user, version, s', early), b);
            && v.now == w.now && g in v.r.hashes && user in v.r.index
            && v.r.hashes[g] == Hash(NewFamily(user, version, s, late, b), late + b.maxSession)
            && v.r.index[user].expireAt == early + b.maxSession
            && !NoOrphan(v)
  {
    var u := Apply(w, Issues(g, user, version, s, late), b);
    IssueLands(w, g, user, version, s, late, b);
    IssueKeepsConsistent(w, Issues(g, user, version, s, late), b);
    IssueLands(u, f, user, version, s', early, b);
    var v := Apply(u, Issues(f, user, version, s', early), b);
    assert !Covered(v, g);
  }

  lemma NewFamilyIsHonoured(r: Redis, f: FamilyId, user: UserId, version: nat, s: Secret, next: Secret,
                            issued: nat, read: nat, b: Bounds)
    requires f in r.hashes && r.hashes[f].family == NewFamily(user, version, s, issued, b)
    requires read < issued + b.maxSession && read < issued + b.ttl && (b.idle == 0 || read <= issued + b.idle)
    ensures RedisInspect(r, Handle(f, s), read, b) == Current(user)
    ensures RotateScript(r, f, s, next, read, b).1.ScriptOk?
  {
  }

  /** A second after its index's expiry a new family is out of reach, and honoured if its
      sliding window and idle timeout still allow. */
  lemma HonouredOutOfReach(v: World, g: FamilyId, user: UserId, version: nat, s: Secret, next: Secret,
                           late: nat, end: nat, b: Bounds)
    requires g in v.r.hashes && user in v.r.index && v.now <= 1000 * end
    requires v.r.hashes[g] == Hash(NewFamily(user, version, s, late, b), late + b.maxSession)
    requires v.r.index[user].expireAt == end < late + b.maxSession
    ensures var x := Apply(v, Tick(1000 * end + 1), b);
            && OutOfReach(x, user, g, NewFamily(user, version, s, late, b))
            && (end < late + b.ttl && (b.idle == 0 || end <= late + b.idle) ==>
                  && RedisInspect(x.r, Handle(g, s), end, b) == Current(user)
                  && RotateScript(x.r, g, s, next, end, b).1.ScriptOk?)
  {
    IndexGoneFirst(v, user, g, 1000 * end + 1, b);
    if end < late + b.ttl && (b.idle == 0 || end <= late + b.idle) {
      NewFamilyIsHonoured(Apply(v, Tick(1000 * end + 1), b).r, g, user, version, s, next, late, end, b);
    }
  }

  /** Two sign-ins of one user whose commands land against the order of their readings, under
      any bounds and over any store: the second moves the index's expiry back, the index is
      gone before the first family is, and a revoke-user script sent then changes nothing. If
      its sliding window and idle timeout still allow, the first family is inspected Current
      and rotates after it. */
  lemma OutOfOrderOutlivesRevocation(w: World, g: FamilyId, f: FamilyId, user: UserId, version: nat,
                                     s: Secret, s': Secret, next: Secret, early: nat, late: nat, b: Bounds)
    requires Consistent(w) && g !in w.issued && f !in w.issued && g != f
    requires early < late && 1000 * late <= w.now <= 1000 * (early + b.maxSession)
    ensures var v := Apply(Apply(w, Issues(g, user, version, s, late), b), Issues(f, user, version, s', early), b);
            var end := early + b.maxSession;
            var x := Apply(v, Tick(1000 * end + 1), b);
            && !NoOrphan(v)
            && OutOfReach(x, user, g, NewFamily(user, version, s, late, b))
            && (end < late + b.ttl && (b.idle == 0 || end <= late + b.idle) ==>
                  && RedisInspect(x.r, Handle(g, s), end, b) == Current(user)
                  && RotateScript(x.r, g, s, next, end, b).1.ScriptOk?)
  {
    var v := Apply(Apply(w, Issues(g, user, version, s, late), b), Issues(f, user, version, s', early), b);
    LandsAgainstReadings(w, g, f, user, version, s, s', early, late, b);
    HonouredOutOfReach(v, g, user, version, s, next, late, early + b.maxSession, b);
  }

  /** Reuse detection and its wipe are two commands: whatever the verdict on a rotated-out
      secret, the current secret still rotates in between. In process both are one step, and
      the current secret is refused after it. */
  lemma ReuseVerdictLeavesWindow(r: Redis, f: FamilyId, stale: Secret, n1: Secret, n2: Secret, now: nat, b: Bounds)
    requires f in r.hashes && RotateScript(r, f, stale, n1, now, b).1.ScriptReuse?
    ensures var q := RotateScript(r, f, stale, n1, now, b).0;
            RotateScript(q, f, r.hashes[f].family.current, n2, now, b).1.ScriptOk?
    ensures var m := map[f := r.hashes[f].family];
            var n := MapRotate(m, Handle(f, stale), n1, now, b).0;
            MapRotate(n, Handle(f, r.hashes[f].family.current), n2, now, b).1 == Refused
  {
  }

  /** The window closes with the wipe: after it nothing of the family is honoured. */
  lemma WipeEndsFamily(w: World, f: FamilyId, user: UserId, cs: seq<Command>, b: Bounds, secret: Secret, read: nat)
    requires f in w.issued
    ensures var v := Run(Apply(w, Deletes(f, user), b), cs, b);
            RedisInspect(v.r, Handle(f, secret), read, b) == Invalid
  {
    DeadStaysDead(Apply(w, Deletes(f, user), b), cs, b, f);
  }
}
