/** The refresh-token family store and its two backends: a map behind a mutex, and Redis
    hashes with a per-user index, scripts and key expiry. Families, secrets and session ids
    are minted fresh by the caller. */
module RefreshStore {
  import opened Results

  type UserId = nat
  type FamilyId = nat
  type Secret = nat

  datatype Bounds = Bounds(ttl: nat, maxSession: nat, idle: nat)

  /** A presented handle, `<family>.<secret>`, or text without a dot. */
  datatype Token = Malformed | Handle(family: FamilyId, secret: Secret)

  datatype Family = Family(
    user: UserId, current: Secret, prev: Option<Secret>, tokenVersion: nat,
    expiresAt: nat, absoluteExpiresAt: nat, lastSeen: nat)
  {
    /** The absolute cap, the idle timeout (0 is off) and the sliding window. */
    predicate Expired(now: nat, b: Bounds) {
      || now >= absoluteExpiresAt
      || (b.idle != 0 && now - lastSeen > b.idle)
      || now >= expiresAt
    }

    function Rotated(next: Secret, now: nat, b: Bounds): Family {
      this.(prev := Some(current), current := next, expiresAt := now + b.ttl, lastSeen := now)
    }
  }

  type Families = map<FamilyId, Family>

  datatype Answer =
    | Done
    | Refused
    | RotatedTo(tokenVersion: nat, family: FamilyId, secret: Secret, expiresAt: nat)
    | Current(user: UserId)
    | Reuse(user: UserId)
    | Invalid

  function NewFamily(user: UserId, tokenVersion: nat, secret: Secret, now: nat, b: Bounds): Family {
    Family(user, secret, None, tokenVersion, now + b.ttl, now + b.maxSession, now)
  }

  function Classify(fam: Family, secret: Secret, now: nat, b: Bounds): Answer {
    if fam.Expired(now, b) then Invalid
    else if fam.current == secret then Current(fam.user)
    else if fam.prev == Some(secret) then Reuse(fam.user)
    else Invalid
  }

  // ---- In process ----

  function MapRotate(m: Families, t: Token, next: Secret, now: nat, b: Bounds): (Families, Answer) {
    if t.Malformed? || t.family !in m then (m, Refused)
    else
      var fam := m[t.family];
      if fam.Expired(now, b) then (m - {t.family}, Refused)
      else if fam.current == t.secret then
        (m[t.family := fam.Rotated(next, now, b)], RotatedTo(fam.tokenVersion, t.family, next, now + b.ttl))
      else if fam.prev == Some(t.secret) then (m - {t.family}, Refused)
      else (m, Refused)
  }

  function MapInspect(m: Families, t: Token, now: nat, b: Bounds): Answer {
    if t.Malformed? || t.family !in m then Invalid else Classify(m[t.family], t.secret, now, b)
  }

  function MapRevokeUser(m: Families, user: UserId): Families {
    map f | f in m && m[f].user != user :: m[f]
  }

  /** Reuse detection: the secret a rotation replaced, shown again while the family lives, is
      told from the current one, and spending it ends the family for both holders. */
  lemma ReplacedSecretEndsFamily(m: Families, f: FamilyId, secret: Secret, next: Secret, now: nat, later: nat,
                                 b: Bounds, any: Secret)
    requires MapRotate(m, Handle(f, secret), next, now, b).1.RotatedTo? && secret != next
    requires var n := MapRotate(m, Handle(f, secret), next, now, b).0; !n[f].Expired(later, b)
    ensures var n := MapRotate(m, Handle(f, secret), next, now, b).0;
            && MapInspect(n, Handle(f, next), later, b) == Current(m[f].user)
            && MapInspect(n, Handle(f, secret), later, b) == Reuse(m[f].user)
            && var (gone, answer) := MapRotate(n, Handle(f, secret), any, later, b);
               && answer == Refused && gone == n - {f}
               && forall shown: Secret :: MapInspect(gone, Handle(f, shown), later, b) == Invalid
  {
  }

  /** It reaches one rotation back, exactly: of a live family's secrets only the current one
      and the one it replaced are recognised, and any other changes nothing. */
  lemma ReuseReachesOneRotation(m: Families, f: FamilyId, s0: Secret, s1: Secret, s2: Secret, now: nat, b: Bounds,
                                shown: Secret, any: Secret)
    requires MapRotate(m, Handle(f, s0), s1, now, b).1.RotatedTo? && s0 != s1 && s1 != s2 && s0 != s2
    requires var n := MapRotate(m, Handle(f, s0), s1, now, b).0; MapRotate(n, Handle(f, s1), s2, now, b).1.RotatedTo?
    requires b.ttl > 0
    ensures var n := MapRotate(MapRotate(m, Handle(f, s0), s1, now, b).0, Handle(f, s1), s2, now, b).0;
            && (MapInspect(n, Handle(f, shown), now, b).Current? <==> shown == s2)
            && (MapInspect(n, Handle(f, shown), now, b).Reuse? <==> shown == s1)
            && (shown != s1 && shown != s2 ==> MapRotate(n, Handle(f, shown), any, now, b) == (n, Refused))
            && MapInspect(n, Handle(f, s0), now, b) == Invalid
  {
  }

  class InProcessRefreshStore {
    var families: Families

    constructor ()
      ensures families == map[]
    {
      families := map[];
    }

    method Issue(family: FamilyId, user: UserId, tokenVersion: nat, secret: Secret, now: nat, b: Bounds)
      returns (expiresAt: nat)
      modifies this
      ensures families == old(families)[family := NewFamily(user, tokenVersion, secret, now, b)]
      ensures expiresAt == now + b.ttl
    {
      expiresAt := now + b.ttl;
      families := families[family := Family(user, secret, None, tokenVersion, expiresAt, now + b.maxSession, now)];
    }

    method Rotate(t: Token, next: Secret, now: nat, b: Bounds) returns (a: Answer)
      modifies this
      ensures (families, a) == MapRotate(old(families), t, next, now, b)
    {
      if t.Malformed? || t.family !in families {
        return Refused;
      }
      var fam := families[t.family];
      if fam.Expired(now, b) {
        families := families - {t.family};
        return Refused;
      }
      if fam.current == t.secret {
        var expiresAt := now + b.ttl;
        fam := fam.(prev := Some(fam.current), current := next);
        fam := fam.(expiresAt := expiresAt, lastSeen := now);
        families := families[t.family := fam];
        return RotatedTo(fam.tokenVersion, t.family, next, expiresAt);
      }
      if fam.prev == Some(t.secret) {
        // Reuse of a rotated-out secret: the family is compromised.
        families := families - {t.family};
      }
      return Refused;
    }

    method Inspect(t: Token, now: nat, b: Bounds) returns (a: Answer)
      ensures a == MapInspect(families, t, now, b)
    {
      if t.Malformed? || t.family !in families {
        return Invalid;
      }
      var fam := families[t.family];
      if fam.Expired(now, b) {
        return Invalid;
      }
      if fam.current == t.secret {
        return Current(fam.user);
      }
      return if fam.prev == Some(t.secret) then Reuse(fam.user) else Invalid;
    }

    method Revoke(t: Token)
      modifies this
      ensures families == if t.Malformed? then old(families) else old(families) - {t.family}
    {
      if t.Handle? {
        families := families - {t.family};
      }
    }

    method RevokeUser(user: UserId)
      modifies this
      ensures families == MapRevokeUser(old(families), user)
    {
      families := map f | f in families && families[f].user != user :: families[f];
    }
  }

  // ---- Redis, one atomic command at a time ----

  datatype Hash = Hash(family: Family, expireAt: nat)
  datatype Index = Index(members: set<FamilyId>, expireAt: nat)
  datatype Redis = Redis(hashes: map<FamilyId, Hash>, index: map<UserId, Index>)

  datatype ScriptAnswer = ScriptOk(user: UserId, tokenVersion: nat) | ScriptReuse(user: UserId) | ScriptNil

  /** One MULTI: the hash, its expiry, the index entry and the index key's expiry. */
  function IssuePipe(r: Redis, family: FamilyId, fam: Family): Redis {
    var members := if fam.user in r.index then r.index[fam.user].members else {};
    Redis(r.hashes[family := Hash(fam, fam.absoluteExpiresAt)],
          r.index[fam.user := Index(members + {family}, fam.absoluteExpiresAt)])
  }

  /** The rotate script: HSET keeps the key's expiry, and a reuse verdict changes nothing;
      its caller wipes the family in a command of its own. */
  function RotateScript(r: Redis, family: FamilyId, secret: Secret, next: Secret, now: nat, b: Bounds)
    : (Redis, ScriptAnswer)
  {
    if family !in r.hashes then (r, ScriptNil)
    else
      var fam := r.hashes[family].family;
      if fam.Expired(now, b) then (r.(hashes := r.hashes - {family}), ScriptNil)
      else if fam.current == secret then
        (r.(hashes := r.hashes[family := r.hashes[family].(family := fam.Rotated(next, now, b))]),
         ScriptOk(fam.user, fam.tokenVersion))
      else if fam.prev == Some(secret) then (r, ScriptReuse(fam.user))
      else (r, ScriptNil)
  }

  /** SREM; a set left empty is deleted, and its expiry with it. */
  function RemoveMembers(r: Redis, user: UserId, gone: set<FamilyId>): Redis {
    if user !in r.index then r
    else
      var members := r.index[user].members - gone;
      if members == {} then r.(index := r.index - {user})
      else r.(index := r.index[user := r.index[user].(members := members)])
  }

  function DeleteFamily(r: Redis, family: FamilyId, user: UserId): Redis {
    RemoveMembers(r.(hashes := r.hashes - {family}), user, {family})
  }

  function RevokeUserScript(r: Redis, user: UserId): Redis {
    if user !in r.index then r
    else Redis(r.hashes - r.index[user].members, r.index - {user})
  }

  /** A key at or past its expiry may be gone, whenever the server gets round to it. */
  function ReapHash(r: Redis, family: FamilyId, now: nat): Redis {
    if family in r.hashes && now >= r.hashes[family].expireAt then r.(hashes := r.hashes - {family}) else r
  }

  function ReapIndex(r: Redis, user: UserId, now: nat): Redis {
    if user in r.index && now >= r.index[user].expireAt then r.(index := r.index - {user}) else r
  }

  function RedisRotate(r: Redis, t: Token, next: Secret, now: nat, b: Bounds): (Redis, Answer) {
    if t.Malformed? then (r, Refused)
    else
      var (after, verdict) := RotateScript(r, t.family, t.secret, next, now, b);
      match verdict
      case ScriptOk(_, tokenVersion) => (after, RotatedTo(tokenVersion, t.family, next, now + b.ttl))
      case ScriptReuse(user) => (DeleteFamily(after, t.family, user), Refused)
      case ScriptNil => (after, Refused)
  }

  function RedisInspect(r: Redis, t: Token, now: nat, b: Bounds): Answer {
    if t.Malformed? || t.family !in r.hashes then Invalid
    else Classify(r.hashes[t.family].family, t.secret, now, b)
  }

  function RedisRevoke(r: Redis, t: Token): Redis {
    if t.Malformed? || t.family !in r.hashes then r else DeleteFamily(r, t.family, r.hashes[t.family].family.user)
  }

  /** Listing drops index entries whose hash has expired away. */
  function RedisPrune(r: Redis, user: UserId): Redis {
    if user !in r.index then r
    else RemoveMembers(r, user, set f | f in r.index[user].members && f !in r.hashes)
  }

  class RedisRefreshStore {
    var db: Redis

    constructor ()
      ensures db == Redis(map[], map[])
    {
      db := Redis(map[], map[]);
    }

    method Issue(family: FamilyId, user: UserId, tokenVersion: nat, secret: Secret, now: nat, b: Bounds)
      returns (expiresAt: nat)
      modifies this
      ensures db == IssuePipe(old(db), family, NewFamily(user, tokenVersion, secret, now, b))
      ensures expiresAt == now + b.ttl
    {
      expiresAt := now + b.ttl;
      var absolute := now + b.maxSession;
      var fam := Family(user, secret, None, tokenVersion, expiresAt, absolute, now);
      db := db.(hashes := db.hashes[family := Hash(fam, absolute)]);
      var members := if user in db.index then db.index[user].members else {};
      db := db.(index := db.index[user := Index(members + {family}, absolute)]);
    }

    method Rotate(t: Token, next: Secret, now: nat, b: Bounds) returns (a: Answer)
      modifies this
      ensures (db, a) == RedisRotate(old(db), t, next, now, b)
    {
      if t.Malformed? {
        return Refused;
      }
      var (after, verdict) := RotateScript(db, t.family, t.secret, next, now, b);
      db := after;
      match verdict {
        case ScriptOk(_, tokenVersion) => return RotatedTo(tokenVersion, t.family, next, now + b.ttl);
        case ScriptReuse(user) =>
          db := DeleteFamily(db, t.family, user);
          return Refused;
        case ScriptNil => return Refused;
      }
    }

    method Inspect(t: Token, now: nat, b: Bounds) returns (a: Answer)
      ensures a == RedisInspect(db, t, now, b)
    {
      if t.Malformed? || t.family !in db.hashes {
        return Invalid;
      }
      var fam := db.hashes[t.family].family;
      if fam.Expired(now, b) {
        return Invalid;
      }
      if fam.current == t.secret {
        return Current(fam.user);
      }
      return if fam.prev == Some(t.secret) then Reuse(fam.user) else Invalid;
    }

    method Revoke(t: Token)
      modifies this
      ensures db == RedisRevoke(old(db), t)
    {
      if t.Handle? && t.family in db.hashes {
        db := DeleteFamily(db, t.family, db.hashes[t.family].family.user);
      }
    }

    method RevokeUser(user: UserId)
      modifies this
      ensures db == RevokeUserScript(old(db), user)
    {
      db := RevokeUserScript(db, user);
    }
  }
}
