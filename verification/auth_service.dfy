/** The session handlers as the code runs them, over a store and a directory, and their
    agreement with the interleaved steps. The directory answers with the account or not at
    all; what a handler then tells the relying parties is best effort, and returned here. */
module AuthServices {
  import opened Results
  import opened RefreshStore
  import opened RefreshProtocol

  datatype Reply =
    | Refreshed(tokenVersion: nat, secret: Secret)
    | InvalidToken
    | Unavailable
    | UserDisabled
    | TokensRevoked

  /** The sign-out the relying parties are told of. */
  datatype Notice = Nothing | OfFamily(user: UserId, family: FamilyId) | OfUser(user: UserId)

  /** What one refresh does to the store when nothing interrupts it, its reply, and what the
      relying parties are told. It reads the clock twice: inspecting, and rotating. */
  function Refreshing(r: Redis, accounts: map<UserId, Account>, t: Token, reachable: bool, next: Secret,
                      seen: nat, now: nat, b: Bounds): (Redis, Reply, Notice) {
    match RedisInspect(r, t, seen, b)
    case Current(user) =>
      if !reachable || user !in accounts then (r, Unavailable, Nothing)
      else if accounts[user].disabled then (RevokeUserScript(r, user), UserDisabled, OfUser(user))
      else
        var (after, answer) := RedisRotate(r, t, next, now, b);
        if !answer.RotatedTo? then (after, InvalidToken, Nothing)
        else if accounts[user].tokenVersion > answer.tokenVersion then
          (RevokeUserScript(after, user), TokensRevoked, OfUser(user))
        else (after, Refreshed(accounts[user].tokenVersion, next), Nothing)
    case Reuse(user) => (RevokeUserScript(r, user), InvalidToken, OfUser(user))
    case _ => (r, InvalidToken, Nothing)
  }

  class AuthService {
    const store: RedisRefreshStore
    const bounds: Bounds
    var accounts: map<UserId, Account>

    constructor (store: RedisRefreshStore, bounds: Bounds, accounts: map<UserId, Account>)
      ensures this.store == store && this.bounds == bounds && this.accounts == accounts
    {
      this.store, this.bounds, this.accounts := store, bounds, accounts;
    }

    method OpenSession(user: UserId, reachable: bool, family: FamilyId, secret: Secret, now: nat) returns (reply: Reply)
      modifies store
      ensures reply.Refreshed? <==> reachable && user in accounts && !accounts[user].disabled
      ensures reply.Refreshed? ==> reply == Refreshed(accounts[user].tokenVersion, secret)
                                   && var fam := NewFamily(user, reply.tokenVersion, secret, now, bounds);
                                      store.db == IssuePipe(old(store.db), family, fam)
      ensures !reply.Refreshed? ==> store.db == old(store.db)
    {
      if !reachable || user !in accounts { return Unavailable; }
      var summary := accounts[user];
      if summary.disabled { return UserDisabled; }
      var _ := store.Issue(family, user, summary.tokenVersion, secret, now, bounds);
      reply := Refreshed(summary.tokenVersion, secret);
    }

    method Refresh(t: Token, reachable: bool, next: Secret, seen: nat, now: nat) returns (reply: Reply, told: Notice)
      modifies store
      ensures (store.db, reply, told) == Refreshing(old(store.db), accounts, t, reachable, next, seen, now, bounds)
    {
      told := Nothing;
      var inspected := store.Inspect(t, seen, bounds);
      match inspected {
        case Current(user) =>
          if !reachable || user !in accounts { return Unavailable, Nothing; }
          var summary := accounts[user];
          if summary.disabled {
            told := RevokeUserEverywhere(user);
            return UserDisabled, told;
          }
          var rotated := store.Rotate(t, next, now, bounds);
          if !rotated.RotatedTo? { return InvalidToken, Nothing; }
          if summary.tokenVersion > rotated.tokenVersion {
            told := RevokeUserEverywhere(user);
            return TokensRevoked, told;
          }
          reply := Refreshed(summary.tokenVersion, next);
        case Reuse(user) =>
          told := RevokeUserEverywhere(user);
          reply := InvalidToken;
        case _ => reply := InvalidToken;
      }
    }

    method RevokeUserEverywhere(user: UserId) returns (told: Notice)
      modifies store
      ensures store.db == RevokeUserScript(old(store.db), user) && told == OfUser(user)
    {
      store.RevokeUser(user);
      told := OfUser(user);
    }

    /** Authorized on the whole handle: only the current secret ends anything, here and at the
        relying parties alike. */
    method Logout(t: Token, all: bool, bumped: bool, now: nat) returns (ok: bool, told: Notice)
      modifies this`accounts, store
      ensures ok <==> RedisInspect(old(store.db), t, now, bounds).Current?
      ensures !ok ==> store.db == old(store.db) && accounts == old(accounts) && told == Nothing
      ensures ok && all ==> var user := RedisInspect(old(store.db), t, now, bounds).user;
                store.db == RevokeUserScript(old(store.db), user) && told == OfUser(user)
      ensures ok && !all ==> store.db == RedisRevoke(old(store.db), t) && accounts == old(accounts)
                             && told == OfFamily(RedisInspect(old(store.db), t, now, bounds).user, t.family)
      ensures ok && all ==> var user := RedisInspect(old(store.db), t, now, bounds).user;
                if bumped && user in old(accounts) then
                  var was := old(accounts)[user];
                  accounts == old(accounts)[user := was.(tokenVersion := was.tokenVersion + 1)]
                else accounts == old(accounts)
    {
      var inspected := store.Inspect(t, now, bounds);
      if !inspected.Current? { return false, Nothing; }
      var user := inspected.user;
      ok := true;
      if all {
        // The bump of the token version is best effort; the families end either way.
        if bumped && user in accounts {
          accounts := accounts[user := accounts[user].(tokenVersion := accounts[user].tokenVersion + 1)];
        }
        told := RevokeUserEverywhere(user);
      } else {
        // The family's id is read before the revocation, which makes it unreadable.
        var family := if t.family in store.db.hashes then Some(t.family) else None;
        store.Revoke(t);
        told := if family.Some? then OfFamily(user, family.value) else Nothing;
      }
    }
  }

  /** A secret found current rotates unless the family has expired by the second reading. */
  lemma CurrentRotates(r: Redis, t: Token, next: Secret, seen: nat, now: nat, b: Bounds)
    requires RedisInspect(r, t, seen, b).Current?
    ensures var fam := r.hashes[t.family].family;
            RotateScript(r, t.family, t.secret, next, now, b).1
            == if fam.Expired(now, b) then ScriptNil else ScriptOk(fam.user, fam.tokenVersion)
  {
  }

  /** A handler sent to wipe a user does that, and nothing else on the way. */
  lemma WipesInARow(w: World, h: nat, user: UserId, next: Secret, reachable: bool, now: nat, b: Bounds)
    requires h in w.handlers && w.handlers[h] == MustWipeUser(user)
    ensures LooksUp(w, h, reachable) == w && Rotates(w, h, next, now, b) == w && Compares(w, h) == w
    ensures Wipes(w, h, b).store.r == RevokeUserScript(w.store.r, user)
    ensures Wipes(w, h, b).minted == w.minted && Wipes(w, h, b).handlers == w.handlers - {h}
  {
  }

  lemma RotatesInARow(w: World, h: nat, f: FamilyId, secret: Secret, user: UserId, looked: nat, snapshot: nat,
                      next: Secret, now: nat, b: Bounds)
    requires h in w.handlers && w.handlers[h] == LookedUp(f, secret, user, looked) && next !in w.secrets
    requires RotateScript(w.store.r, f, secret, next, now, b).1 == ScriptOk(user, snapshot)
    ensures var r := RotateScript(w.store.r, f, secret, next, now, b).0;
            var v := Wipes(Compares(Rotates(w, h, next, now, b), h), h, b);
            && v.handlers == w.handlers - {h}
            && v.store.r == (if looked > snapshot then RevokeUserScript(r, user) else r)
            && v.minted == (if looked > snapshot then w.minted else w.minted + [Mint(f, user, looked)])
  {
    var c := Rotates(w, h, next, now, b);
    assert c.handlers == w.handlers[h := HasRotated(f, user, looked, snapshot, next)] && c.minted == w.minted;
    if looked > snapshot {
      var d := Compares(c, h);
      assert d == Goto(c, h, MustWipeUser(user));
      WipesInARow(d, h, user, next, true, now, b);
      assert d.handlers - {h} == w.handlers - {h};
    } else {
      assert c.handlers - {h} == w.handlers - {h};
    }
  }

  /** The handler's steps one after another. */
  function StepsInARow(w: World, h: nat, t: Token, reachable: bool, next: Secret,
                       seen: nat, now: nat, b: Bounds): World {
    Wipes(Compares(Rotates(LooksUp(StartsRefresh(w, h, t, seen, b), h, reachable), h, next, now, b), h), h, b)
  }

  /** A refresh nothing interrupts is the interleaved steps taken in a row: same store, same
      mint, and no handler left behind. */
  lemma RefreshIsItsSteps(w: World, h: nat, t: Token, reachable: bool, next: Secret, seen: nat, now: nat, b: Bounds)
    requires h !in w.handlers && next !in w.secrets
    ensures var v := StepsInARow(w, h, t, reachable, next, seen, now, b);
            var (r, reply, _) := Refreshing(w.store.r, w.accounts, t, reachable, next, seen, now, b);
            && v.store.r == r && v.handlers == w.handlers
            && v.minted == if reply.Refreshed? then
                             w.minted + [Mint(t.family, RedisInspect(w.store.r, t, seen, b).user, reply.tokenVersion)]
                           else w.minted
  {
    var inspected := RedisInspect(w.store.r, t, seen, b);
    match inspected {
      case Current(user) => CurrentInARow(w, h, t, reachable, next, seen, now, b, user);
      case Reuse(user) =>
        var a := Goto(w, h, MustWipeUser(user));
        assert a.handlers - {h} == w.handlers;
        WipesInARow(a, h, user, next, reachable, now, b);
      case _ =>
    }
  }

  lemma CurrentInARow(w: World, h: nat, t: Token, reachable: bool, next: Secret, seen: nat, now: nat, b: Bounds,
                      user: UserId)
    requires h !in w.handlers && next !in w.secrets
    requires RedisInspect(w.store.r, t, seen, b) == Current(user)
    ensures var v := StepsInARow(w, h, t, reachable, next, seen, now, b);
            var (r, reply, _) := Refreshing(w.store.r, w.accounts, t, reachable, next, seen, now, b);
            && v.store.r == r && v.handlers == w.handlers
            && v.minted == if reply.Refreshed? then w.minted + [Mint(t.family, user, reply.tokenVersion)] else w.minted
  {
    var a := Goto(w, h, Inspected(t.family, t.secret, user));
    assert StartsRefresh(w, h, t, seen, b) == a;
    assert a.handlers - {h} == w.handlers;
    if reachable && user in w.accounts {
      var account := w.accounts[user];
      if account.disabled {
        var d := Goto(w, h, MustWipeUser(user));
        assert LooksUp(a, h, reachable) == d && d.handlers - {h} == w.handlers;
        WipesInARow(d, h, user, next, reachable, now, b);
      } else {
        var d := Goto(w, h, LookedUp(t.family, t.secret, user, account.tokenVersion));
        assert LooksUp(a, h, reachable) == d && d.handlers - {h} == w.handlers;
        CurrentRotates(w.store.r, t, next, seen, now, b);
        var fam := w.store.r.hashes[t.family].family;
        if fam.Expired(now, b) {
          ExpiredInARow(d, h, t.family, t.secret, user, account.tokenVersion, next, now, b);
        } else {
          RotatesInARow(d, h, t.family, t.secret, user, account.tokenVersion, fam.tokenVersion, next, now, b);
        }
      }
    } else {
      assert LooksUp(a, h, reachable) == RefreshProtocol.Done(a, h);
    }
  }

  /** A family that expired between the two readings is dropped, and nothing minted. */
  lemma ExpiredInARow(w: World, h: nat, f: FamilyId, secret: Secret, user: UserId, looked: nat, next: Secret,
                      now: nat, b: Bounds)
    requires h in w.handlers && w.handlers[h] == LookedUp(f, secret, user, looked) && next !in w.secrets
    requires RotateScript(w.store.r, f, secret, next, now, b).1 == ScriptNil
    ensures var v := Wipes(Compares(Rotates(w, h, next, now, b), h), h, b);
            && v.handlers == w.handlers - {h} && v.minted == w.minted
            && v.store.r == RotateScript(w.store.r, f, secret, next, now, b).0
  {
    var c := Rotates(w, h, next, now, b);
    assert c.handlers == w.handlers - {h};
    assert Compares(c, h) == c && Wipes(c, h, b) == c;
  }

  /** The account's current version is never behind the family's, so a refresh mints exactly
      for a live current handle, still live when rotated, of an enabled account whose version
      has not moved since the family was issued. */
  lemma RefreshesExactly(w: World, t: Token, reachable: bool, next: Secret, seen: nat, now: nat, b: Bounds)
    requires Versioned(w)
    ensures var reply := Refreshing(w.store.r, w.accounts, t, reachable, next, seen, now, b).1;
            reply.Refreshed? <==>
              && RedisInspect(w.store.r, t, seen, b).Current? && RedisInspect(w.store.r, t, now, b).Current?
              && reachable
              && var user := RedisInspect(w.store.r, t, seen, b).user;
                 && user in w.accounts && !w.accounts[user].disabled
                 && w.accounts[user].tokenVersion == w.issuedUnder[t.family]
  {
    if RedisInspect(w.store.r, t, seen, b).Current? {
      CurrentRotates(w.store.r, t, next, seen, now, b);
      var fam := w.store.r.hashes[t.family].family;
      assert IssuedTo(w, t.family, fam.user) && fam.tokenVersion == w.issuedUnder[t.family];
    }
  }

  /** What a refresh answers, and what it leaves of the store: nothing moves for a handle that
      is not current, or while the directory does not know the account; a replayed handle, a
      disabled account and a version moved on since the issue end every session of the user's
      the index names, and the relying parties are told; otherwise the handle has rotated. */
  lemma RefreshDoes(r: Redis, accounts: map<UserId, Account>, t: Token, reachable: bool, next: Secret,
                    seen: nat, now: nat, b: Bounds)
    ensures var (after, reply, told) := Refreshing(r, accounts, t, reachable, next, seen, now, b);
            var answer := RedisInspect(r, t, seen, b);
            match answer
            case Reuse(user) => reply == InvalidToken && told == OfUser(user) && Wiped(r, after, user)
            case Current(user) =>
              if !reachable || user !in accounts then reply == Unavailable && told == Nothing && after == r
              else if accounts[user].disabled then
                reply == UserDisabled && told == OfUser(user) && Wiped(r, after, user)
              else if !RedisInspect(r, t, now, b).Current? then reply == InvalidToken && told == Nothing
              else
                var rotated := RotateScript(r, t.family, t.secret, next, now, b).0;
                var moved := accounts[user].tokenVersion > r.hashes[t.family].family.tokenVersion;
                if moved then reply == TokensRevoked && told == OfUser(user) && Wiped(rotated, after, user)
                else reply == Refreshed(accounts[user].tokenVersion, next) && told == Nothing && after == rotated
            case _ => reply == InvalidToken && told == Nothing && after == r
  {
    if RedisInspect(r, t, seen, b).Current? {
      CurrentRotates(r, t, next, seen, now, b);
    }
  }

  /** Every session the user's index names is gone, and the index; nothing else has moved. */
  ghost predicate Wiped(r: Redis, after: Redis, user: UserId) {
    var named := if user in r.index then r.index[user].members else {};
    && (forall f :: f in after.hashes <==> f in r.hashes && f !in named)
    && (forall f :: f in after.hashes ==> after.hashes[f] == r.hashes[f])
    && (forall u :: u in after.index <==> u in r.index && u != user)
    && (forall u :: u in after.index ==> after.index[u] == r.index[u])
  }
}
