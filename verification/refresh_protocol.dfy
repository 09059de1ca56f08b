/** The refresh handler over the store: inspect, look the account up, rotate, compare, mint
    or wipe. Each is its own atomic step, and any number of handlers, sign-ins, logouts and
    version bumps interleave. A step that reads a clock carries its reading, whatever the
    server's says. */
module RefreshProtocol {
  import opened Results
  import opened RefreshStore
  import RI = RedisInterleavings

  datatype Account = Account(tokenVersion: nat, disabled: bool)

  /** Where a handler stands between two steps. */
  datatype Handler =
    | Opening(user: UserId, looked: nat)
    | Inspected(f: FamilyId, secret: Secret, user: UserId)
    | LookedUp(f: FamilyId, secret: Secret, user: UserId, looked: nat)
    | HasRotated(f: FamilyId, user: UserId, looked: nat, snapshot: nat, minted: Secret)
    | MustWipeUser(user: UserId)
    | MustWipeFamily(f: FamilyId, user: UserId)

  /** An access token handed out beside a refresh handle of `family`. */
  datatype Mint = Mint(family: FamilyId, user: UserId, tokenVersion: nat)

  datatype World = World(
    store: RI.World, accounts: map<UserId, Account>, handlers: map<nat, Handler>,
    issuedUnder: map<FamilyId, nat>, secrets: set<Secret>,
    rotations: seq<(FamilyId, Secret)>, minted: seq<Mint>)

  datatype Step =
    | StartSignIn(h: nat, user: UserId)
    | FinishSignIn(h: nat, f: FamilyId, secret: Secret, read: nat)
    | StartRefresh(h: nat, token: Token, read: nat)
    | Lookup(h: nat, reachable: bool)
    | Rotate(h: nat, next: Secret, read: nat)
    | Compare(h: nat)
    | Wipe(h: nat)
    | Bump(user: UserId)
    | SetDisabled(user: UserId, disabled: bool)
    | StoreCommand(c: RI.Command)

  function Done(w: World, h: nat): World {
    w.(handlers := w.handlers - {h})
  }

  function Goto(w: World, h: nat, to: Handler): World {
    w.(handlers := w.handlers[h := to])
  }

  function FinishesSignIn(w: World, h: nat, f: FamilyId, secret: Secret, read: nat, b: Bounds): World {
    if h !in w.handlers || !w.handlers[h].Opening? || f in w.store.issued || secret in w.secrets then w
    else
      var Opening(user, looked) := w.handlers[h];
      Done(w, h).(
        store := RI.Apply(w.store, RI.Issues(f, user, looked, secret, read), b),
        issuedUnder := w.issuedUnder[f := looked],
        secrets := w.secrets + {secret},
        minted := w.minted + [Mint(f, user, looked)])
  }

  function StartsRefresh(w: World, h: nat, token: Token, read: nat, b: Bounds): World {
    if h in w.handlers then w
    else
      match RedisInspect(w.store.r, token, read, b)
      case Current(user) => Goto(w, h, Inspected(token.family, token.secret, user))
      case Reuse(user) => Goto(w, h, MustWipeUser(user))
      case _ => w
  }

  function LooksUp(w: World, h: nat, reachable: bool): World {
    if h !in w.handlers || !w.handlers[h].Inspected? then w
    else
      var Inspected(f, secret, user) := w.handlers[h];
      if !reachable || user !in w.accounts then Done(w, h)
      else if w.accounts[user].disabled then Goto(w, h, MustWipeUser(user))
      else Goto(w, h, LookedUp(f, secret, user, w.accounts[user].tokenVersion))
  }

  function Rotates(w: World, h: nat, next: Secret, read: nat, b: Bounds): World {
    if h !in w.handlers || !w.handlers[h].LookedUp? || next in w.secrets then w
    else
      var LookedUp(f, secret, user, looked) := w.handlers[h];
      var verdict := RotateScript(w.store.r, f, secret, next, read, b).1;
      var v := w.(store := RI.Apply(w.store, RI.Rotates(f, secret, next, read), b));
      match verdict
      case ScriptOk(_, snapshot) =>
        Goto(v, h, HasRotated(f, user, looked, snapshot, next)).(
          secrets := v.secrets + {next},
          rotations := v.rotations + [(f, secret)])
      case ScriptReuse(owner) => Goto(v, h, MustWipeFamily(f, owner))
      case ScriptNil => Done(v, h)
  }

  function Compares(w: World, h: nat): World {
    if h !in w.handlers || !w.handlers[h].HasRotated? then w
    else
      var HasRotated(f, user, looked, snapshot, _) := w.handlers[h];
      if looked > snapshot then Goto(w, h, MustWipeUser(user))
      else Done(w, h).(minted := w.minted + [Mint(f, user, looked)])
  }

  function Wipes(w: World, h: nat, b: Bounds): World {
    if h !in w.handlers then w
    else
      match w.handlers[h]
      case MustWipeUser(user) => Done(w, h).(store := RI.Apply(w.store, RI.RevokesUser(user), b))
      case MustWipeFamily(f, user) => Done(w, h).(store := RI.Apply(w.store, RI.Deletes(f, user), b))
      case _ => w
  }

  function Apply(w: World, s: Step, b: Bounds): World {
    match s
    case StartSignIn(h, user) =>
      if h in w.handlers || user !in w.accounts || w.accounts[user].disabled then w
      else Goto(w, h, Opening(user, w.accounts[user].tokenVersion))
    case FinishSignIn(h, f, secret, read) => FinishesSignIn(w, h, f, secret, read, b)
    case StartRefresh(h, token, read) => StartsRefresh(w, h, token, read, b)
    case Lookup(h, reachable) => LooksUp(w, h, reachable)
    case Rotate(h, next, read) => Rotates(w, h, next, read, b)
    case Compare(h) => Compares(w, h)
    case Wipe(h) => Wipes(w, h, b)
    case Bump(user) =>
      var was := if user in w.accounts then w.accounts[user] else Account(0, false);
      w.(accounts := w.accounts[user := was.(tokenVersion := was.tokenVersion + 1)])
    case SetDisabled(user, disabled) =>
      if user in w.accounts then w.(accounts := w.accounts[user := w.accounts[user].(disabled := disabled)]) else w
    case StoreCommand(c) =>
      if c.Issues? || c.Rotates? then w else w.(store := RI.Apply(w.store, c, b))
  }

  function Run(w: World, steps: seq<Step>, b: Bounds): World {
    if steps == [] then w else Apply(Run(w, steps[..|steps| - 1], b), steps[|steps| - 1], b)
  }

  // ---- Token versions ----

  ghost predicate IssuedTo(w: World, f: FamilyId, user: UserId) {
    f in w.store.issued && f in w.issuedUnder && w.store.issued[f] == user
  }

  /** What a handler may believe about its family and account. */
  ghost predicate Grounded(w: World, h: Handler) {
    match h
    case Opening(user, looked) => user in w.accounts && looked <= w.accounts[user].tokenVersion
    case Inspected(f, _, user) => IssuedTo(w, f, user)
    case LookedUp(f, _, user, looked) => IssuedTo(w, f, user) && w.issuedUnder[f] <= looked
    case HasRotated(f, user, looked, snapshot, _) => IssuedTo(w, f, user) && snapshot == w.issuedUnder[f] <= looked
    case _ => true
  }

  ghost predicate Versioned(w: World) {
    && w.store.issued.Keys == w.issuedUnder.Keys
    && (forall f :: f in w.issuedUnder ==>
          w.store.issued[f] in w.accounts && w.issuedUnder[f] <= w.accounts[w.store.issued[f]].tokenVersion)
    && (forall f :: f in w.store.r.hashes ==>
          && IssuedTo(w, f, w.store.r.hashes[f].family.user)
          && w.store.r.hashes[f].family.tokenVersion == w.issuedUnder[f])
    && (forall h :: h in w.handlers ==> Grounded(w, w.handlers[h]))
    && (forall i :: 0 <= i < |w.minted| ==>
          && IssuedTo(w, w.minted[i].family, w.minted[i].user)
          && w.minted[i].tokenVersion == w.issuedUnder[w.minted[i].family])
  }

  /** Commands that only take hashes away. */
  lemma StoreOnlyLoses(s: RI.World, c: RI.Command, b: Bounds)
    requires !c.Issues? && !c.Rotates?
    ensures RI.Apply(s, c, b).issued == s.issued
    ensures forall f :: f in RI.Apply(s, c, b).r.hashes ==>
            f in s.r.hashes && RI.Apply(s, c, b).r.hashes[f] == s.r.hashes[f]
  {
  }

  /** All the rotate script can do: nothing, drop the family, or move it to a new secret. */
  lemma ScriptEffect(r: Redis, f: FamilyId, secret: Secret, next: Secret, now: nat, b: Bounds)
    ensures var (q, verdict) := RotateScript(r, f, secret, next, now, b);
            && (forall g :: g in q.hashes ==> g in r.hashes && (g != f ==> q.hashes[g] == r.hashes[g]))
            && (f in q.hashes ==>
                  && q.hashes[f].family.user == r.hashes[f].family.user
                  && q.hashes[f].family.tokenVersion == r.hashes[f].family.tokenVersion)
            && (verdict.ScriptOk? ==>
                  && f in q.hashes && r.hashes[f].family.current == secret
                  && verdict.tokenVersion == r.hashes[f].family.tokenVersion
                  && q.hashes[f].family.current == next)
            && (!verdict.ScriptOk? && f in q.hashes ==> q.hashes[f] == r.hashes[f])
  {
  }

  /** A store that only lost families, or changed their secrets, is as sound as before. */
  lemma StoreMovesKeep(w: World, r: Redis)
    requires Versioned(w)
    requires forall g :: g in r.hashes ==>
               && g in w.store.r.hashes
               && r.hashes[g].family.user == w.store.r.hashes[g].family.user
               && r.hashes[g].family.tokenVersion == w.store.r.hashes[g].family.tokenVersion
    ensures Versioned(w.(store := w.store.(r := r)))
  {
    var v := w.(store := w.store.(r := r));
    forall g | g in r.hashes ensures IssuedTo(v, g, r.hashes[g].family.user) {
      assert IssuedTo(w, g, w.store.r.hashes[g].family.user);
    }
    forall k | k in v.handlers ensures Grounded(v, v.handlers[k]) {
      assert Grounded(w, w.handlers[k]);
    }
  }

  lemma GroundedLater(w: World, v: World)
    requires Versioned(w)
    requires forall u :: u in w.accounts ==> u in v.accounts && w.accounts[u].tokenVersion <= v.accounts[u].tokenVersion
    requires v.store.issued == w.store.issued && v.issuedUnder == w.issuedUnder
    requires v.handlers == w.handlers && v.minted == w.minted
    requires forall f :: f in v.store.r.hashes ==> f in w.store.r.hashes && v.store.r.hashes[f] == w.store.r.hashes[f]
    ensures Versioned(v)
  {
    forall h | h in v.handlers ensures Grounded(v, v.handlers[h]) {
      assert Grounded(w, w.handlers[h]);
    }
  }

  /** Versions depend on the handlers only one by one. */
  lemma HandlersKeep(w: World, handlers: map<nat, Handler>)
    requires Versioned(w) && forall k :: k in handlers ==> Grounded(w, handlers[k])
    ensures Versioned(w.(handlers := handlers))
  {
    var v := w.(handlers := handlers);
    forall k | k in v.handlers ensures Grounded(v, v.handlers[k]) {
      GroundedIgnoresHandlers(w, handlers, handlers[k]);
    }
  }

  lemma GroundedIgnoresHandlers(w: World, handlers: map<nat, Handler>, h: Handler)
    requires Grounded(w, h)
    ensures Grounded(w.(handlers := handlers), h)
  {
  }

  lemma HandlerMovesKeep(w: World, h: nat, to: Handler)
    requires Versioned(w) && Grounded(w, to)
    ensures Versioned(Goto(w, h, to)) && Versioned(Done(w, h))
  {
    HandlersKeep(w, w.handlers[h := to]);
    HandlersKeep(w, w.handlers - {h});
  }

  lemma SignInKeepsVersions(w: World, h: nat, f: FamilyId, secret: Secret, read: nat, b: Bounds)
    requires Versioned(w)
    ensures Versioned(FinishesSignIn(w, h, f, secret, read, b))
  {
    var v := FinishesSignIn(w, h, f, secret, read, b);
    if v != w {
      assert Grounded(w, w.handlers[h]);
      assert v.store.issued.Keys == w.store.issued.Keys + {f};
      forall k | k in v.handlers ensures Grounded(v, v.handlers[k]) {
        assert Grounded(w, w.handlers[k]);
      }
    }
  }

  lemma RotateKeepsVersions(w: World, h: nat, next: Secret, read: nat, b: Bounds)
    requires Versioned(w)
    ensures Versioned(Rotates(w, h, next, read, b))
  {
    if h in w.handlers && w.handlers[h].LookedUp? && next !in w.secrets {
      var LookedUp(f, secret, user, looked) := w.handlers[h];
      ScriptEffect(w.store.r, f, secret, next, read, b);
      var (r, verdict) := RotateScript(w.store.r, f, secret, next, read, b);
      StoreMovesKeep(w, r);
      var v := w.(store := w.store.(r := r));
      assert Grounded(w, w.handlers[h]);
      var to := match verdict
        case ScriptOk(_, snapshot) => HasRotated(f, user, looked, snapshot, next)
        case ScriptReuse(owner) => MustWipeFamily(f, owner)
        case ScriptNil => MustWipeUser(0);
      HandlerMovesKeep(v, h, to);
      if verdict.ScriptOk? {
        SecretsDoNotMatter(Goto(v, h, to), Rotates(w, h, next, read, b));
      }
    }
  }

  lemma SecretsDoNotMatter(w: World, v: World)
    requires Versioned(w) && v == w.(secrets := v.secrets, rotations := v.rotations)
    ensures Versioned(v)
  {
    forall k | k in v.handlers ensures Grounded(v, v.handlers[k]) {
      assert Grounded(w, w.handlers[k]);
    }
  }

  lemma CompareKeepsVersions(w: World, h: nat)
    requires Versioned(w)
    ensures Versioned(Compares(w, h))
  {
    var v := Compares(w, h);
    if v != w {
      assert Grounded(w, w.handlers[h]);
      forall k | k in v.handlers ensures Grounded(v, v.handlers[k]) {
        assert k in w.handlers && Grounded(w, w.handlers[k]);
      }
    }
  }

  /** The command a wipe sends. */
  function WipeCommand(h: Handler): RI.Command
    requires h.MustWipeUser? || h.MustWipeFamily?
  {
    match h
    case MustWipeUser(user) => RI.RevokesUser(user)
    case MustWipeFamily(f, user) => RI.Deletes(f, user)
  }

  lemma WipeKeepsVersions(w: World, h: nat, b: Bounds)
    requires Versioned(w)
    ensures Versioned(Wipes(w, h, b))
  {
    if h in w.handlers && (w.handlers[h].MustWipeUser? || w.handlers[h].MustWipeFamily?) {
      var c := WipeCommand(w.handlers[h]);
      assert Wipes(w, h, b) == Done(w, h).(store := RI.Apply(w.store, c, b));
      HandlerMovesKeep(w, h, MustWipeUser(0));
      StoreOnlyLoses(w.store, c, b);
      GroundedLater(Done(w, h), Wipes(w, h, b));
    }
  }

  lemma InspectKeepsVersions(w: World, h: nat, token: Token, read: nat, b: Bounds)
    requires Versioned(w)
    ensures Versioned(StartsRefresh(w, h, token, read, b))
  {
    if h !in w.handlers && token.Handle? && token.family in w.store.r.hashes {
      HandlerMovesKeep(w, h, Inspected(token.family, token.secret, w.store.r.hashes[token.family].family.user));
      HandlerMovesKeep(w, h, MustWipeUser(w.store.r.hashes[token.family].family.user));
    }
  }

  lemma LookupKeepsVersions(w: World, h: nat, reachable: bool)
    requires Versioned(w)
    ensures Versioned(LooksUp(w, h, reachable))
  {
    if h in w.handlers && w.handlers[h].Inspected? {
      var Inspected(f, secret, user) := w.handlers[h];
      assert Grounded(w, w.handlers[h]);
      HandlerMovesKeep(w, h, MustWipeUser(user));
      if user in w.accounts {
        HandlerMovesKeep(w, h, LookedUp(f, secret, user, w.accounts[user].tokenVersion));
      }
    }
  }

  lemma CommandKeepsVersions(w: World, c: RI.Command, b: Bounds)
    requires Versioned(w)
    ensures Versioned(Apply(w, StoreCommand(c), b))
  {
    if !c.Issues? && !c.Rotates? {
      StoreOnlyLoses(w.store, c, b);
      GroundedLater(w, Apply(w, StoreCommand(c), b));
    }
  }

  lemma AccountsKeepVersions(w: World, s: Step, b: Bounds)
    requires Versioned(w) && (s.StartSignIn? || s.Bump? || s.SetDisabled?)
    ensures Versioned(Apply(w, s, b))
  {
    if s.StartSignIn? {
      if s.user in w.accounts {
        HandlerMovesKeep(w, s.h, Opening(s.user, w.accounts[s.user].tokenVersion));
      }
    } else {
      GroundedLater(w, Apply(w, s, b));
    }
  }

  lemma StepKeepsVersions(w: World, s: Step, b: Bounds)
    requires Versioned(w)
    ensures Versioned(Apply(w, s, b))
  {
    match s {
      case StartRefresh(h, token, read) => InspectKeepsVersions(w, h, token, read, b);
      case Lookup(h, reachable) => LookupKeepsVersions(w, h, reachable);
      case FinishSignIn(h, f, secret, read) => SignInKeepsVersions(w, h, f, secret, read, b);
      case Rotate(h, next, read) => RotateKeepsVersions(w, h, next, read, b);
      case Compare(h) => CompareKeepsVersions(w, h);
      case Wipe(h) => WipeKeepsVersions(w, h, b);
      case StoreCommand(c) => CommandKeepsVersions(w, c, b);
      case _ => AccountsKeepVersions(w, s, b);
    }
  }

  lemma {:induction false} RunKeepsVersions(w: World, steps: seq<Step>, b: Bounds)
    requires Versioned(w)
    ensures Versioned(Run(w, steps, b))
    decreases |steps|
  {
    if steps != [] {
      RunKeepsVersions(w, steps[..|steps| - 1], b);
      StepKeepsVersions(Run(w, steps[..|steps| - 1], b), steps[|steps| - 1], b);
    }
  }

  /** Every access token ever minted carries exactly the version its family was issued
      under, whatever raced with the refresh that minted it. */
  lemma MintsCarryIssueVersion(w: World, steps: seq<Step>, b: Bounds, i: nat)
    requires Versioned(w) && i < |Run(w, steps, b).minted|
    ensures var v := Run(w, steps, b);
            && v.minted[i].family in v.issuedUnder
            && v.minted[i].tokenVersion == v.issuedUnder[v.minted[i].family]
  {
    RunKeepsVersions(w, steps, b);
  }

  // ---- A version bump ends the older families ----

  /** The account has moved past `f`, and no refresh of `f` still holds an older reading. */
  ghost predicate Superseded(w: World, f: FamilyId) {
    && f in w.issuedUnder && f in w.store.issued && w.store.issued[f] in w.accounts
    && w.issuedUnder[f] < w.accounts[w.store.issued[f]].tokenVersion
    && forall h :: h in w.handlers && (w.handlers[h].LookedUp? || w.handlers[h].HasRotated?) && w.handlers[h].f == f ==>
         w.issuedUnder[f] < w.handlers[h].looked
  }

  function MintsOf(minted: seq<Mint>, f: FamilyId): nat {
    if minted == [] then 0 else MintsOf(minted[..|minted| - 1], f) + if minted[|minted| - 1].family == f then 1 else 0
  }

  /** A step that mints nothing, moves no handler of `f` past a lookup and forgets nothing. */
  lemma QuietKeepsSuperseded(w: World, v: World, f: FamilyId)
    requires Superseded(w, f)
    requires f in v.issuedUnder && v.issuedUnder[f] == w.issuedUnder[f]
    requires f in v.store.issued && v.store.issued[f] == w.store.issued[f]
    requires forall u :: u in w.accounts ==> u in v.accounts && w.accounts[u].tokenVersion <= v.accounts[u].tokenVersion
    requires forall k ::
               k in v.handlers && (v.handlers[k].LookedUp? || v.handlers[k].HasRotated?) && v.handlers[k].f == f ==>
               (k in w.handlers && w.handlers[k] == v.handlers[k]) || w.issuedUnder[f] < v.handlers[k].looked
    ensures Superseded(v, f)
  {
  }

  lemma SignInKeepsSuperseded(w: World, h: nat, g: FamilyId, secret: Secret, read: nat, b: Bounds, f: FamilyId)
    requires Superseded(w, f)
    ensures Superseded(FinishesSignIn(w, h, g, secret, read, b), f)
    ensures MintsOf(FinishesSignIn(w, h, g, secret, read, b).minted, f) == MintsOf(w.minted, f)
  {
    var v := FinishesSignIn(w, h, g, secret, read, b);
    if v != w {
      assert v.minted[..|v.minted| - 1] == w.minted && g != f;
      QuietKeepsSuperseded(w, v, f);
    }
  }

  lemma LookupKeepsSuperseded(w: World, h: nat, reachable: bool, f: FamilyId)
    requires Versioned(w) && Superseded(w, f)
    ensures Superseded(LooksUp(w, h, reachable), f) && LooksUp(w, h, reachable).minted == w.minted
  {
    if h in w.handlers {
      assert Grounded(w, w.handlers[h]);
    }
    QuietKeepsSuperseded(w, LooksUp(w, h, reachable), f);
  }

  lemma RotateKeepsSuperseded(w: World, h: nat, next: Secret, read: nat, b: Bounds, f: FamilyId)
    requires Superseded(w, f)
    ensures Superseded(Rotates(w, h, next, read, b), f) && Rotates(w, h, next, read, b).minted == w.minted
  {
    QuietKeepsSuperseded(w, Rotates(w, h, next, read, b), f);
  }

  /** The refusal itself: a reading newer than the snapshot is never minted from. */
  lemma CompareKeepsSuperseded(w: World, h: nat, f: FamilyId)
    requires Versioned(w) && Superseded(w, f)
    ensures Superseded(Compares(w, h), f)
    ensures MintsOf(Compares(w, h).minted, f) == MintsOf(w.minted, f)
  {
    var v := Compares(w, h);
    if v != w {
      assert Grounded(w, w.handlers[h]);
      if v.minted != w.minted {
        assert v.minted[..|v.minted| - 1] == w.minted;
        assert w.handlers[h].f != f;
      }
      QuietKeepsSuperseded(w, v, f);
    }
  }

  lemma WipeKeepsSuperseded(w: World, h: nat, b: Bounds, f: FamilyId)
    requires Superseded(w, f)
    ensures Superseded(Wipes(w, h, b), f) && Wipes(w, h, b).minted == w.minted
  {
    if h in w.handlers && (w.handlers[h].MustWipeUser? || w.handlers[h].MustWipeFamily?) {
      StoreOnlyLoses(w.store, WipeCommand(w.handlers[h]), b);
      QuietKeepsSuperseded(w, Wipes(w, h, b), f);
    }
  }

  lemma StepKeepsSuperseded(w: World, s: Step, b: Bounds, f: FamilyId)
    requires Versioned(w) && Superseded(w, f)
    ensures Superseded(Apply(w, s, b), f)
    ensures MintsOf(Apply(w, s, b).minted, f) == MintsOf(w.minted, f)
  {
    match s {
      case FinishSignIn(h, g, secret, read) => SignInKeepsSuperseded(w, h, g, secret, read, b, f);
      case Lookup(h, reachable) => LookupKeepsSuperseded(w, h, reachable, f);
      case Rotate(h, next, read) => RotateKeepsSuperseded(w, h, next, read, b, f);
      case Compare(h) => CompareKeepsSuperseded(w, h, f);
      case Wipe(h) => WipeKeepsSuperseded(w, h, b, f);
      case StoreCommand(c) =>
        CommandKeepsSuperseded(w, c, b, f);
      case StartRefresh(h, token, read) => InspectKeepsSuperseded(w, h, token, read, b, f);
      case _ => AccountsKeepSuperseded(w, s, b, f);
    }
  }

  lemma InspectKeepsSuperseded(w: World, h: nat, token: Token, read: nat, b: Bounds, f: FamilyId)
    requires Superseded(w, f)
    ensures Superseded(StartsRefresh(w, h, token, read, b), f)
    ensures StartsRefresh(w, h, token, read, b).minted == w.minted
  {
    QuietKeepsSuperseded(w, StartsRefresh(w, h, token, read, b), f);
  }

  lemma CommandKeepsSuperseded(w: World, c: RI.Command, b: Bounds, f: FamilyId)
    requires Superseded(w, f)
    ensures Superseded(Apply(w, StoreCommand(c), b), f)
    ensures MintsOf(Apply(w, StoreCommand(c), b).minted, f) == MintsOf(w.minted, f)
  {
    if !c.Issues? && !c.Rotates? {
      StoreOnlyLoses(w.store, c, b);
      QuietKeepsSuperseded(w, Apply(w, StoreCommand(c), b), f);
    }
  }

  lemma AccountsKeepSuperseded(w: World, s: Step, b: Bounds, f: FamilyId)
    requires Superseded(w, f) && (s.StartSignIn? || s.Bump? || s.SetDisabled?)
    ensures Superseded(Apply(w, s, b), f)
    ensures MintsOf(Apply(w, s, b).minted, f) == MintsOf(w.minted, f)
  {
    QuietKeepsSuperseded(w, Apply(w, s, b), f);
  }

  /** From then on no run mints another token for that family. */
  lemma {:induction false} SupersededNeverMints(w: World, steps: seq<Step>, b: Bounds, f: FamilyId)
    requires Versioned(w) && Superseded(w, f)
    ensures Superseded(Run(w, steps, b), f)
    ensures MintsOf(Run(w, steps, b).minted, f) == MintsOf(w.minted, f)
    decreases |steps|
  {
    if steps != [] {
      SupersededNeverMints(w, steps[..|steps| - 1], b, f);
      RunKeepsVersions(w, steps[..|steps| - 1], b);
      StepKeepsSuperseded(Run(w, steps[..|steps| - 1], b), steps[|steps| - 1], b, f);
    }
  }

  // ---- Wipes ----

  /** The store's part of a step is one command of its own, or none. */
  function Sent(w: World, s: Step): Option<RI.Command> {
    match s
    case FinishSignIn(h, f, secret, read) =>
      if h in w.handlers && w.handlers[h].Opening? && f !in w.store.issued && secret !in w.secrets then
        Some(RI.Issues(f, w.handlers[h].user, w.handlers[h].looked, secret, read))
      else None
    case Rotate(h, next, read) =>
      if h in w.handlers && w.handlers[h].LookedUp? && next !in w.secrets then
        Some(RI.Rotates(w.handlers[h].f, w.handlers[h].secret, next, read))
      else None
    case Wipe(h) =>
      if h in w.handlers && (w.handlers[h].MustWipeUser? || w.handlers[h].MustWipeFamily?) then
        Some(WipeCommand(w.handlers[h]))
      else None
    case StoreCommand(c) => if c.Issues? || c.Rotates? then None else Some(c)
    case _ => None
  }

  lemma StepSends(w: World, s: Step, b: Bounds)
    ensures Apply(w, s, b).store ==
            match Sent(w, s)
            case None => w.store
            case Some(c) => RI.Apply(w.store, c, b)
  {
  }

  /** Every sign-in lands in the order of its user's caps. */
  ghost predicate SignInsInOrder(w: World, steps: seq<Step>, b: Bounds) {
    steps != [] ==>
      && SignInsInOrder(w, steps[..|steps| - 1], b)
      && var v := Run(w, steps[..|steps| - 1], b);
         var sent := Sent(v, steps[|steps| - 1]);
         sent.Some? ==> RI.LandsInOrder(v.store, sent.value, b)
  }

  /** Such a run of handlers leaves no family out of its owner's index. */
  lemma {:induction false} HandlersNeverOrphan(w: World, steps: seq<Step>, b: Bounds)
    requires RI.Consistent(w.store) && RI.NoOrphan(w.store) && SignInsInOrder(w, steps, b)
    ensures RI.Consistent(Run(w, steps, b).store) && RI.NoOrphan(Run(w, steps, b).store)
    decreases |steps|
  {
    if steps != [] {
      HandlersNeverOrphan(w, steps[..|steps| - 1], b);
      var v, s := Run(w, steps[..|steps| - 1], b), steps[|steps| - 1];
      StepSends(v, s, b);
      if Sent(v, s).Some? {
        RI.StepKeepsConsistent(v.store, Sent(v, s).value, b);
        RI.StepCoversExactly(v.store, Sent(v, s).value, b);
      }
    }
  }

  /** The handlers that have rotated `f` and not yet compared. */
  function Pending(w: World, f: FamilyId): set<nat> {
    set h | h in w.handlers && w.handlers[h].HasRotated? && w.handlers[h].f == f
  }

  /** No more tokens can come of `f` than were minted already or are pending. */
  ghost predicate Spent(w: World, v: World, f: FamilyId) {
    && RI.Dead(v.store, f)
    && MintsOf(v.minted, f) + |Pending(v, f)| <= MintsOf(w.minted, f) + |Pending(w, f)|
  }

  lemma QuietSpends(w: World, v: World, f: FamilyId)
    requires RI.Dead(v.store, f) && MintsOf(v.minted, f) == MintsOf(w.minted, f)
    requires forall k :: k in v.handlers && v.handlers[k].HasRotated? && v.handlers[k].f == f ==>
               k in w.handlers && w.handlers[k] == v.handlers[k]
    requires forall k :: k in w.handlers && w.handlers[k].HasRotated? && w.handlers[k].f == f ==>
               k in v.handlers && w.handlers[k] == v.handlers[k]
    ensures Spent(w, v, f)
  {
    assert Pending(v, f) == Pending(w, f);
  }

  lemma StepKeepsDead(w: World, s: Step, b: Bounds, f: FamilyId)
    requires RI.Dead(w.store, f)
    ensures RI.Dead(Apply(w, s, b).store, f)
  {
    StepSends(w, s, b);
    if Sent(w, s).Some? {
      RI.StepLeavesDead(w.store, Sent(w, s).value, b, f);
    }
  }

  lemma SignInSpends(w: World, h: nat, g: FamilyId, secret: Secret, read: nat, b: Bounds, f: FamilyId)
    requires RI.Dead(w.store, f)
    ensures Spent(w, FinishesSignIn(w, h, g, secret, read, b), f)
  {
    var v := FinishesSignIn(w, h, g, secret, read, b);
    assert v == Apply(w, FinishSignIn(h, g, secret, read), b);
    StepKeepsDead(w, FinishSignIn(h, g, secret, read), b, f);
    if v != w {
      assert v.minted[..|v.minted| - 1] == w.minted && g != f;
    }
    QuietSpends(w, v, f);
  }

  /** A dead family does not rotate, so nothing new becomes pending. */
  lemma RotateSpends(w: World, h: nat, next: Secret, read: nat, b: Bounds, f: FamilyId)
    requires RI.Dead(w.store, f)
    ensures Spent(w, Rotates(w, h, next, read, b), f)
  {
    assert Rotates(w, h, next, read, b) == Apply(w, Rotate(h, next, read), b);
    StepKeepsDead(w, Rotate(h, next, read), b, f);
    QuietSpends(w, Rotates(w, h, next, read, b), f);
  }

  lemma CompareSpends(w: World, h: nat, f: FamilyId)
    requires RI.Dead(w.store, f)
    ensures Spent(w, Compares(w, h), f)
  {
    var v := Compares(w, h);
    if h in Pending(w, f) {
      assert Pending(v, f) == Pending(w, f) - {h};
      assert v.minted != w.minted ==> v.minted[..|v.minted| - 1] == w.minted;
    } else {
      assert v.minted != w.minted ==> v.minted[..|v.minted| - 1] == w.minted;
      QuietSpends(w, v, f);
    }
  }

  lemma InspectSpends(w: World, h: nat, token: Token, read: nat, b: Bounds, f: FamilyId)
    requires RI.Dead(w.store, f)
    ensures Spent(w, StartsRefresh(w, h, token, read, b), f)
  {
    QuietSpends(w, StartsRefresh(w, h, token, read, b), f);
  }

  lemma LookupSpends(w: World, h: nat, reachable: bool, f: FamilyId)
    requires RI.Dead(w.store, f)
    ensures Spent(w, LooksUp(w, h, reachable), f)
  {
    QuietSpends(w, LooksUp(w, h, reachable), f);
  }

  lemma WipeSpends(w: World, h: nat, b: Bounds, f: FamilyId)
    requires RI.Dead(w.store, f)
    ensures Spent(w, Wipes(w, h, b), f)
  {
    assert Wipes(w, h, b) == Apply(w, Wipe(h), b);
    StepKeepsDead(w, Wipe(h), b, f);
    QuietSpends(w, Wipes(w, h, b), f);
  }

  lemma OthersSpend(w: World, s: Step, b: Bounds, f: FamilyId)
    requires RI.Dead(w.store, f) && (s.StartSignIn? || s.Bump? || s.SetDisabled? || s.StoreCommand?)
    ensures Spent(w, Apply(w, s, b), f)
  {
    StepKeepsDead(w, s, b, f);
    QuietSpends(w, Apply(w, s, b), f);
  }

  lemma StepSpends(w: World, s: Step, b: Bounds, f: FamilyId)
    requires RI.Dead(w.store, f)
    ensures Spent(w, Apply(w, s, b), f)
  {
    match s {
      case FinishSignIn(h, g, secret, read) => SignInSpends(w, h, g, secret, read, b, f);
      case StartRefresh(h, token, read) => InspectSpends(w, h, token, read, b, f);
      case Lookup(h, reachable) => LookupSpends(w, h, reachable, f);
      case Rotate(h, next, read) => RotateSpends(w, h, next, read, b, f);
      case Compare(h) => CompareSpends(w, h, f);
      case Wipe(h) => WipeSpends(w, h, b, f);
      case _ => OthersSpend(w, s, b, f);
    }
  }

  lemma {:induction false} DeadFamilyIsSpent(w: World, steps: seq<Step>, b: Bounds, f: FamilyId)
    requires RI.Dead(w.store, f)
    ensures Spent(w, Run(w, steps, b), f)
    decreases |steps|
  {
    if steps != [] {
      DeadFamilyIsSpent(w, steps[..|steps| - 1], b, f);
      StepSpends(Run(w, steps[..|steps| - 1], b), steps[|steps| - 1], b, f);
    }
  }

  lemma StepOnlyMints(w: World, s: Step, b: Bounds, f: FamilyId)
    ensures MintsOf(w.minted, f) <= MintsOf(Apply(w, s, b).minted, f)
  {
    var v := Apply(w, s, b);
    assert v.minted != w.minted ==> v.minted[..|v.minted| - 1] == w.minted;
  }

  lemma {:induction false} MintsOnlyGrow(w: World, steps: seq<Step>, b: Bounds, f: FamilyId)
    ensures MintsOf(w.minted, f) <= MintsOf(Run(w, steps, b).minted, f)
    decreases |steps|
  {
    if steps != [] {
      MintsOnlyGrow(w, steps[..|steps| - 1], b, f);
      StepOnlyMints(Run(w, steps[..|steps| - 1], b), steps[|steps| - 1], b, f);
    }
  }

  /** Once a handler's wipe of a user, or a logout's, has run over a store with every family
      indexed, no refresh mints for a family that user was issued before, but for the handlers
      already past its rotation, each once at most: in every run from there, at any readings,
      the family stays gone. */
  lemma WipeEndsMinting(w: World, s: Step, user: UserId, steps: seq<Step>, b: Bounds, f: FamilyId)
    requires RI.Consistent(w.store) && RI.NoOrphan(w.store)
    requires f in w.store.issued && w.store.issued[f] == user
    requires Sent(w, s) == Some(RI.RevokesUser(user))
    ensures var v := Run(Apply(w, s, b), steps, b);
            && f !in v.store.r.hashes
            && MintsOf(v.minted, f) <= MintsOf(w.minted, f) + |Pending(w, f)|
            && (Pending(w, f) == {} ==> MintsOf(v.minted, f) == MintsOf(w.minted, f))
  {
    var u := Apply(w, s, b);
    StepSends(w, s, b);
    if f in w.store.r.hashes {
      assert RI.Covered(w.store, f);
    }
    RI.RevocationReachesExactly(w.store, user, b, f);
    assert u.minted == w.minted && Pending(u, f) == Pending(w, f);
    DeadFamilyIsSpent(u, steps, b, f);
    MintsOnlyGrow(u, steps, b, f);
  }

  /** And those do mint: one past its rotation with a version that has not moved hands its
      token out after the wipe. */
  lemma PendingStillMints(w: World, s: Step, user: UserId, h: nat, b: Bounds, f: FamilyId)
    requires Sent(w, s) == Some(RI.RevokesUser(user)) && h in Pending(w, f)
    requires w.handlers[h].looked <= w.handlers[h].snapshot
    ensures MintsOf(Compares(Apply(w, s, b), h).minted, f) == MintsOf(w.minted, f) + 1
  {
    var v := Compares(Apply(w, s, b), h);
    assert v.minted[..|v.minted| - 1] == w.minted;
  }

  // ---- Secrets ----

  ghost predicate RotatedOnce(w: World) {
    && (forall f :: f in w.store.r.hashes ==> w.store.r.hashes[f].family.current in w.secrets)
    && (forall i :: 0 <= i < |w.rotations| ==>
          && w.rotations[i].1 in w.secrets
          && (w.rotations[i].0 in w.store.r.hashes ==>
              w.store.r.hashes[w.rotations[i].0].family.current != w.rotations[i].1)
          && w.rotations[i].0 in w.store.issued)
    && (forall i, j :: 0 <= i < j < |w.rotations| ==> w.rotations[i] != w.rotations[j])
    && (forall f :: f in w.store.r.hashes ==> f in w.store.issued)
  }

  lemma RotateKeepsRotatedOnce(w: World, h: nat, next: Secret, read: nat, b: Bounds)
    requires RotatedOnce(w)
    ensures RotatedOnce(Rotates(w, h, next, read, b))
  {
    if h in w.handlers && w.handlers[h].LookedUp? && next !in w.secrets {
      var LookedUp(f, secret, _, _) := w.handlers[h];
      var v := Rotates(w, h, next, read, b);
      ScriptEffect(w.store.r, f, secret, next, read, b);
      var verdict := RotateScript(w.store.r, f, secret, next, read, b).1;
      if verdict.ScriptOk? {
        var n := |w.rotations|;
        assert v.rotations == w.rotations + [(f, secret)];
        forall i | 0 <= i < n ensures w.rotations[i] != (f, secret) {
          if w.rotations[i].0 == f {
            assert w.store.r.hashes[f].family.current != w.rotations[i].1;
          }
        }
        forall i | 0 <= i < |v.rotations| && v.rotations[i].0 in v.store.r.hashes
          ensures v.store.r.hashes[v.rotations[i].0].family.current != v.rotations[i].1
        {
          if i < n {
            assert w.rotations[i].1 in w.secrets;
          }
        }
      }
    }
  }

  lemma LosingKeepsRotatedOnce(w: World, v: World)
    requires RotatedOnce(w)
    requires v.secrets == w.secrets && v.rotations == w.rotations && v.store.issued == w.store.issued
    requires forall f :: f in v.store.r.hashes ==> f in w.store.r.hashes && v.store.r.hashes[f] == w.store.r.hashes[f]
    ensures RotatedOnce(v)
  {
  }

  lemma SignInKeepsRotatedOnce(w: World, h: nat, f: FamilyId, secret: Secret, read: nat, b: Bounds)
    requires RotatedOnce(w)
    ensures RotatedOnce(FinishesSignIn(w, h, f, secret, read, b))
  {
  }

  lemma StepKeepsRotatedOnce(w: World, s: Step, b: Bounds)
    requires RotatedOnce(w)
    ensures RotatedOnce(Apply(w, s, b))
  {
    match s {
      case FinishSignIn(h, f, secret, read) => SignInKeepsRotatedOnce(w, h, f, secret, read, b);
      case Rotate(h, next, read) => RotateKeepsRotatedOnce(w, h, next, read, b);
      case Wipe(h) => WipeKeepsRotatedOnce(w, h, b);
      case StoreCommand(c) => CommandKeepsRotatedOnce(w, c, b);
      case _ =>
        OnlyCommittedStepsTouchStore(w, s, b);
        LosingKeepsRotatedOnce(w, Apply(w, s, b));
    }
  }

  lemma WipeKeepsRotatedOnce(w: World, h: nat, b: Bounds)
    requires RotatedOnce(w)
    ensures RotatedOnce(Wipes(w, h, b))
  {
    if h in w.handlers && (w.handlers[h].MustWipeUser? || w.handlers[h].MustWipeFamily?) {
      StoreOnlyLoses(w.store, WipeCommand(w.handlers[h]), b);
      LosingKeepsRotatedOnce(w, Wipes(w, h, b));
    }
  }

  lemma CommandKeepsRotatedOnce(w: World, c: RI.Command, b: Bounds)
    requires RotatedOnce(w)
    ensures RotatedOnce(Apply(w, StoreCommand(c), b))
  {
    if !c.Issues? && !c.Rotates? {
      StoreOnlyLoses(w.store, c, b);
      LosingKeepsRotatedOnce(w, Apply(w, StoreCommand(c), b));
    }
  }

  /** In every run each secret of a family is rotated successfully at most once, however
      many handlers present it at the same time. */
  lemma {:induction false} EachSecretRotatesOnce(w: World, steps: seq<Step>, b: Bounds)
    requires RotatedOnce(w)
    ensures RotatedOnce(Run(w, steps, b))
    ensures forall i, j :: 0 <= i < j < |Run(w, steps, b).rotations| ==>
            Run(w, steps, b).rotations[i] != Run(w, steps, b).rotations[j]
    decreases |steps|
  {
    if steps != [] {
      EachSecretRotatesOnce(w, steps[..|steps| - 1], b);
      StepKeepsRotatedOnce(Run(w, steps[..|steps| - 1], b), steps[|steps| - 1], b);
    }
  }

  /** A failed lookup changes no family, so the client may present the same handle again: at
      any reading it is inspected as it would have been without the failed attempt. */
  lemma FailedLookupIsRetryable(w: World, h: nat, token: Token, read: nat, again: nat, b: Bounds)
    requires h !in w.handlers && RedisInspect(w.store.r, token, read, b).Current?
    ensures var v := Apply(Apply(w, StartRefresh(h, token, read), b), Lookup(h, false), b);
            && v.store == w.store
            && h !in v.handlers
            && RedisInspect(v.store.r, token, again, b) == RedisInspect(w.store.r, token, again, b)
  {
  }

  /** Nothing before the rotation touches the store: every path that ends without rotating
      and without a wipe leaves it exactly as it was. */
  lemma OnlyCommittedStepsTouchStore(w: World, s: Step, b: Bounds)
    requires s.StartSignIn? || s.StartRefresh? || s.Lookup? || s.Compare? || s.Bump? || s.SetDisabled?
    ensures Apply(w, s, b).store == w.store && Apply(w, s, b).rotations == w.rotations
  {
  }

  /** The starting point of every theorem above: no family issued yet. */
  lemma NothingIssuedIsSound(accounts: map<UserId, Account>, now: nat)
    ensures var w := World(RI.World(Redis(map[], map[]), now, map[], {}), accounts, map[], map[], {}, [], []);
            Versioned(w) && RotatedOnce(w) && RI.Consistent(w.store) && RI.NoOrphan(w.store)
  {
  }

  // ---- What each step does ----

  /** Where handler `h` stands is all that may have moved of the handlers; the accounts and the
      record of issues have not. */
  ghost predicate OnlyHandler(w: World, v: World, h: nat) {
    && v.accounts == w.accounts
    && (forall k :: k != h ==> (k in v.handlers <==> k in w.handlers))
    && (forall k :: k != h && k in w.handlers ==> v.handlers[k] == w.handlers[k])
  }

  ghost predicate StoreKept(w: World, v: World) {
    v.store == w.store && v.secrets == w.secrets && v.rotations == w.rotations && v.issuedUnder == w.issuedUnder
  }

  /** A sign-in starts for a known, enabled account, holding the version it saw; it ends in a
      fresh family issued and a token minted at that version. */
  lemma SignInDoes(w: World, h: nat, user: UserId, f: FamilyId, secret: Secret, read: nat, b: Bounds)
    requires h !in w.handlers && f !in w.store.issued && secret !in w.secrets
    ensures var v := Apply(w, StartSignIn(h, user), b);
            var x := Apply(v, FinishSignIn(h, f, secret, read), b);
            && OnlyHandler(w, v, h) && StoreKept(w, v) && v.minted == w.minted
            && (h in v.handlers <==> user in w.accounts && !w.accounts[user].disabled)
            && (h !in v.handlers ==> x == w)
            && (h in v.handlers ==>
                  var version := w.accounts[user].tokenVersion;
                  && v.handlers[h] == Opening(user, version)
                  && OnlyHandler(v, x, h) && h !in x.handlers
                  && x.store == RI.Apply(w.store, RI.Issues(f, user, version, secret, read), b)
                  && x.issuedUnder == w.issuedUnder[f := version] && x.secrets == w.secrets + {secret}
                  && x.minted == w.minted + [Mint(f, user, version)] && x.rotations == w.rotations)
  {
  }

  /** Inspecting takes on a current handle, sends a replayed one to wipe its owner's sessions,
      and turns any other away. */
  lemma InspectDoes(w: World, h: nat, token: Token, read: nat, b: Bounds)
    requires h !in w.handlers
    ensures var v, answer := Apply(w, StartRefresh(h, token, read), b), RedisInspect(w.store.r, token, read, b);
            && OnlyHandler(w, v, h) && StoreKept(w, v) && v.minted == w.minted
            && (answer.Current? ==>
                  && token.Handle? && h in v.handlers
                  && v.handlers[h] == Inspected(token.family, token.secret, answer.user))
            && (answer.Reuse? ==> h in v.handlers && v.handlers[h] == MustWipeUser(answer.user))
            && (!answer.Current? && !answer.Reuse? ==> v == w)
  {
  }

  /** A look-up that fails ends the refresh; a disabled account's sessions are to be wiped; any
      other goes on with the version read. */
  lemma LookupDoes(w: World, h: nat, reachable: bool, b: Bounds)
    requires h in w.handlers && w.handlers[h].Inspected?
    ensures var v, from := Apply(w, Lookup(h, reachable), b), w.handlers[h];
            && OnlyHandler(w, v, h) && StoreKept(w, v) && v.minted == w.minted
            && (h in v.handlers <==> reachable && from.user in w.accounts)
            && (h in v.handlers ==>
                  v.handlers[h] == if w.accounts[from.user].disabled then MustWipeUser(from.user)
                                   else LookedUp(from.f, from.secret, from.user, w.accounts[from.user].tokenVersion))
  {
  }

  /** The rotation is the script's; reuse met there is to be wiped by family. */
  lemma RotationDoes(w: World, h: nat, next: Secret, read: nat, b: Bounds)
    requires h in w.handlers && w.handlers[h].LookedUp? && next !in w.secrets
    ensures var v, from := Apply(w, Rotate(h, next, read), b), w.handlers[h];
            var verdict := RotateScript(w.store.r, from.f, from.secret, next, read, b).1;
            && OnlyHandler(w, v, h) && v.minted == w.minted && v.issuedUnder == w.issuedUnder
            && v.store == RI.Apply(w.store, RI.Rotates(from.f, from.secret, next, read), b)
            && v.rotations == w.rotations + (if verdict.ScriptOk? then [(from.f, from.secret)] else [])
            && v.secrets == w.secrets + (if verdict.ScriptOk? then {next} else {})
            && (h in v.handlers <==> !verdict.ScriptNil?)
            && (verdict.ScriptOk? ==>
                  v.handlers[h] == HasRotated(from.f, from.user, from.looked, verdict.tokenVersion, next))
            && (verdict.ScriptReuse? ==> v.handlers[h] == MustWipeFamily(from.f, verdict.user))
  {
  }

  /** A version that has moved on since the issue is refused, and its owner's sessions wiped;
      otherwise the token is minted. */
  lemma CompareDoes(w: World, h: nat, b: Bounds)
    requires h in w.handlers && w.handlers[h].HasRotated?
    ensures var v, from := Apply(w, Compare(h), b), w.handlers[h];
            && OnlyHandler(w, v, h) && StoreKept(w, v)
            && (from.looked > from.snapshot ==>
                  h in v.handlers && v.handlers[h] == MustWipeUser(from.user) && v.minted == w.minted)
            && (from.looked <= from.snapshot ==>
                  h !in v.handlers && v.minted == w.minted + [Mint(from.f, from.user, from.looked)])
  {
  }

  /** A wipe sends its one command, and ends the handler. */
  lemma WipeDoes(w: World, h: nat, b: Bounds)
    requires h in w.handlers && (w.handlers[h].MustWipeUser? || w.handlers[h].MustWipeFamily?)
    ensures var v, from := Apply(w, Wipe(h), b), w.handlers[h];
            && OnlyHandler(w, v, h) && h !in v.handlers && v.minted == w.minted && v.rotations == w.rotations
            && v.store == RI.Apply(w.store, if from.MustWipeUser? then RI.RevokesUser(from.user)
                                            else RI.Deletes(from.f, from.user), b)
  {
  }

  /** A bump moves one account's version by one, a disabling its flag, and a store command of
      anybody else's the store; none of them anything more. */
  lemma AccountStepsDo(w: World, user: UserId, disabled: bool, b: Bounds)
    ensures var v, x := Apply(w, Bump(user), b), Apply(w, SetDisabled(user, disabled), b);
            && v == w.(accounts := v.accounts) && x == w.(accounts := x.accounts)
            && (forall u :: u != user ==> (u in v.accounts <==> u in w.accounts))
            && (forall u :: u != user ==> (u in x.accounts <==> u in w.accounts))
            && (forall u :: u != user && u in w.accounts ==>
                  v.accounts[u] == w.accounts[u] && x.accounts[u] == w.accounts[u])
            && user in v.accounts
            && v.accounts[user].tokenVersion == (if user in w.accounts then w.accounts[user].tokenVersion else 0) + 1
            && (user in w.accounts ==>
                  && v.accounts[user].disabled == w.accounts[user].disabled
                  && user in x.accounts && x.accounts[user] == w.accounts[user].(disabled := disabled))
            && (user !in w.accounts ==> user !in x.accounts)
  {
  }

  lemma StoreCommandDoes(w: World, c: RI.Command, b: Bounds)
    requires !c.Issues? && !c.Rotates?
    ensures Apply(w, StoreCommand(c), b) == w.(store := RI.Apply(w.store, c, b))
  {
  }
}
