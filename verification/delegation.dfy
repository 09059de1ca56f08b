/** Granting inside a tenant's namespace: who may write a grant is decided in the
    transaction that writes it, from the rows it holds locked. */
module Delegation {
  import opened Permissions
  import opened Catalogs

  type UserId = nat

  /** An account as the transaction reads it: whether it is active, and whether its
      persisted seat may grant anything to anybody. */
  datatype Standing = Standing(active: bool, seatMayGrant: bool)

  datatype Authority = NoAuthority | Delegate | Seat

  /** Active grants, as (holder, target text), and the accounts that exist. */
  datatype Register = Register(grants: set<(UserId, string)>, accounts: map<UserId, Standing>)

  datatype Named = One(user: UserId) | Nobody | Several

  /** Whom a request is about: an id, or an account handle and whom it names. */
  datatype Subject = ById(user: UserId) | ByHandle(named: Named)

  datatype Outcome =
    | Granted | Denied | UndefinedTarget | ToSelf | NotFound | AmbiguousAccount
    | TargetDisabled | Ungrantable | Revoked | NotHeld

  datatype Tenant = Tenant(namespace: string, catalog: Catalog)

  function Resolved(s: Subject): Named {
    match s
    case ById(user) => One(user)
    case ByHandle(named) => named
  }

  /** The targets `user` holds in the tenant's namespace. */
  function Held(r: Register, user: UserId, t: Tenant): set<Target> {
    set g | g in r.grants && g.0 == user && ParseTarget(g.1).Success? && Split(g.1)[0] == t.namespace ::
      ParseTarget(g.1).value
  }

  function DelegableBy(r: Register, user: UserId, t: Tenant): set<string> {
    Delegable(Held(r, user, t), t.catalog)
  }

  /** Emergency access elevates an existing active actor; a disabled or unknown one acts
      with nothing. */
  function AuthorityOver(r: Register, actor: UserId, elevated: bool, t: Tenant, target: Target): Authority {
    if actor !in r.accounts || !r.accounts[actor].active then NoAuthority
    else if elevated || r.accounts[actor].seatMayGrant then Seat
    else if target.Raw() in DelegableBy(r, actor, t) then Delegate
    else NoAuthority
  }

  function Grant(r: Register, actor: UserId, elevated: bool, subject: Subject, target: Target, t: Tenant)
    : (Outcome, Register)
  {
    var authority := AuthorityOver(r, actor, elevated, t, target);
    if authority == NoAuthority || (authority == Delegate && subject.ById?) then (Denied, r)
    else if target.Grants(t.catalog) == {} then (UndefinedTarget, r)
    else
      var toldWhy := authority == Seat;
      match Resolved(subject)
      case Several => (if toldWhy then AmbiguousAccount else Ungrantable, r)
      case Nobody => (if toldWhy then NotFound else Ungrantable, r)
      case One(user) =>
        if user !in r.accounts then (if toldWhy then NotFound else Ungrantable, r)
        else if user == actor then (ToSelf, r)
        else if !r.accounts[user].active then (if toldWhy then TargetDisabled else Ungrantable, r)
        else (Granted, r.(grants := r.grants + {(user, target.Raw())}))
  }

  function Revoke(r: Register, actor: UserId, elevated: bool, subject: Subject, target: Target, t: Tenant)
    : (Outcome, Register)
  {
    if AuthorityOver(r, actor, elevated, t, target) == NoAuthority then (Denied, r)
    else
      match Resolved(subject)
      case Several => (NotHeld, r)
      case Nobody => (NotHeld, r)
      case One(user) =>
        if (user, target.Raw()) in r.grants then (Revoked, r.(grants := r.grants - {(user, target.Raw())}))
        else (NotHeld, r)
  }

  /** The grant tables as the transactions update them. */
  class GrantTable {
    const tenant: Tenant
    var grants: set<(UserId, string)>
    var accounts: map<UserId, Standing>

    ghost function Model(): Register
      reads this
    {
      Register(grants, accounts)
    }

    constructor (tenant: Tenant, accounts: map<UserId, Standing>)
      ensures this.tenant == tenant && Model() == Register({}, accounts)
    {
      this.tenant, this.grants, this.accounts := tenant, {}, accounts;
    }

    method AuthorityIn(actor: UserId, elevated: bool, target: Target) returns (a: Authority)
      ensures a == AuthorityOver(Model(), actor, elevated, tenant, target)
    {
      if actor !in accounts || !accounts[actor].active {
        return NoAuthority;
      }
      if elevated || accounts[actor].seatMayGrant {
        return Seat;
      }
      var held :=
        set g | g in grants && g.0 == actor && ParseTarget(g.1).Success? && Split(g.1)[0] == tenant.namespace ::
          ParseTarget(g.1).value;
      return if target.Raw() in Delegable(held, tenant.catalog) then Delegate else NoAuthority;
    }

    method GrantTo(actor: UserId, elevated: bool, subject: Subject, target: Target) returns (o: Outcome)
      modifies this`grants
      ensures (o, Model()) == Grant(old(Model()), actor, elevated, subject, target, tenant)
    {
      var authority := AuthorityIn(actor, elevated, target);
      match authority {
        case NoAuthority => return Denied;
        case Delegate =>
          // A delegate names people by the handle they know them by, never by id.
          if subject.ById? {
            return Denied;
          }
        case Seat =>
      }
      if target.Grants(tenant.catalog) == {} {
        return UndefinedTarget;
      }
      // Only a seat learns why an address cannot be granted.
      var toldWhy := authority == Seat;
      match Resolved(subject) {
        case Several => return if toldWhy then AmbiguousAccount else Ungrantable;
        case Nobody => return if toldWhy then NotFound else Ungrantable;
        case One(user) =>
          if user !in accounts {
            return if toldWhy then NotFound else Ungrantable;
          }
          if user == actor {
            return ToSelf;
          }
          if !accounts[user].active {
            return if toldWhy then TargetDisabled else Ungrantable;
          }
          grants := grants + {(user, target.Raw())};
          return Granted;
      }
    }

    method RevokeFrom(actor: UserId, elevated: bool, subject: Subject, target: Target) returns (o: Outcome)
      modifies this`grants
      ensures (o, Model()) == Revoke(old(Model()), actor, elevated, subject, target, tenant)
    {
      var authority := AuthorityIn(actor, elevated, target);
      if authority == NoAuthority {
        return Denied;
      }
      match Resolved(subject) {
        case Several => return NotHeld;
        case Nobody => return NotHeld;
        case One(user) =>
          if (user, target.Raw()) !in grants {
            return NotHeld;
          }
          grants := grants - {(user, target.Raw())};
          return Revoked;
      }
    }
  }

  // ---- What one request does ----

  predicate ActsActive(r: Register, actor: UserId) {
    actor in r.accounts && r.accounts[actor].active
  }

  /** Some active grant of the actor's in the namespace lets them delegate the target. */
  ghost predicate MayDelegate(r: Register, actor: UserId, t: Tenant, raw: string) {
    exists held :: (actor, held) in r.grants && ParseTarget(held).Success? && Split(held)[0] == t.namespace
                   && held in t.catalog.delegations && raw in t.catalog.delegations[held]
  }

  lemma DelegableIsHeld(r: Register, actor: UserId, t: Tenant, raw: string)
    ensures raw in DelegableBy(r, actor, t) <==> MayDelegate(r, actor, t, raw)
  {
    DelegatesExactly(Held(r, actor, t), t.catalog, raw);
    if raw in DelegableBy(r, actor, t) {
      var h :| h in Held(r, actor, t) && h.Raw() in t.catalog.delegations && raw in t.catalog.delegations[h.Raw()];
      var g :| g in r.grants && g.0 == actor && ParseTarget(g.1).Success? && Split(g.1)[0] == t.namespace
        && ParseTarget(g.1).value == h;
      ParsedTargetIsText(g.1);
      assert (actor, g.1) in r.grants;
    }
    if MayDelegate(r, actor, t, raw) {
      var held :| (actor, held) in r.grants && ParseTarget(held).Success? && Split(held)[0] == t.namespace
        && held in t.catalog.delegations && raw in t.catalog.delegations[held];
      ParsedTargetIsText(held);
      assert ParseTarget(held).value in Held(r, actor, t);
    }
  }

  /** An actor acts with a seat when active and elevated or seated to grant, as a delegate when
      active and holding a delegating grant of the target, and otherwise with nothing. */
  lemma AuthorityExactly(r: Register, actor: UserId, elevated: bool, t: Tenant, target: Target)
    ensures var a := AuthorityOver(r, actor, elevated, t, target);
            && (a == Seat <==> ActsActive(r, actor) && (elevated || r.accounts[actor].seatMayGrant))
            && (a == Delegate <==> ActsActive(r, actor) && !elevated && !r.accounts[actor].seatMayGrant
                                   && MayDelegate(r, actor, t, target.Raw()))
  {
    DelegableIsHeld(r, actor, t, target.Raw());
  }

  /** The one row a request adds or takes; everybody else's rows, and every account, are as they
      were. */
  ghost predicate OnlyRow(r: Register, q: Register, user: UserId, raw: string) {
    q.accounts == r.accounts && forall g: (UserId, string) :: g != (user, raw) ==> (g in q.grants <==> g in r.grants)
  }

  /** Granted is answered exactly when the actor may grant the target to somebody addressed so,
      the catalog defines it, and the request names one active account other than theirs; the
      row stands then, and no other has moved. Every other answer moves none. */
  lemma GrantsExactly(r: Register, actor: UserId, elevated: bool, subject: Subject, target: Target, t: Tenant)
    ensures var (o, q) := Grant(r, actor, elevated, subject, target, t);
            var a := AuthorityOver(r, actor, elevated, t, target);
            && (o == Granted <==>
                  && (a == Seat || (a == Delegate && subject.ByHandle?)) && target.Grants(t.catalog) != {}
                  && Resolved(subject).One? && Resolved(subject).user != actor && ActsActive(r, Resolved(subject).user))
            && (o == Granted ==>
                  && (Resolved(subject).user, target.Raw()) in q.grants
                  && OnlyRow(r, q, Resolved(subject).user, target.Raw()))
            && (o != Granted ==> q == r)
  {
  }

  /** Only a seat learns why an account cannot be granted to; a delegate gets one answer for
      an unknown, a shared and a disabled one, and nobody may grant to themselves. */
  lemma RefusalsExactly(r: Register, actor: UserId, elevated: bool, subject: Subject, target: Target, t: Tenant)
    ensures var o := Grant(r, actor, elevated, subject, target, t).0;
            var a, named := AuthorityOver(r, actor, elevated, t, target), Resolved(subject);
            var heard := (a == Seat || (a == Delegate && subject.ByHandle?)) && target.Grants(t.catalog) != {};
            var missing := named == Nobody || (named.One? && named.user !in r.accounts);
            var disabled := named.One? && named.user in r.accounts && named.user != actor
                            && !r.accounts[named.user].active;
            && (o == Denied <==> a == NoAuthority || (a == Delegate && subject.ById?))
            && (o == UndefinedTarget <==> o != Denied && target.Grants(t.catalog) == {})
            && (o == AmbiguousAccount <==> heard && a == Seat && named == Several)
            && (o == NotFound <==> heard && a == Seat && missing)
            && (o == TargetDisabled <==> heard && a == Seat && disabled)
            && (o == Ungrantable <==> heard && a == Delegate && (named == Several || missing || disabled))
            && (o == ToSelf <==> heard && named == One(actor) && actor in r.accounts)
  {
  }

  /** What was granted can be used: the user holds the target, and may do all it names. */
  lemma GrantedIsUsable(r: Register, actor: UserId, elevated: bool, subject: Subject, raw: string, t: Tenant, p: string)
    requires Checked(t.catalog, t.namespace) && ParseTarget(raw).Success?
    requires Grant(r, actor, elevated, subject, ParseTarget(raw).value, t).0 == Granted
    ensures var q, user := Grant(r, actor, elevated, subject, ParseTarget(raw).value, t).1, Resolved(subject).user;
            && ParseTarget(raw).value in Held(q, user, t)
            && (Names(ParseTarget(raw).value, t.catalog, p) ==> p in Resolve(false, false, Held(q, user, t), t.catalog))
  {
    var target := ParseTarget(raw).value;
    var q, user := Grant(r, actor, elevated, subject, target, t).1, Resolved(subject).user;
    ParsedTargetIsText(raw);
    GrantingIsInNamespace(raw, t.catalog, t.namespace);
    GrantsWhatItNames(target, t.catalog, t.namespace);
    assert (user, raw) in q.grants;
  }

  /** Revoked is answered exactly when the actor has authority and the row stands; it is gone
      then, and no other has moved. */
  lemma RevokesExactly(r: Register, actor: UserId, elevated: bool, subject: Subject, target: Target, t: Tenant)
    ensures var (o, q) := Revoke(r, actor, elevated, subject, target, t);
            var a, named := AuthorityOver(r, actor, elevated, t, target), Resolved(subject);
            && (o == Denied <==> a == NoAuthority)
            && (o == Revoked <==> a != NoAuthority && named.One? && (named.user, target.Raw()) in r.grants)
            && (o == NotHeld <==> a != NoAuthority && !(named.One? && (named.user, target.Raw()) in r.grants))
            && (o == Revoked ==>
                  (named.user, target.Raw()) !in q.grants && OnlyRow(r, q, named.user, target.Raw()))
            && (o != Revoked ==> q == r)
  {
  }

  /** The same actor can take back at once what they granted, and a grant that was new leaves no
      trace. */
  lemma RevokingUndoesGranting(r: Register, actor: UserId, elevated: bool, subject: Subject, target: Target, t: Tenant)
    requires Grant(r, actor, elevated, subject, target, t).0 == Granted
    ensures var q := Grant(r, actor, elevated, subject, target, t).1;
            var (o, s) := Revoke(q, actor, elevated, subject, target, t);
            && o == Revoked
            && ((Resolved(subject).user, target.Raw()) !in r.grants ==> s == r)
  {
    var q, user := Grant(r, actor, elevated, subject, target, t).1, Resolved(subject).user;
    assert Held(q, actor, t) == Held(r, actor, t) by {
      assert forall g: (UserId, string) :: g.0 == actor ==> (g in q.grants <==> g in r.grants);
    }
    assert AuthorityOver(q, actor, elevated, t, target) == AuthorityOver(r, actor, elevated, t, target);
    if (user, target.Raw()) !in r.grants {
      assert q.grants - {(user, target.Raw())} == r.grants;
    }
  }

  datatype Step =
    | Grants(actor: UserId, subject: Subject, target: Target)
    | Revokes(actor: UserId, subject: Subject, target: Target)
    | AccountMoves(user: UserId, standing: Standing)

  function Apply(r: Register, s: Step, t: Tenant): Register {
    match s
    case Grants(actor, subject, target) => Grant(r, actor, false, subject, target, t).1
    case Revokes(actor, subject, target) => Revoke(r, actor, false, subject, target, t).1
    case AccountMoves(user, standing) => r.(accounts := r.accounts[user := standing])
  }

  function Run(r: Register, steps: seq<Step>, t: Tenant): Register {
    if steps == [] then r else Apply(Run(r, steps[..|steps| - 1], t), steps[|steps| - 1], t)
  }

  /** No step of the run acts with a seat's authority. */
  ghost predicate DelegatesOnly(r: Register, steps: seq<Step>, t: Tenant) {
    forall i {:trigger steps[i]} :: 0 <= i < |steps| && !steps[i].AccountMoves? ==>
      AuthorityOver(Run(r, steps[..i], t), steps[i].actor, false, t, steps[i].target) != Seat
  }

  /** The aliases some account could delegate from `r`. */
  function WithinReach(r: Register, t: Tenant): set<string> {
    set g, d | g in r.grants && d in DelegableBy(r, g.0, t) :: d
  }

  lemma DelegableIsNeverDelegating(r: Register, user: UserId, t: Tenant, alias: string)
    requires Checked(t.catalog, t.namespace) && alias in DelegableBy(r, user, t)
    ensures alias in t.catalog.aliases && alias !in t.catalog.delegations
    ensures alias in WithinReach(r, t)
  {
    var h :| h in Held(r, user, t) && h.Raw() in t.catalog.delegations && alias in t.catalog.delegations[h.Raw()];
    var g :| g in r.grants && g.0 == user && ParseTarget(g.1).Success? && Split(g.1)[0] == t.namespace
      && ParseTarget(g.1).value == h;
  }

  /** Registers holding the same delegating aliases delegate the same. */
  lemma SameDelegatorsDelegateAlike(r: Register, q: Register, user: UserId, t: Tenant)
    requires forall g: (UserId, string) :: g.1 in t.catalog.delegations ==> (g in r.grants <==> g in q.grants)
    ensures DelegableBy(r, user, t) == DelegableBy(q, user, t)
  {
    forall a, b | {a, b} == {r, q}
      ensures DelegableBy(a, user, t) <= DelegableBy(b, user, t)
    {
      forall d | d in DelegableBy(a, user, t)
        ensures d in DelegableBy(b, user, t)
      {
        var h :| h in Held(a, user, t) && h.Raw() in t.catalog.delegations && d in t.catalog.delegations[h.Raw()];
        var g :| g in a.grants && g.0 == user && ParseTarget(g.1).Success? && Split(g.1)[0] == t.namespace
          && ParseTarget(g.1).value == h;
        assert g in b.grants && h in Held(b, user, t);
      }
    }
  }

  /** What a run of delegates may change: grants of aliases already within reach, none of
      which delegates. */
  ghost predicate Closed(r: Register, q: Register, t: Tenant) {
    && (forall g: (UserId, string) :: g.1 in t.catalog.delegations ==> (g in r.grants <==> g in q.grants))
    && (forall g: (UserId, string) :: (g in r.grants) != (g in q.grants) ==> g.1 in WithinReach(r, t))
  }

  lemma ClosedReach(r: Register, q: Register, t: Tenant, user: UserId, alias: string)
    requires Checked(t.catalog, t.namespace) && Closed(r, q, t)
    requires alias in DelegableBy(q, user, t)
    ensures alias in WithinReach(r, t) && alias !in t.catalog.delegations
  {
    SameDelegatorsDelegateAlike(r, q, user, t);
    DelegableIsNeverDelegating(r, user, t, alias);
  }

  /** A granted or revoked row, or none, is all a step of an account changes. */
  lemma StepTouchesOneGrant(q: Register, s: Step, t: Tenant)
    requires !s.AccountMoves?
    ensures forall g: (UserId, string) :: (g in q.grants) != (g in Apply(q, s, t).grants) ==> g.1 == s.target.Raw()
    ensures AuthorityOver(q, s.actor, false, t, s.target) == NoAuthority ==> Apply(q, s, t).grants == q.grants
  {
  }

  lemma StepIsClosed(r: Register, q: Register, s: Step, t: Tenant)
    requires Checked(t.catalog, t.namespace) && Closed(r, q, t)
    requires s.AccountMoves? || AuthorityOver(q, s.actor, false, t, s.target) != Seat
    ensures Closed(r, Apply(q, s, t), t)
  {
    if !s.AccountMoves? {
      StepTouchesOneGrant(q, s, t);
      if AuthorityOver(q, s.actor, false, t, s.target) == Delegate {
        ClosedReach(r, q, t, s.actor, s.target.Raw());
      }
    }
  }

  /** Delegation is closed: against a checked catalog, no run of delegates' grants and
      revocations, with accounts coming and going, changes who holds a delegating alias. */
  lemma {:induction false} DelegationIsClosed(r: Register, steps: seq<Step>, t: Tenant)
    requires Checked(t.catalog, t.namespace) && DelegatesOnly(r, steps, t)
    ensures Closed(r, Run(r, steps, t), t)
    decreases |steps|
  {
    if steps != [] {
      var n := |steps| - 1;
      assert forall i :: 0 <= i < n ==> steps[..n][i] == steps[i] && steps[..n][..i] == steps[..i];
      DelegationIsClosed(r, steps[..n], t);
      StepIsClosed(r, Run(r, steps[..n], t), steps[n], t);
    }
  }

  /** So nobody gains or loses the power to delegate. */
  lemma PowerToDelegateIsFixed(r: Register, steps: seq<Step>, t: Tenant, user: UserId)
    requires Checked(t.catalog, t.namespace) && DelegatesOnly(r, steps, t)
    ensures DelegableBy(Run(r, steps, t), user, t) == DelegableBy(r, user, t)
  {
    DelegationIsClosed(r, steps, t);
    SameDelegatorsDelegateAlike(r, Run(r, steps, t), user, t);
  }

  /** And whatever a user can do after the run that they could not do before comes from an
      alias somebody could already delegate. */
  lemma NobodyGainsBeyondReach(r: Register, steps: seq<Step>, t: Tenant, user: UserId, p: string)
    requires Checked(t.catalog, t.namespace) && DelegatesOnly(r, steps, t)
    requires p in Resolve(false, false, Held(Run(r, steps, t), user, t), t.catalog)
    ensures p in t.catalog.permissions && Split(p)[0] == t.namespace
    ensures || p in Resolve(false, false, Held(r, user, t), t.catalog)
            || exists alias :: alias in WithinReach(r, t) && alias in t.catalog.aliases && p in t.catalog.aliases[alias]
  {
    var q := Run(r, steps, t);
    DelegationIsClosed(r, steps, t);
    ResolvedStaysInNamespace(false, false, Held(q, user, t), t.catalog, t.namespace, p);
    var h :| h in Held(q, user, t) && p in h.Grants(t.catalog);
    var g :| g in q.grants && g.0 == user && ParseTarget(g.1).Success? && Split(g.1)[0] == t.namespace
      && ParseTarget(g.1).value == h;
    if g in r.grants {
      assert h in Held(r, user, t);
    } else {
      assert g.1 in WithinReach(r, t);
      var g', d :| g' in r.grants && d in DelegableBy(r, g'.0, t) && d == g.1;
      DelegableIsNeverDelegating(r, g'.0, t, d);
      assert IsAliasNameOf(d, t.namespace);
      AliasTextIsAlias(d, t.namespace);
    }
  }

  /** An alias name parses as that alias. */
  lemma AliasTextIsAlias(raw: string, namespace: string)
    requires IsAliasNameOf(raw, namespace) && ParseTarget(raw).Success?
    ensures ParseTarget(raw).value == Alias(raw)
  {
    NoStarInConcrete(raw);
  }

  lemma {:induction false} NoStarInConcrete(raw: string)
    requires forall s :: s in Split(raw) ==> s == "" || IsSegment(s)
    ensures '*' !in raw
  {
    if raw != "" {
      var rest := Split(raw[1..]);
      if raw[0] == ':' {
        assert Split(raw)[1..] == rest;
      } else {
        assert Split(raw)[0] in Split(raw) && raw[0] in Split(raw)[0];
        forall s | s in rest ensures s == "" || IsSegment(s) {
          if s == rest[0] {
            assert forall c :: c in s ==> c in Split(raw)[0];
          } else {
            assert s in Split(raw);
          }
        }
      }
      NoStarInConcrete(raw[1..]);
      assert raw == [raw[0]] + raw[1..];
    }
  }
}
