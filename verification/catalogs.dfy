/** What one namespace publishes, what a grant names inside it, and what a user's grants
    resolve to. */
module Catalogs {
  import opened Results
  import opened Permissions

  const MAX_PERMISSIONS: nat := 1024
  const MAX_ALIASES: nat := 128
  const RESERVED_NAMESPACES: set<string> := {"iam", "concierge", "bank", "seat"}

  datatype Catalog = Catalog(
    version: nat,
    permissions: set<string>,
    aliases: map<string, set<string>>,
    delegations: map<string, set<string>>)

  predicate Ours(raw: string, namespace: string) {
    |raw| <= MAX_NAME_CHARS && Split(raw)[0] == namespace
  }

  predicate IsPermissionOf(raw: string, namespace: string) {
    |Split(raw)| >= 3 && Concrete(Split(raw)) && Ours(raw, namespace)
  }

  predicate IsAliasNameOf(raw: string, namespace: string) {
    |Split(raw)| == 2 && Concrete(Split(raw)) && Ours(raw, namespace)
  }

  /** A delegated alias delegates nothing itself: a holder can never mint a peer, nor
      someone who could mint them. */
  ghost predicate Checked(c: Catalog, namespace: string) {
    && |c.permissions| <= MAX_PERMISSIONS && |c.aliases| <= MAX_ALIASES
    && (forall p :: p in c.permissions ==> IsPermissionOf(p, namespace))
    && (forall name :: name in c.aliases ==> IsAliasNameOf(name, namespace) && c.aliases[name] <= c.permissions)
    && (forall name :: name in c.delegations ==>
          && name in c.aliases && c.delegations[name] != {}
          && forall d :: d in c.delegations[name] ==> d in c.aliases && d !in c.delegations)
  }

  method Check(c: Catalog, namespace: string) returns (r: Result<()>)
    ensures r.Success? <==> Checked(c, namespace)
  {
    if |c.permissions| > MAX_PERMISSIONS || |c.aliases| > MAX_ALIASES {
      return Failure(Validation);
    }
    var left := c.permissions;
    while left != {}
      invariant left <= c.permissions
      invariant forall p :: p in c.permissions - left ==> IsPermissionOf(p, namespace)
      decreases left
    {
      var p :| p in left;
      if !IsPermissionOf(p, namespace) {
        return Failure(Validation);
      }
      left := left - {p};
    }
    left := c.aliases.Keys;
    while left != {}
      invariant left <= c.aliases.Keys
      invariant forall name :: name in c.aliases.Keys - left ==>
                  IsAliasNameOf(name, namespace) && c.aliases[name] <= c.permissions
      decreases left
    {
      var name :| name in left;
      if !IsAliasNameOf(name, namespace) || !(c.aliases[name] <= c.permissions) {
        return Failure(Validation);
      }
      left := left - {name};
    }
    left := c.delegations.Keys;
    while left != {}
      invariant left <= c.delegations.Keys
      invariant forall name :: name in c.delegations.Keys - left ==>
                  && name in c.aliases && c.delegations[name] != {}
                  && forall d :: d in c.delegations[name] ==> d in c.aliases && d !in c.delegations
      decreases left
    {
      var name :| name in left;
      if name !in c.aliases || c.delegations[name] == {} {
        return Failure(Validation);
      }
      if exists d :: d in c.delegations[name] && (d !in c.aliases || d in c.delegations) {
        return Failure(Validation);
      }
      left := left - {name};
    }
    return Success(());
  }

  /** What a grant names. */
  datatype Target = Alias(name: string) | OfPattern(pattern: Pattern) {
    function Raw(): string {
      match this
      case Alias(name) => name
      case OfPattern(pattern) => pattern.raw
    }

    /** The permissions of `c` this target grants; none, when it is orphaned. */
    function Grants(c: Catalog): set<string> {
      match this
      case Alias(name) => if name in c.aliases then c.aliases[name] else {}
      case OfPattern(pattern) => set p | p in c.permissions && Covers(pattern.Segments(), Split(p))
    }
  }

  function ParseTarget(raw: string): Result<Target> {
    match Parse(raw)
    case Failure(e) => Failure(e)
    case Success(pattern) =>
      if pattern.Namespace() in RESERVED_NAMESPACES then Failure(Validation)
      else if |Split(raw)| == 2 && '*' !in raw then Success(Alias(raw))
      else Success(OfPattern(pattern))
  }

  /** Everything a seat and `targets` let a user do inside the catalog's namespace. */
  function Resolve(seatMayGrant: bool, grantingSeatsHoldAll: bool, targets: set<Target>, c: Catalog): set<string> {
    if grantingSeatsHoldAll && seatMayGrant then c.permissions
    else set t, p | t in targets && p in t.Grants(c) :: p
  }

  /** The aliases a holder of `targets` may grant and revoke. */
  function Delegable(targets: set<Target>, c: Catalog): set<string> {
    set t, d | t in targets && t.Raw() in c.delegations && d in c.delegations[t.Raw()] :: d
  }

  /** Every resolved permission is a permission of the catalog, in its namespace. */
  lemma ResolvedStaysInNamespace(seatMayGrant: bool, holdAll: bool, targets: set<Target>, c: Catalog,
                                 namespace: string, p: string)
    requires Checked(c, namespace) && p in Resolve(seatMayGrant, holdAll, targets, c)
    ensures p in c.permissions && Split(p)[0] == namespace
  {
    assert IsPermissionOf(p, namespace) by {
      if !(holdAll && seatMayGrant) {
        var t :| t in targets && p in t.Grants(c);
      }
    }
  }

  /** A pattern target grants exactly the catalog's permissions its glob matches, so a
      pattern that includes another never grants less, in any catalog. */
  lemma PatternGrantsFollowInclusion(p: Pattern, q: Pattern, c: Catalog, namespace: string)
    requires Parse(p.raw).Success? && Parse(q.raw).Success? && Checked(c, namespace)
    ensures forall x :: x in OfPattern(p).Grants(c) <==> x in c.permissions && Glob(p.Segments(), Split(x))
    ensures Includes(p.Segments(), q.Segments()) ==> OfPattern(q).Grants(c) <= OfPattern(p).Grants(c)
  {
    forall x | x in c.permissions
      ensures Covers(p.Segments(), Split(x)) <==> Glob(p.Segments(), Split(x))
      ensures Covers(q.Segments(), Split(x)) <==> Glob(q.Segments(), Split(x))
    {
      assert IsPermissionOf(x, namespace);
      MatchesIsGlob(p.Segments(), Split(x));
      MatchesIsGlob(q.Segments(), Split(x));
    }
  }

  /** No target reaches into a reserved namespace: what it grants there, in a checked
      catalog of that namespace, is nothing. */
  lemma ReservedNamespacesUngrantable(raw: string, c: Catalog, namespace: string)
    requires ParseTarget(raw).Success? && namespace in RESERVED_NAMESPACES && Checked(c, namespace)
    ensures ParseTarget(raw).value.Grants(c) == {}
  {
    var t := ParseTarget(raw).value;
    match t {
      case Alias(name) => assert name in c.aliases ==> IsAliasNameOf(name, namespace);
      case OfPattern(pattern) =>
        forall p | p in c.permissions ensures !Covers(pattern.Segments(), Split(p)) {
          assert IsPermissionOf(p, namespace);
          assert '*' in "*" && !IsSegment("*");
        }
    }
  }

  // ---- What a user may do, name by name ----

  /** `p` is what the target names: a permission listed under the alias, or one of the catalog's
      that the pattern globs. */
  ghost predicate Names(t: Target, c: Catalog, p: string) {
    match t
    case Alias(name) => name in c.aliases && p in c.aliases[name]
    case OfPattern(pattern) => p in c.permissions && Glob(pattern.Segments(), Split(p))
  }

  lemma GrantsWhatItNames(t: Target, c: Catalog, namespace: string)
    requires Checked(c, namespace) && (t.OfPattern? ==> Parse(t.pattern.raw).Success?)
    ensures forall p :: p in t.Grants(c) <==> Names(t, c, p)
  {
    if t.OfPattern? {
      PatternGrantsFollowInclusion(t.pattern, t.pattern, c, namespace);
    }
  }

  /** A user may do exactly what some target they hold names, and everything in the catalog when
      their seat may grant and granting seats hold all. */
  lemma ResolvesExactly(seatMayGrant: bool, holdAll: bool, targets: set<Target>, c: Catalog,
                        namespace: string, p: string)
    requires Checked(c, namespace)
    requires forall t :: t in targets && t.OfPattern? ==> Parse(t.pattern.raw).Success?
    ensures p in Resolve(seatMayGrant, holdAll, targets, c) <==>
              if holdAll && seatMayGrant then p in c.permissions else exists t :: t in targets && Names(t, c, p)
  {
    forall t | t in targets ensures p in t.Grants(c) <==> Names(t, c, p) {
      GrantsWhatItNames(t, c, namespace);
    }
  }

  /** They may delegate exactly what the catalog lets some target they hold delegate. */
  lemma DelegatesExactly(targets: set<Target>, c: Catalog, alias: string)
    ensures alias in Delegable(targets, c) <==>
              exists t :: t in targets && t.Raw() in c.delegations && alias in c.delegations[t.Raw()]
  {
  }

  /** A target's text parses back to it, inside a namespace that is not reserved. */
  lemma ParsedTargetIsText(raw: string)
    requires ParseTarget(raw).Success?
    ensures var t := ParseTarget(raw).value;
            && t.Raw() == raw && Split(raw)[0] !in {"iam", "concierge", "bank", "seat"}
            && (t.OfPattern? ==> Parse(t.pattern.raw).Success?)
            && (t.Alias? <==> |Split(raw)| == 2 && '*' !in raw)
  {
  }

  /** What grants anything in a checked catalog lies in its namespace. */
  lemma GrantingIsInNamespace(raw: string, c: Catalog, namespace: string)
    requires Checked(c, namespace) && ParseTarget(raw).Success? && ParseTarget(raw).value.Grants(c) != {}
    ensures Split(raw)[0] == namespace
  {
    var t := ParseTarget(raw).value;
    if t.OfPattern? {
      var p :| p in t.Grants(c);
      assert IsPermissionOf(p, namespace);
      assert '*' in "*" && !IsSegment("*");
    }
  }

  // ---- What the check asks, spelled out ----

  /** Text of so many words joined by colons, the first of them the namespace. */
  ghost predicate WordsOf(raw: string, namespace: string) {
    |raw| <= 128 && Split(raw)[0] == namespace && forall i :: 0 <= i < |Split(raw)| ==> Word(Split(raw)[i])
  }

  lemma ConcreteIsWords(raw: string)
    ensures Concrete(Split(raw)) <==> forall i :: 0 <= i < |Split(raw)| ==> Word(Split(raw)[i])
  {
    forall i | 0 <= i < |Split(raw)| ensures Word(Split(raw)[i]) <==> IsSegment(Split(raw)[i]) {
      WordsAreSegments(Split(raw)[i]);
    }
    if Concrete(Split(raw)) {
      assert forall i :: 0 <= i < |Split(raw)| ==> Split(raw)[i] in Split(raw);
    }
  }

  lemma NamesSay(raw: string, namespace: string)
    ensures IsPermissionOf(raw, namespace) <==> |Split(raw)| >= 3 && WordsOf(raw, namespace)
    ensures IsAliasNameOf(raw, namespace) <==> |Split(raw)| == 2 && WordsOf(raw, namespace)
  {
    ConcreteIsWords(raw);
  }

  ghost predicate ListsPermissions(c: Catalog, namespace: string) {
    |c.permissions| <= 1024 && forall p :: p in c.permissions ==> |Split(p)| >= 3 && WordsOf(p, namespace)
  }

  ghost predicate ListsAliases(c: Catalog, namespace: string) {
    && |c.aliases| <= 128
    && forall a :: a in c.aliases ==>
         |Split(a)| == 2 && WordsOf(a, namespace) && forall p :: p in c.aliases[a] ==> p in c.permissions
  }

  ghost predicate DelegatesOnce(c: Catalog) {
    forall a :: a in c.delegations ==>
      && a in c.aliases && (exists d :: d in c.delegations[a])
      && forall d :: d in c.delegations[a] ==> d in c.aliases && d !in c.delegations
  }

  /** A checked catalog lists at most 1024 permissions of three words and more and 128 aliases of
      two, all of its namespace; its aliases hold listed permissions; and whatever delegates is
      an alias, delegates something, and only to aliases that delegate nothing. */
  lemma CheckedSays(c: Catalog, namespace: string)
    ensures Checked(c, namespace) <==>
              ListsPermissions(c, namespace) && ListsAliases(c, namespace) && DelegatesOnce(c)
  {
    PermissionsListed(c, namespace);
    AliasesListed(c, namespace);
  }

  lemma PermissionsListed(c: Catalog, namespace: string)
    ensures ListsPermissions(c, namespace) <==>
              |c.permissions| <= 1024 && forall p :: p in c.permissions ==> IsPermissionOf(p, namespace)
  {
    forall p | p in c.permissions ensures IsPermissionOf(p, namespace) <==> |Split(p)| >= 3 && WordsOf(p, namespace) {
      NamesSay(p, namespace);
    }
  }

  lemma AliasesListed(c: Catalog, namespace: string)
    ensures ListsAliases(c, namespace) <==>
              && |c.aliases| <= 128
              && forall a :: a in c.aliases ==> IsAliasNameOf(a, namespace) && c.aliases[a] <= c.permissions
  {
    forall a | a in c.aliases ensures IsAliasNameOf(a, namespace) <==> |Split(a)| == 2 && WordsOf(a, namespace) {
      NamesSay(a, namespace);
    }
  }
}
