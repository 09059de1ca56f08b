/** Publishing a catalog: a tenant's client states its whole namespace, and what is stored is
    never older than what was stored before. */
module Publishing {
  import opened Results
  import opened Catalogs

  const MAX_CATALOG_VERSION_LEAD_SECS: nat := 24 * 60 * 60

  datatype PublishedAlias = PublishedAlias(name: string, members: seq<string>, delegates: seq<string>)

  datatype Publication = Publication(version: nat, permissions: seq<string>, aliases: seq<PublishedAlias>)

  datatype Outcome = Published | Unchanged | Stale(stored: nat) | Invalid

  // ---- Reading the publication ----

  ghost predicate DistinctNames(aliases: seq<PublishedAlias>) {
    forall i, j :: 0 <= i < j < |aliases| ==> aliases[i].name != aliases[j].name
  }

  function SetOf(names: seq<string>): set<string> {
    set n | n in names
  }

  function NamesOf(aliases: seq<PublishedAlias>): set<string> {
    set a | a in aliases :: a.name
  }

  /** `c` says of this alias what its entry says. */
  ghost predicate Carries(c: Catalog, a: PublishedAlias) {
    && a.name in c.aliases && c.aliases[a.name] == SetOf(a.members)
    && (a.name in c.delegations <==> a.delegates != [])
    && (a.delegates != [] ==> c.delegations[a.name] == SetOf(a.delegates))
  }

  /** And of every published alias, and of no other. */
  ghost predicate CarriesAll(c: Catalog, aliases: seq<PublishedAlias>) {
    && (forall a :: a in aliases ==> Carries(c, a))
    && c.aliases.Keys == NamesOf(aliases) && c.delegations.Keys <= c.aliases.Keys
  }

  ghost predicate Describes(c: Catalog, p: Publication) {
    c.version == p.version && c.permissions == SetOf(p.permissions) && CarriesAll(c, p.aliases)
  }

  function With(c: Catalog, a: PublishedAlias): Catalog {
    c.(aliases := c.aliases[a.name := SetOf(a.members)],
       delegations := if a.delegates == [] then c.delegations else c.delegations[a.name := SetOf(a.delegates)])
  }

  lemma WithCarries(c: Catalog, done: seq<PublishedAlias>, a: PublishedAlias)
    requires CarriesAll(c, done) && a.name !in c.aliases
    ensures CarriesAll(With(c, a), done + [a])
  {
    assert a in done + [a];
    assert forall b :: b in done ==> b.name in NamesOf(done);
    forall name | name in NamesOf(done) ensures name in NamesOf(done + [a]) {
      var b :| b in done && b.name == name;
      assert b in done + [a];
    }
    assert NamesOf(done + [a]) == NamesOf(done) + {a.name};
  }

  /** The catalog a publication states, entry after entry. */
  function Stated(p: Publication, aliases: seq<PublishedAlias>): Catalog {
    if aliases == [] then Catalog(p.version, SetOf(p.permissions), map[], map[])
    else With(Stated(p, aliases[..|aliases| - 1]), aliases[|aliases| - 1])
  }

  function CatalogOf(p: Publication): Catalog {
    Stated(p, p.aliases)
  }

  /** When no name repeats, that catalog says exactly what was published. */
  lemma {:induction false} StatedCarries(p: Publication, aliases: seq<PublishedAlias>)
    requires DistinctNames(aliases)
    ensures var c := Stated(p, aliases);
            c.version == p.version && c.permissions == SetOf(p.permissions) && CarriesAll(c, aliases)
    decreases |aliases|
  {
    if aliases != [] {
      var front, last := aliases[..|aliases| - 1], aliases[|aliases| - 1];
      StatedCarries(p, front);
      assert last.name !in NamesOf(front);
      WithCarries(Stated(p, front), front, last);
      assert aliases == front + [last];
    }
  }

  /** Refused exactly when a name is published twice; otherwise every entry is carried over. */
  method Collect(p: Publication) returns (r: Result<Catalog>)
    ensures r.Success? <==> DistinctNames(p.aliases)
    ensures r.Success? ==> r.value == CatalogOf(p) && Describes(r.value, p)
  {
    var aliases: map<string, set<string>>, delegations: map<string, set<string>> := map[], map[];
    for i := 0 to |p.aliases|
      invariant DistinctNames(p.aliases[..i])
      invariant Catalog(p.version, SetOf(p.permissions), aliases, delegations) == Stated(p, p.aliases[..i])
    {
      var alias := p.aliases[i];
      assert p.aliases[..i + 1] == p.aliases[..i] + [alias];
      StatedCarries(p, p.aliases[..i]);
      if alias.delegates != [] { delegations := delegations[alias.name := SetOf(alias.delegates)]; }
      if alias.name in aliases {
        var other :| other in p.aliases[..i] && other.name == alias.name;
        var k :| 0 <= k < i && p.aliases[k] == other;
        assert p.aliases[k].name == p.aliases[i].name;
        return Failure(Validation);
      }
      NewNameIsDistinct(p.aliases[..i], alias);
      aliases := aliases[alias.name := SetOf(alias.members)];
    }
    assert p.aliases[..|p.aliases|] == p.aliases;
    StatedCarries(p, p.aliases);
    return Success(Catalog(p.version, SetOf(p.permissions), aliases, delegations));
  }

  lemma NewNameIsDistinct(done: seq<PublishedAlias>, a: PublishedAlias)
    requires DistinctNames(done) && a.name !in NamesOf(done)
    ensures DistinctNames(done + [a])
  {
    forall i | 0 <= i < |done| ensures done[i].name != a.name {
      assert done[i] in done && done[i].name in NamesOf(done);
    }
  }

  // ---- Storing it ----

  /** The catalogs stored for one tenant, in the order they were stored. */
  type History = seq<Catalog>

  /** What the transaction decides from the newest stored catalog it has locked. */
  function Decide(h: History, c: Catalog): Outcome {
    if c.version > I64_MAX then Invalid
    else if h == [] then Published
    else if h[|h| - 1] == c then Unchanged
    else if h[|h| - 1].version >= c.version then Stale(h[|h| - 1].version)
    else Published
  }

  function Store(h: History, c: Catalog): History {
    if Decide(h, c) == Published then h + [c] else h
  }

  /** A publication the handler stores, if it is newer: not too far ahead of the clock, naming
      each alias once, and passing the catalog's check. */
  ghost function Accepted(namespace: string, p: Publication, now: nat): Option<Catalog> {
    if p.version <= now + MAX_CATALOG_VERSION_LEAD_SECS && DistinctNames(p.aliases) && Checked(CatalogOf(p), namespace)
    then Some(CatalogOf(p)) else None
  }

  ghost function PublishTo(h: History, namespace: string, p: Publication, now: nat): (Outcome, History) {
    match Accepted(namespace, p, now)
    case None => (Invalid, h)
    case Some(c) => (Decide(h, c), Store(h, c))
  }

  /** A tenant's stored catalogs, behind the handler that publishes to them. */
  class Shelf {
    const namespace: string
    var history: History

    constructor (namespace: string)
      ensures history == [] && this.namespace == namespace
    {
      this.namespace := namespace;
      history := [];
    }

    method Publish(p: Publication, now: nat) returns (outcome: Outcome)
      modifies this`history
      ensures (outcome, history) == PublishTo(old(history), namespace, p, now)
    {
      if p.version > now + MAX_CATALOG_VERSION_LEAD_SECS {
        return Invalid;
      }
      var collected := Collect(p);
      if collected.Failure? {
        return Invalid;
      }
      var c := collected.value;
      var checked := Check(c, namespace);
      if checked.Failure? {
        return Invalid;
      }
      if c.version > I64_MAX {
        return Invalid;
      }
      if history != [] {
        var stored := history[|history| - 1];
        if stored == c { return Unchanged; }
        if stored.version >= c.version { return Stale(stored.version); }
      }
      history := history + [c];
      outcome := Published;
    }
  }

  // ---- Runs ----

  datatype Arrival = Arrival(publication: Publication, now: nat)

  /** Publications as they reach the shelf: any of them, in any order, at any clock. */
  ghost function Run(namespace: string, arrivals: seq<Arrival>): History {
    if arrivals == [] then []
    else
      var last := arrivals[|arrivals| - 1];
      PublishTo(Run(namespace, arrivals[..|arrivals| - 1]), namespace, last.publication, last.now).1
  }

  ghost predicate Brought(namespace: string, arrivals: seq<Arrival>, c: Catalog) {
    exists a :: a in arrivals && Accepted(namespace, a.publication, a.now) == Some(c)
  }

  lemma AcceptedIsChecked(namespace: string, p: Publication, now: nat)
    ensures Accepted(namespace, p, now).Some? ==>
              Checked(Accepted(namespace, p, now).value, namespace) && Describes(Accepted(namespace, p, now).value, p)
  {
    if DistinctNames(p.aliases) {
      StatedCarries(p, p.aliases);
    }
  }

  lemma StoreIsNewer(h: History, c: Catalog)
    ensures var g := Store(h, c);
            && h <= g
            && (h != [] ==> h[|h| - 1].version <= g[|g| - 1].version)
            && (c.version <= I64_MAX ==> g != [] && c.version <= g[|g| - 1].version)
            && (forall d :: d in g ==> d in h || d == c)
  {
  }

  ghost predicate Rising(h: History) {
    && (forall i :: 0 <= i < |h| ==> h[i].version <= I64_MAX)
    && (forall i, j :: 0 <= i < j < |h| ==> h[i].version < h[j].version)
  }

  lemma StoreRises(h: History, c: Catalog)
    requires Rising(h)
    ensures Rising(Store(h, c))
  {
    if Decide(h, c) == Published {
      assert forall i :: 0 <= i < |h| ==> h[i].version <= h[|h| - 1].version;
    }
  }

  /** In whatever order publications arrive, delayed, repeated or rolled back: every stored
      catalog was brought by an accepted publication and passed the check, and each is strictly
      newer than the one before. */
  lemma {:induction false} HistoryAdvances(namespace: string, arrivals: seq<Arrival>)
    ensures var h := Run(namespace, arrivals);
            && Rising(h)
            && (forall c :: c in h ==> Brought(namespace, arrivals, c))
            && (forall c :: c in h ==> Checked(c, namespace))
    decreases |arrivals|
  {
    if arrivals != [] {
      var front, last := arrivals[..|arrivals| - 1], arrivals[|arrivals| - 1];
      HistoryAdvances(namespace, front);
      ArrivalStores(namespace, front, last);
      assert arrivals == front + [last];
    }
  }

  lemma ArrivalStores(namespace: string, front: seq<Arrival>, last: Arrival)
    requires var h := Run(namespace, front);
             Rising(h) && (forall c :: c in h ==> Brought(namespace, front, c) && Checked(c, namespace))
    ensures var h := PublishTo(Run(namespace, front), namespace, last.publication, last.now).1;
            Rising(h) && (forall c :: c in h ==> Brought(namespace, front + [last], c) && Checked(c, namespace))
  {
    var h := Run(namespace, front);
    var accepted := Accepted(namespace, last.publication, last.now);
    AcceptedIsChecked(namespace, last.publication, last.now);
    if accepted.Some? {
      StoreRises(h, accepted.value);
      StoreIsNewer(h, accepted.value);
      assert last in front + [last];
    }
    forall c | Brought(namespace, front, c) ensures Brought(namespace, front + [last], c) {
      var a :| a in front && Accepted(namespace, a.publication, a.now) == Some(c);
      assert a in front + [last];
    }
  }

  ghost predicate AtLeast(h: History, version: nat) {
    h != [] && version <= h[|h| - 1].version
  }

  lemma BroughtSoFar(namespace: string, front: seq<Arrival>, last: Arrival, c: Catalog)
    ensures Brought(namespace, front + [last], c) <==>
              Brought(namespace, front, c) || Accepted(namespace, last.publication, last.now) == Some(c)
  {
    assert last in front + [last];
    if Brought(namespace, front, c) {
      var a :| a in front && Accepted(namespace, a.publication, a.now) == Some(c);
      assert a in front + [last];
    }
  }

  /** None accepted carries a higher version than the last one stored. */
  lemma {:induction false} StoredIsNewest(namespace: string, arrivals: seq<Arrival>, c: Catalog)
    requires Brought(namespace, arrivals, c) && c.version <= I64_MAX
    ensures AtLeast(Run(namespace, arrivals), c.version)
    decreases |arrivals|
  {
    if arrivals != [] {
      var front, last := arrivals[..|arrivals| - 1], arrivals[|arrivals| - 1];
      assert arrivals == front + [last];
      BroughtSoFar(namespace, front, last, c);
      if Brought(namespace, front, c) {
        StoredIsNewest(namespace, front, c);
      }
      ArrivalIsNewer(Run(namespace, front), namespace, last, c);
    }
  }

  lemma ArrivalIsNewer(h: History, namespace: string, last: Arrival, c: Catalog)
    requires AtLeast(h, c.version)
             || (Accepted(namespace, last.publication, last.now) == Some(c) && c.version <= I64_MAX)
    ensures AtLeast(PublishTo(h, namespace, last.publication, last.now).1, c.version)
  {
    var accepted := Accepted(namespace, last.publication, last.now);
    if accepted.Some? {
      StoreIsNewer(h, accepted.value);
    }
  }

  /** Publishing again what is stored changes nothing, however often; a different catalog at
      the stored version, or any older one, is refused by the version it met. */
  lemma RepublishingIsIdempotent(h: History, c: Catalog, again: Catalog)
    requires c.version <= I64_MAX && Decide(h, c) == Published
    ensures Decide(Store(h, c), c) == Unchanged && Store(Store(h, c), c) == Store(h, c)
    ensures again != c && again.version <= c.version ==> Decide(Store(h, c), again) == Stale(c.version)
  {
  }

  /** What the handler does with a publication: one more than a day ahead of the clock, naming
      an alias twice, failing the check or past `i64` is invalid; what is stored already is
      unchanged; one no newer than that is stale; and any other becomes the newest catalog,
      saying what was published. */
  lemma PublishDoes(h: History, namespace: string, p: Publication, now: nat)
    ensures var (o, g) := PublishTo(h, namespace, p, now);
            var c := CatalogOf(p);
            var sound := p.version <= now + 86400 && DistinctNames(p.aliases) && Checked(c, namespace)
                         && p.version <= 0x7FFF_FFFF_FFFF_FFFF;
            && (o == Invalid <==> !sound)
            && (o == Unchanged <==> sound && h != [] && h[|h| - 1] == c)
            && (o.Stale? <==> sound && h != [] && h[|h| - 1] != c && h[|h| - 1].version >= p.version)
            && (o.Stale? ==> o.stored == h[|h| - 1].version)
            && (o == Published <==> sound && (h == [] || h[|h| - 1].version < p.version))
            && g == (if o == Published then h + [c] else h)
            && (o == Published ==> Describes(c, p))
  {
    if DistinctNames(p.aliases) {
      StatedCarries(p, p.aliases);
    }
    StatedVersion(p, p.aliases);
  }

  lemma {:induction false} StatedVersion(p: Publication, aliases: seq<PublishedAlias>)
    ensures Stated(p, aliases).version == p.version
    decreases |aliases|
  {
    if aliases != [] {
      StatedVersion(p, aliases[..|aliases| - 1]);
    }
  }
}
