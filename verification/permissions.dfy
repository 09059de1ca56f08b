/** Permission names and `*` patterns over them, and what it means for one pattern to
    contain another. */
module Permissions {
  import opened Results

  const MAX_NAME_CHARS: nat := 128

  /** Splitting at every ':'; a name without one is a single segment. */
  function Split(raw: string): (segments: seq<string>)
    ensures segments != []
  {
    if raw == "" then [""]
    else
      var rest := Split(raw[1..]);
      if raw[0] == ':' then [""] + rest else [[raw[0]] + rest[0]] + rest[1..]
  }

  function Join(segments: seq<string>): string
    requires segments != []
  {
    if |segments| == 1 then segments[0] else segments[0] + ":" + Join(segments[1..])
  }

  /** No two names split alike. */
  lemma {:induction false} JoinOfSplit(raw: string)
    ensures Join(Split(raw)) == raw
  {
    if raw != "" {
      JoinOfSplit(raw[1..]);
      var rest := Split(raw[1..]);
      if raw[0] == ':' {
        assert ([""] + rest)[1..] == rest;
      } else if |rest| > 1 {
        assert Split(raw)[1..] == rest[1..];
      }
    }
  }

  lemma {:induction false} SegmentsHaveNoColon(raw: string)
    ensures forall s :: s in Split(raw) ==> ':' !in s
  {
    if raw != "" {
      SegmentsHaveNoColon(raw[1..]);
    }
  }

  lemma {:induction false} SplitOfJoin(segments: seq<string>)
    requires segments != [] && forall s :: s in segments ==> ':' !in s
    ensures Split(Join(segments)) == segments
    decreases |segments|
  {
    if |segments| == 1 {
      OneSegment(segments[0]);
    } else {
      SplitOfJoin(segments[1..]);
      SegmentThenRest(segments[0], Join(segments[1..]));
    }
  }

  lemma {:induction false} OneSegment(s: string)
    requires ':' !in s
    ensures Split(s) == [s]
  {
    if s != "" {
      OneSegment(s[1..]);
      assert [s[0]] + s[1..] == s;
    }
  }

  lemma {:induction false} SegmentThenRest(s: string, rest: string)
    requires ':' !in s
    ensures Split(s + ":" + rest) == [s] + Split(rest)
  {
    var raw := s + ":" + rest;
    if s == "" {
      assert raw == ":" + rest && raw[1..] == rest;
    } else {
      assert raw[1..] == s[1..] + ":" + rest && raw[0] == s[0];
      SegmentThenRest(s[1..], rest);
      assert [s[0]] + s[1..] == s;
    }
  }

  /** Splitting is the one way to write a name as segments without a colon, joined by colons. */
  lemma SplitsExactly(raw: string, segments: seq<string>)
    ensures segments == Split(raw) <==>
              segments != [] && (forall s :: s in segments ==> ':' !in s) && Join(segments) == raw
  {
    JoinOfSplit(raw);
    SegmentsHaveNoColon(raw);
    if segments != [] && (forall s :: s in segments ==> ':' !in s) && Join(segments) == raw {
      SplitOfJoin(segments);
    }
  }

  predicate IsSegment(s: string) {
    s != "" && forall c :: c in s ==> 'a' <= c <= 'z' || '0' <= c <= '9' || c == '_'
  }

  /** A permission, or a set of them: `*` stands for one segment, a trailing `*` for one or
      more. */
  datatype Pattern = Pattern(raw: string) {
    function Segments(): seq<string> {
      Split(raw)
    }

    function Namespace(): string {
      Segments()[0]
    }
  }

  predicate IsPattern(segments: seq<string>) {
    && |segments| >= 2
    && IsSegment(segments[0])
    && forall i :: 1 <= i < |segments| ==> segments[i] == "*" || IsSegment(segments[i])
  }

  function Parse(raw: string): Result<Pattern> {
    if |raw| > MAX_NAME_CHARS || !IsPattern(Split(raw)) then Failure(Validation) else Success(Pattern(raw))
  }

  /** A word: lower-case letters, digits and underscores by their codes, at least one. */
  predicate Word(s: string) {
    |s| > 0 && forall i :: 0 <= i < |s| ==> 97 <= s[i] as int <= 122 || 48 <= s[i] as int <= 57 || s[i] as int == 95
  }

  lemma WordsAreSegments(s: string)
    ensures Word(s) <==> IsSegment(s)
  {
    forall i | 0 <= i < |s| ensures s[i] in s {
    }
  }

  /** Text parses as a pattern exactly when it is at most 128 characters long and its segments
      are a word and at least one more, each a word or a star; and it keeps the text. */
  lemma ParsesExactly(raw: string)
    ensures Parse(raw).Success? <==>
              && |raw| <= 128 && |Split(raw)| >= 2 && Word(Split(raw)[0])
              && forall i :: 1 <= i < |Split(raw)| ==> Split(raw)[i] == "*" || Word(Split(raw)[i])
    ensures Parse(raw).Success? ==> Parse(raw).value.raw == raw
  {
    forall s | s in Split(raw) ensures Word(s) <==> IsSegment(s) {
      WordsAreSegments(s);
    }
  }

  // ---- What a pattern means ----

  /** The names a pattern matches, by recursion over its segments. */
  predicate Glob(pattern: seq<string>, name: seq<string>) {
    if pattern == [] then name == []
    else if pattern == ["*"] then name != []
    else name != [] && (pattern[0] == "*" || pattern[0] == name[0]) && Glob(pattern[1..], name[1..])
  }

  predicate Concrete(name: seq<string>) {
    forall s :: s in name ==> IsSegment(s)
  }

  /** Everything `q` matches, `p` matches too. */
  ghost predicate Includes(p: seq<string>, q: seq<string>) {
    forall name :: Concrete(name) && Glob(q, name) ==> Glob(p, name)
  }

  predicate Parts(segments: seq<string>) {
    forall s :: s in segments ==> s == "*" || IsSegment(s)
  }

  /** The question `Contains` asks of the two segment lists from position i on. */
  predicate Covers(mine: seq<string>, theirs: seq<string>) {
    if mine == [] then theirs == []
    else if mine == ["*"] then theirs != []
    else
      && theirs != [] && theirs != ["*"]
      && (mine[0] == "*" || mine[0] == theirs[0])
      && Covers(mine[1..], theirs[1..])
  }

  lemma {:induction false} CoversIsSound(p: seq<string>, q: seq<string>, name: seq<string>)
    requires Covers(p, q) && Glob(q, name)
    ensures Glob(p, name)
  {
    if p != [] && p != ["*"] {
      CoversIsSound(p[1..], q[1..], name[1..]);
    }
  }

  /** Some name a pattern tail matches. */
  function Sample(q: seq<string>): (name: seq<string>)
    requires Parts(q)
    ensures Concrete(name) && Glob(q, name)
  {
    if q == [] then []
    else
      var rest := Sample(q[1..]);
      var s := if q[0] == "*" then "a" else q[0];
      assert ([s] + rest)[1..] == rest;
      [s] + rest
  }

  /** A segment other than `s`. */
  function Other(s: string): (t: string)
    ensures IsSegment(t) && t != s
  {
    if s == "a" then "b" else "a"
  }

  /** Where `Covers` says no, a name that `q` matches and `p` does not. */
  function Witness(p: seq<string>, q: seq<string>): (name: seq<string>)
    requires Parts(p) && Parts(q) && !Covers(p, q)
    ensures Concrete(name) && Glob(q, name) && !Glob(p, name)
  {
    if p == [] then Sample(q)
    else if q == [] then []
    else if q == ["*"] then
      assert p != ["*"];
      if p[0] == "*" then
        assert p[1..] != [] && ["a"][1..] == [];
        ["a"]
      else
        [Other(p[0])]
    else if p[0] != "*" && p[0] != q[0] then
      var s := if q[0] == "*" then Other(p[0]) else q[0];
      var rest := Sample(q[1..]);
      assert ([s] + rest)[1..] == rest;
      [s] + rest
    else
      var s := if q[0] == "*" then "a" else q[0];
      var rest := Witness(p[1..], q[1..]);
      assert ([s] + rest)[1..] == rest;
      [s] + rest
  }

  /** Containment decides inclusion. */
  lemma CoversIsInclusion(p: seq<string>, q: seq<string>)
    requires Parts(p) && Parts(q)
    ensures Covers(p, q) <==> Includes(p, q)
  {
    if Covers(p, q) {
      forall name | Concrete(name) && Glob(q, name) ensures Glob(p, name) {
        CoversIsSound(p, q, name);
      }
    } else {
      var name := Witness(p, q);
      assert Concrete(name) && Glob(q, name) && !Glob(p, name);
    }
  }

  /** The decision procedure as it runs: one pass over this pattern's segments. */
  method Contains(p: Pattern, q: Pattern) returns (r: bool)
    ensures r <==> Covers(p.Segments(), q.Segments())
    ensures Parse(p.raw).Success? && Parse(q.raw).Success? ==> (r <==> Includes(p.Segments(), q.Segments()))
  {
    var mine, theirs := p.Segments(), q.Segments();
    if Parse(p.raw).Success? && Parse(q.raw).Success? {
      CoversIsInclusion(mine, theirs);
    }
    for i := 0 to |mine|
      invariant i <= |theirs|
      invariant Covers(mine, theirs) <==> Covers(mine[i..], theirs[i..])
    {
      var seg, last := mine[i], i + 1 == |mine|;
      assert mine[i..][1..] == mine[i + 1..] && mine[i..][0] == seg;
      assert last ==> mine[i..] == [seg];
      if last && seg == "*" {
        return |theirs| > i;
      }
      if i >= |theirs| {
        return false;
      }
      var their := theirs[i];
      assert theirs[i..][1..] == theirs[i + 1..] && theirs[i..][0] == their;
      assert i + 1 == |theirs| ==> theirs[i..] == [their];
      if i + 1 == |theirs| && their == "*" && !last {
        return false;
      }
      if seg != "*" && seg != their {
        return false;
      }
    }
    return |mine| == |theirs|;
  }

  /** A name is asked about by reading it as a pattern of its own. */
  method Matches(p: Pattern, name: string) returns (r: bool)
    ensures r <==> Covers(p.Segments(), Split(name))
    ensures Concrete(Split(name)) ==> (r <==> Glob(p.Segments(), Split(name)))
  {
    r := Contains(p, Pattern(name));
    if Concrete(Split(name)) {
      MatchesIsGlob(p.Segments(), Split(name));
    }
  }

  /** `matches` asks containment of the name read as a pattern; for a concrete name that is
      exactly the glob. */
  lemma {:induction false} MatchesIsGlob(p: seq<string>, name: seq<string>)
    requires Concrete(name)
    ensures Covers(p, name) <==> Glob(p, name)
  {
    if p != [] && p != ["*"] && name != [] {
      assert name[0] in name;
      MatchesIsGlob(p[1..], name[1..]);
    }
  }

  lemma {:induction false} CoversReflexive(p: seq<string>)
    ensures Covers(p, p)
  {
    if p != [] {
      CoversReflexive(p[1..]);
    }
  }

  lemma {:induction false} CoversAntisymmetric(p: seq<string>, q: seq<string>)
    requires Covers(p, q) && Covers(q, p)
    ensures p == q
  {
    if p != [] && p != ["*"] && q != ["*"] {
      CoversAntisymmetric(p[1..], q[1..]);
      assert p == [p[0]] + p[1..] && q == [q[0]] + q[1..];
    }
  }

  /** Hence containment orders the patterns partially; only a pattern itself contains and is
      contained by it. */
  lemma ContainmentIsPartialOrder(p: Pattern, q: Pattern, r: Pattern)
    requires Parse(p.raw).Success? && Parse(q.raw).Success? && Parse(r.raw).Success?
    ensures Includes(p.Segments(), p.Segments())
    ensures Includes(p.Segments(), q.Segments()) && Includes(q.Segments(), r.Segments()) ==>
            Includes(p.Segments(), r.Segments())
    ensures Includes(p.Segments(), q.Segments()) && Includes(q.Segments(), p.Segments()) ==> p == q
  {
    CoversIsInclusion(p.Segments(), q.Segments());
    CoversIsInclusion(q.Segments(), p.Segments());
    if Covers(p.Segments(), q.Segments()) && Covers(q.Segments(), p.Segments()) {
      CoversAntisymmetric(p.Segments(), q.Segments());
      JoinOfSplit(p.raw);
      JoinOfSplit(q.raw);
    }
  }

  // ---- Inclusion over catalog permissions ----

  /** Catalog permissions have three segments or more, so over them a trailing star right
      after the namespace says the same as two stars. */
  function Widened(q: seq<string>): seq<string> {
    if |q| == 2 && q[1] == "*" then [q[0], "*", "*"] else q
  }

  ghost predicate IncludesPermissions(p: seq<string>, q: seq<string>) {
    forall name :: Concrete(name) && |name| >= 3 && Glob(q, name) ==> Glob(p, name)
  }

  lemma {:induction false} GlobLength(q: seq<string>, name: seq<string>)
    requires Glob(q, name)
    ensures |name| >= |q|
    ensures "*" !in q ==> |name| == |q|
  {
    if q != [] && q != ["*"] {
      GlobLength(q[1..], name[1..]);
    }
  }

  lemma WidenedMatches(q: seq<string>, name: seq<string>)
    requires IsPattern(q) && Concrete(name)
    ensures Glob(Widened(q), name) ==> Glob(q, name)
    ensures |name| >= 3 && Glob(q, name) ==> Glob(Widened(q), name)
    ensures Glob(Widened(q), name) && !(|q| == 2 && q[1] != "*") ==> |name| >= 3
  {
    if |q| == 2 && q[1] == "*" {
      assert q[1..] == ["*"] && Widened(q)[1..] == ["*", "*"] && ["*", "*"][1..] == ["*"];
      if Glob(Widened(q), name) {
        GlobLength(Widened(q), name);
      }
    } else if Glob(q, name) {
      GlobLength(q, name);
    }
  }

  /** Asked only about permissions a catalog can hold, containment is too strict in exactly
      two shapes of `q`: a two-segment name, which no permission is, and `ns:*`. */
  lemma PermissionInclusionExactly(p: Pattern, q: Pattern)
    requires Parse(p.raw).Success? && Parse(q.raw).Success?
    ensures IncludesPermissions(p.Segments(), q.Segments()) <==>
            || (|q.Segments()| == 2 && q.Segments()[1] != "*")
            || Covers(p.Segments(), Widened(q.Segments()))
  {
    var ps, qs := p.Segments(), q.Segments();
    if |qs| == 2 && qs[1] != "*" {
      assert '*' in "*" && !IsSegment("*");
      assert qs == [qs[0], qs[1]] && "*" !in qs;
      forall name | Concrete(name) && Glob(qs, name) ensures |name| == 2 {
        GlobLength(qs, name);
      }
    } else {
      CoversIsInclusion(ps, Widened(qs));
      forall name | Concrete(name)
        ensures (|name| >= 3 && Glob(qs, name)) <==> Glob(Widened(qs), name)
      {
        WidenedMatches(qs, name);
      }
    }
  }

  /** The gap is real in every namespace: `ns:*:*` takes in every permission `ns:*` does, and
      containment says otherwise. */
  lemma TwoStarsTakeInAsMuch(ns: string, p: Pattern, q: Pattern)
    requires Parse(p.raw).Success? && Parse(q.raw).Success?
    requires p.Segments() == [ns, "*", "*"] && q.Segments() == [ns, "*"]
    ensures IncludesPermissions(p.Segments(), q.Segments())
    ensures !Covers(p.Segments(), q.Segments()) && !Includes(p.Segments(), q.Segments())
  {
    PermissionInclusionExactly(p, q);
    CoversReflexive(p.Segments());
    assert p.Segments()[1..] == ["*", "*"] && q.Segments()[1..] == ["*"];
    CoversIsInclusion(p.Segments(), q.Segments());
  }

  lemma SplitCons(c: char, rest: string)
    ensures Split([c] + rest) == if c == ':' then [""] + Split(rest) else [[c] + Split(rest)[0]] + Split(rest)[1..]
  {
    assert ([c] + rest)[1..] == rest;
  }

  lemma SplitStars()
    ensures Split(":*") == ["", "*"] && Split(":*:*") == ["", "*", "*"]
  {
    SplitCons('*', "");
    assert "*" == ['*'] + "";
    SplitCons(':', "*");
    assert ":*" == [':'] + "*";
    SplitCons('*', ":*");
    assert "*:*" == ['*'] + ":*";
    SplitCons(':', "*:*");
    assert ":*:*" == [':'] + "*:*";
  }

  /** For one: `sa:*:*` and `sa:*`. */
  lemma TwoStarsParse()
    ensures Parse("sa:*:*").Success? && Pattern("sa:*:*").Segments() == ["sa", "*", "*"]
    ensures Parse("sa:*").Success? && Pattern("sa:*").Segments() == ["sa", "*"]
  {
    SplitStars();
    SplitNamespace(":*");
    SplitNamespace(":*:*");
    assert "sa" + ":*" == "sa:*" && "sa" + ":*:*" == "sa:*:*";
  }

  lemma SplitNamespace(rest: string)
    requires Split(rest)[0] == ""
    ensures Split("sa" + rest) == ["sa"] + Split(rest)[1..]
  {
    SplitCons('a', rest);
    SplitCons('s', "a" + rest);
    assert "sa" + rest == ['s'] + ("a" + rest) && "a" + rest == ['a'] + rest;
    assert ['s'] + (['a'] + "") == "sa";
  }
}
