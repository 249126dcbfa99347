/** GitHub preset shorthands, middlewares/preset_github.go:
    gh:org/repo[/path][@version]. */
module GithubShorthand {
  import opened Prelude

  const PREFIX := "gh:"
  const DEFAULT_BRANCH := "main"

  predicate Prefixed(s: string) { |s| >= 3 && s[0] == 'g' && s[1] == 'h' && s[2] == ':' }
  predicate Slashed(path: string) { path != "" && path[0] == '/' }

  /** The four groups of the regular expression; an absent group is empty. */
  datatype Groups = Groups(org: string, repo: string, path: string, version: string)

  /** What the regular expression says: s is gh: then an org without slash, a slash, a repo without
      slash or @, perhaps a path that starts with a slash and has no @, and perhaps @ and a version
      on one line. */
  predicate Matches(s: string, g: Groups) {
    && s == PREFIX + g.org + "/" + g.repo + g.path + VersionPart(g.version)
    && g.org != "" && '/' !in g.org
    && g.repo != "" && '/' !in g.repo && '@' !in g.repo
    && (g.path != "" ==> g.path[0] == '/') && '@' !in g.path
    && '\n' !in g.version
  }

  /** The characters a scan stops at. */
  datatype Stops = Slash | At | SlashOrAt {
    predicate Has(c: char) { (c == '/' && !At?) || (c == '@' && !Slash?) }
  }

  predicate Free(s: string, from: nat, to: nat, stops: Stops)
    requires from <= to <= |s|
  {
    forall x :: from <= x < to ==> !stops.Has(s[x])
  }

  /** The first stop from some position on, or the end. */
  function Span(s: string, from: nat, stops: Stops): (n: nat)
    requires from <= |s|
    ensures from <= n <= |s| && Free(s, from, n, stops) && (n < |s| ==> stops.Has(s[n]))
    decreases |s| - from
  {
    if from == |s| || stops.Has(s[from]) then from else Span(s, from + 1, stops)
  }

  // ---- Where the groups lie ----

  function VersionPart(version: string): string {
    if version == "" then "" else "@" + version
  }

  /** The org ends at `i`, the repo at `j`, the path at `k`. */
  datatype Cut = Cut(i: nat, j: nat, k: nat)

  predicate Fits(s: string, c: Cut) {
    && Prefixed(s) && 3 < c.i && c.i + 1 < c.j <= c.k <= |s|
    && Free(s, 3, c.i, Slash) && s[c.i] == '/'
    && Free(s, c.i + 1, c.j, SlashOrAt)
    && Free(s, c.j, c.k, At) && (c.j < c.k ==> s[c.j] == '/')
    && (c.k < |s| ==> s[c.k] == '@' && c.k + 1 < |s| && '\n' !in s[c.k + 1..])
  }

  function GroupsAt(s: string, c: Cut): Groups
    requires c.i < c.j <= c.k <= |s| && 3 <= c.i
  {
    Groups(s[3..c.i], s[c.i + 1..c.j], s[c.j..c.k], if c.k < |s| then s[c.k + 1..] else "")
  }

  function CutOf(g: Groups): Cut {
    var i := 3 + |g.org|;
    var j := i + 1 + |g.repo|;
    Cut(i, j, j + |g.path|)
  }

  lemma Front(x: string, y: string, i: nat, j: nat)
    requires i <= j <= |x|
    ensures (x + y)[i..j] == x[i..j] && (x + y)[|x|..] == y
  {
  }

  /** Where the parts of a concatenation lie. */
  lemma Parts(p: string, o: string, c: string, r: string, t: string, v: string)
    ensures var s, i, j := p + o + c + r + t + v, |p| + |o|, |p| + |o| + |c| + |r|;
            && s[0..|p|] == p && s[|p|..i] == o && s[i..i + |c|] == c && s[i + |c|..j] == r
            && s[j..j + |t|] == t && s[j + |t|..] == v
  {
    var i, j := |p| + |o|, |p| + |o| + |c| + |r|;
    var a, b := p + o + c, p + o + c + r + t;
    assert a[0..|p|] == p && a[|p|..i] == o && a[i..i + |c|] == c;
    assert b[i + |c|..j] == r && b[j..j + |t|] == t;
    Front(a, r, 0, |p|);
    Front(a, r, |p|, i);
    Front(a, r, i, i + |c|);
    Front(a + r, t, 0, |p|);
    Front(a + r, t, |p|, i);
    Front(a + r, t, i, i + |c|);
    Front(b, v, 0, |p|);
    Front(b, v, |p|, i);
    Front(b, v, i, i + |c|);
    Front(b, v, i + |c|, j);
    Front(b, v, j, j + |t|);
  }

  /** Each group lies where the lengths of the groups before it put it. */
  lemma Layout(s: string, g: Groups)
    requires s == PREFIX + g.org + "/" + g.repo + g.path + VersionPart(g.version)
    ensures var c := CutOf(g); Prefixed(s) && c.k <= |s| && s[c.i] == '/' && GroupsAt(s, c) == g
    ensures var c := CutOf(g); c.k < |s| ==> s[c.k] == '@' && c.k + 1 < |s|
  {
    var c := CutOf(g);
    Parts(PREFIX, g.org, "/", g.repo, g.path, VersionPart(g.version));
    PrefixAt(s, c.i);
    VersionAt(s, c.k, g.version);
  }

  lemma PrefixAt(s: string, i: nat)
    requires 3 <= i < |s| && s[0..3] == PREFIX && s[i..i + 1] == "/"
    ensures Prefixed(s) && s[i] == '/'
  {
    assert s[0] == s[0..3][0] && s[1] == s[0..3][1] && s[2] == s[0..3][2] && s[i] == s[i..i + 1][0];
  }

  lemma VersionAt(s: string, k: nat, version: string)
    requires k <= |s| && s[k..] == VersionPart(version)
    ensures if k < |s| then s[k] == '@' && k + 1 < |s| && s[k + 1..] == version else version == ""
  {
    if version != "" {
      assert s[k] == s[k..][0] && s[k + 1..] == s[k..][1..];
    }
  }

  lemma FreeSlice(s: string, from: nat, to: nat, stops: Stops)
    requires from <= to <= |s|
    ensures Free(s, from, to, stops) <==> forall ch :: ch in s[from..to] ==> !stops.Has(ch)
  {
    assert forall x :: from <= x < to ==> s[x] == s[from..to][x - from];
  }

  lemma GroupsFree(s: string, c: Cut)
    requires 3 <= c.i && c.i < c.j <= c.k <= |s|
    ensures var g := GroupsAt(s, c);
            && (Free(s, 3, c.i, Slash) <==> '/' !in g.org)
            && (Free(s, c.i + 1, c.j, SlashOrAt) <==> '/' !in g.repo && '@' !in g.repo)
            && (Free(s, c.j, c.k, At) <==> '@' !in g.path)
  {
    FreeSlice(s, 3, c.i, Slash);
    FreeSlice(s, c.i + 1, c.j, SlashOrAt);
    FreeSlice(s, c.j, c.k, At);
  }

  lemma MatchFits(s: string, g: Groups)
    requires Matches(s, g)
    ensures Fits(s, CutOf(g)) && GroupsAt(s, CutOf(g)) == g
  {
    Layout(s, g);
    GroupsFree(s, CutOf(g));
  }

  lemma Rejoin(s: string, i: nat, j: nat, front: string, piece: string)
    requires i <= j <= |s| && front == s[..i] && piece == s[i..j]
    ensures front + piece == s[..j]
  {
  }

  lemma RejoinAll(s: string, i: nat, j: nat, k: nat, p: string, o: string, c: string, r: string, t: string, v: string)
    requires 3 <= i < j <= k <= |s| && p == s[..3] && o == s[3..i] && c == s[i..i + 1]
    requires r == s[i + 1..j] && t == s[j..k] && v == s[k..|s|]
    ensures s == p + o + c + r + t + v
  {
    Rejoin(s, 3, i, p, o);
    Rejoin(s, i, i + 1, p + o, c);
    Rejoin(s, i + 1, j, p + o + c, r);
    Rejoin(s, j, k, p + o + c + r, t);
    Rejoin(s, k, |s|, p + o + c + r + t, v);
    assert s[..|s|] == s;
  }

  lemma Pieces(s: string, i: nat, k: nat)
    requires Prefixed(s) && i < k <= |s| && s[i] == '/' && (k < |s| ==> s[k] == '@' && k + 1 < |s|)
    ensures s[..3] == PREFIX && s[i..i + 1] == "/"
    ensures s[k..|s|] == VersionPart(if k < |s| then s[k + 1..] else "")
  {
  }

  lemma FitMatches(s: string, c: Cut)
    requires Fits(s, c)
    ensures Matches(s, GroupsAt(s, c))
  {
    var g := GroupsAt(s, c);
    Pieces(s, c.i, c.k);
    RejoinAll(s, c.i, c.j, c.k, PREFIX, g.org, "/", g.repo, g.path, VersionPart(g.version));
    GroupsFree(s, c);
  }

  // ---- Finding the match ----

  /** From one stop to the next; the last check is the caller's. */
  function Find(s: string): (c: Cut)
    requires |s| >= 3
  {
    var i := Span(s, 3, Slash);
    if i == |s| then Cut(i, i, i)
    else
      var j := Span(s, i + 1, SlashOrAt);
      Cut(i, j, if j < |s| && s[j] == '/' then Span(s, j, At) else j)
  }

  function Submatch(s: string): Option<Groups> {
    if Prefixed(s) && Fits(s, Find(s)) then Some(GroupsAt(s, Find(s))) else None
  }

  lemma FitIsFound(s: string, c: Cut)
    requires Fits(s, c)
    ensures Find(s) == c
  {
    var i := Span(s, 3, Slash);
    assert c.i == i;
    var j := Span(s, i + 1, SlashOrAt);
    assert c.j == j;
  }

  /** The expression matches a string in at most one way, and the search finds that match if there is one. */
  lemma MatchIsUnique(s: string, g: Groups)
    ensures Matches(s, g) <==> Submatch(s) == Some(g)
  {
    if Matches(s, g) {
      MatchFits(s, g);
      FitIsFound(s, CutOf(g));
    }
    if Submatch(s) == Some(g) {
      FitMatches(s, Find(s));
    }
  }

  method Scan(s: string, from: nat, stops: Stops) returns (n: nat)
    requires from <= |s|
    ensures n == Span(s, from, stops)
  {
    n := from;
    while n < |s| && !stops.Has(s[n])
      invariant from <= n <= |s| && Span(s, from, stops) == Span(s, n, stops)
    {
      n := n + 1;
    }
  }

  method Locate(s: string) returns (c: Cut)
    requires |s| >= 3
    ensures c == Find(s)
  {
    var i := Scan(s, 3, Slash);
    if i == |s| {
      return Cut(i, i, i);
    }
    var j := Scan(s, i + 1, SlashOrAt);
    var k := j;
    if j < |s| && s[j] == '/' {
      k := Scan(s, j, At);
    }
    c := Cut(i, j, k);
  }

  /** What remains to be checked once the stops are known. */
  lemma FoundFits(s: string)
    requires Prefixed(s)
    ensures var c := Find(s);
            && 3 <= c.i <= c.j <= c.k <= |s|
            && (Fits(s, c) <==> c.i != 3 && c.i + 1 < c.j && (c.k < |s| ==> c.k + 1 < |s| && '\n' !in s[c.k + 1..]))
  {
  }

  method FindSubmatch(s: string) returns (r: Option<Groups>)
    ensures r == Submatch(s)
  {
    if !Prefixed(s) {
      return None;
    }
    var c := Locate(s);
    FoundFits(s);
    if c.i == 3 || c.i + 1 >= c.j || (c.k < |s| && (c.k + 1 == |s| || '\n' in s[c.k + 1..])) {
      return None;
    }
    r := Some(GroupsAt(s, c));
  }

  // ---- Parsing and printing ----

  datatype Shorthand = Shorthand(org: string, repo: string, path: string, version: string)

  function Parse(s: string): Option<Shorthand> {
    var m := Submatch(s);
    if m.None? then None
    else
      var g := m.value;
      Some(Shorthand(g.org, g.repo, if Slashed(g.path) then g.path[1..] else g.path,
                     if g.version != "" then g.version else DEFAULT_BRANCH))
  }

  method ParseGitHubShorthandDetails(s: string) returns (r: Option<Shorthand>)
    ensures r == Parse(s)
  {
    var m := FindSubmatch(s);
    if m.None? {
      return None;
    }
    var path, version := "", DEFAULT_BRANCH;
    if m.value.path != "" {
      path := if Slashed(m.value.path) then m.value.path[1..] else m.value.path;
    }
    if m.value.version != "" {
      version := m.value.version;
    }
    r := Some(Shorthand(m.value.org, m.value.repo, path, version));
  }

  function Format(h: Shorthand): string {
    PREFIX + h.org + "/" + h.repo
    + (if h.path == "" then "" else (if Slashed(h.path) then "" else "/") + h.path)
    + (if h.version == "" || h.version == DEFAULT_BRANCH then "" else "@" + h.version)
  }

  method FormatGitHubShorthand(h: Shorthand) returns (s: string)
    ensures s == Format(h)
  {
    s := PREFIX + h.org + "/" + h.repo;
    if h.path != "" {
      if !Slashed(h.path) {
        s := s + "/";
      }
      s := s + h.path;
    }
    if h.version != "" && h.version != DEFAULT_BRANCH {
      s := s + "@";
      s := s + h.version;
    }
  }

  predicate Printable(h: Shorthand) {
    && h.org != "" && '/' !in h.org
    && h.repo != "" && '/' !in h.repo && '@' !in h.repo
    && '@' !in h.path && '\n' !in h.version
  }

  /** The groups of a printed shorthand. */
  function GroupsOf(h: Shorthand): Groups {
    Groups(h.org, h.repo, if h.path == "" || Slashed(h.path) then h.path else "/" + h.path,
           if h.version == DEFAULT_BRANCH then "" else h.version)
  }

  lemma PrintedMatches(h: Shorthand)
    requires Printable(h)
    ensures Submatch(Format(h)) == Some(GroupsOf(h))
  {
    var g := GroupsOf(h);
    assert Format(h) == PREFIX + g.org + "/" + g.repo + g.path + VersionPart(g.version);
    MatchIsUnique(Format(h), g);
  }

  lemma ParsedIsPrintable(s: string)
    requires Parse(s).Some?
    ensures Printable(Parse(s).value)
  {
    MatchIsUnique(s, Submatch(s).value);
  }

  /** Parsing a printed shorthand gives its parts back, an empty version becoming main, exactly when the
      parts have none of the separators in them and the path does not begin with a slash: the printer
      takes such a slash for its own. */
  lemma FormatRoundTrip(h: Shorthand)
    ensures Printable(h) ==> Parse(Format(h)).Some?
    ensures var version := if h.version == "" then "main" else h.version;
            Parse(Format(h)) == Some(h.(version := version)) <==> Printable(h) && !Slashed(h.path)
  {
    if Printable(h) {
      PrintedMatches(h);
      if h.path != "" && !Slashed(h.path) {
        assert GroupsOf(h).path[1..] == h.path;
      }
    } else if Parse(Format(h)).Some? {
      ParsedIsPrintable(Format(h));
    }
  }

  /** What has been parsed can be printed and parsed again, unless its path begins with a slash. */
  lemma Reparse(s: string)
    requires Parse(s).Some?
    ensures Printable(Parse(s).value)
    ensures Parse(Format(Parse(s).value)) == Parse(s) <==> !Slashed(Parse(s).value.path)
  {
    ParsedIsPrintable(s);
    FormatRoundTrip(Parse(s).value);
  }

  /** A leading slash does get lost, one of them. */
  lemma LeadingSlashIsLost(h: Shorthand)
    requires Printable(h) && Slashed(h.path)
    ensures var version := if h.version == "" then DEFAULT_BRANCH else h.version;
            Parse(Format(h)) == Some(h.(path := h.path[1..], version := version))
  {
    PrintedMatches(h);
  }

  lemma Shifted(p: string, a: string, b: string, c: string, d: string, x: string)
    ensures p + (a + x + b) + x + c + (x + d) == p + a + x + b + (x + (c + x + d))
  {
    Regroup(a, x, b);
    Regroup(p, a, x + b);
    Regroup(p + a, x, b);
    Regroup(p + a + x + b, x, c);
    Regroup(p + a + x + b, x + c, x + d);
    Regroup(x, c, x + d);
    Regroup(c, x, d);
  }

  lemma Regroup(x: string, y: string, z: string)
    ensures x + y + z == x + (y + z)
  {
  }

  /** A slash in the org moves the parts along: the printer neither refuses nor escapes it. */
  lemma SlashInOrgMoves(a: string, b: string, c: string, d: string)
    requires c != "" && d != "" && !Slashed(c) && !Slashed(d)
    requires Printable(Shorthand(a, b, c + "/" + d, DEFAULT_BRANCH))
    ensures Parse(Format(Shorthand(a + "/" + b, c, d, DEFAULT_BRANCH)))
         == Some(Shorthand(a, b, c + "/" + d, DEFAULT_BRANCH))
  {
    Shifted(PREFIX, a, b, c, d, "/");
    var h := Shorthand(a, b, c + "/" + d, DEFAULT_BRANCH);
    assert !Slashed(h.path);
    FormatRoundTrip(h);
  }

  /** No shorthand for the same parts is shorter than the printed one: main and an empty path leave nothing. */
  lemma FormatIsShortest(s: string)
    requires Parse(s).Some?
    ensures |Format(Parse(s).value)| <= |s|
  {
    MatchIsUnique(s, Submatch(s).value);
  }
}
