/**
 What the rendered entries mean: which route and prefix serve a request when the
 proxy takes the first matching entry.
 */
module IngressRouting {
  import opened Prelude
  import opened IngressSpec
  import opened IngressRender
  import opened IngressDials

  predicate PatternMatches(p: Pattern, path: string) {
    match p
    case Exact(s) => path == s
    case Under(s) => s + "/" <= path
  }

  predicate EntryMatches(e: Entry, host: string, path: string) {
    Lower(host) in e.hosts && exists k :: 0 <= k < |e.patterns| && PatternMatches(e.patterns[k], path)
  }

  function FirstMatch(entries: seq<Entry>, host: string, path: string): (e: Option<Entry>) {
    if entries == [] then None
    else if EntryMatches(entries[0], host, path) then Some(entries[0])
    else FirstMatch(entries[1..], host, path)
  }

  /** `prefix` covers `path` segment by segment. */
  predicate Covers(prefix: string, path: string) {
    path == Trim(prefix) || Trim(prefix) + "/" <= path
  }

  predicate OwnsHost(r: Route, host: string) {
    Lower(host) in Lowers(r.hosts)
  }

  /** No covering prefix is longer than that of path `j`. */
  predicate IsLongest(paths: seq<Path>, path: string, j: int) {
    && 0 <= j < |paths| && Covers(paths[j].prefix, path)
    && forall q :: 0 <= q < |paths| && Covers(paths[q].prefix, path) ==> |Trim(paths[q].prefix)| <= |Trim(paths[j].prefix)|
  }

  predicate NothingCovers(paths: seq<Path>, path: string) {
    forall q :: 0 <= q < |paths| ==> !Covers(paths[q].prefix, path)
  }

  /** `r` serves the request through the entry of its longest covering path: that path's backends, under the route's policy. */
  ghost predicate Serves(i: Input, r: Route, host: string, path: string, e: Entry) {
    && OwnsHost(r, host)
    && exists j :: 0 <= j < |r.paths| && IsLongest(r.paths, path, j) && EntryOf(i, r, r.paths[j], e)
  }

  predicate OnlyOwner(http: seq<Route>, host: string, k: int) {
    forall n :: 0 <= n < |http| && OwnsHost(http[n], host) ==> n == k
  }

  predicate Unserved(r: Route, host: string, path: string) {
    OwnsHost(r, host) ==> NothingCovers(r.paths, path)
  }

  /** The longest prefix of the one route that owns the host; nothing only when that route has no prefix for the path. */
  ghost predicate Expected(i: Input, http: seq<Route>, host: string, path: string, m: Option<Entry>) {
    match m
    case None => forall k :: 0 <= k < |http| ==> Unserved(http[k], host, path)
    case Some(e) => exists k :: 0 <= k < |http| && Serves(i, http[k], host, path, e) && OnlyOwner(http, host, k)
  }

  predicate Rooted(path: string) {
    path != [] && path[0] == '/'
  }

  /** `inner` lies strictly below `outer`. */
  predicate Within(outer: string, inner: string) {
    Trim(outer) + "/" <= Trim(inner)
  }

  /** Wherever one prefix lies below another, some spelling of the lower one sorts ahead. */
  predicate NestedInOrder(paths: seq<Path>) {
    forall p, q :: 0 <= p < |paths| && 0 <= q < |paths| && Within(paths[p].prefix, paths[q].prefix) ==>
      exists j :: 0 <= j < |paths| && Trim(paths[j].prefix) == Trim(paths[q].prefix) && Ahead(paths[j], paths[p])
  }

  // ---- patterns and covering ---------------------------------------------------

  lemma TrimRoot()
    ensures Trim("/") == []
  {
    assert TrimFrom("/", 1) == TrimFrom("/", 0);
  }

  lemma PatternsCover(prefix: string, path: string)
    requires Rooted(path)
    ensures (exists k :: 0 <= k < |Patterns(prefix)| && PatternMatches(Patterns(prefix)[k], path)) <==> Covers(prefix, path)
  {
    var ps := Patterns(prefix);
    if prefix == "/" {
      TrimRoot();
      assert ps[0] == Under([]);
    } else {
      assert ps[0] == Exact(Trim(prefix)) && ps[1] == Under(Trim(prefix));
    }
  }

  /** Of two prefixes covering a path, the one with the shorter text encloses the other. */
  lemma CoversNest(p: string, q: string, path: string)
    requires Covers(p, path) && Covers(q, path) && |Trim(p)| < |Trim(q)|
    ensures Within(p, q)
  {
    var s, t := Trim(p), Trim(q);
    assert s <= path && t <= path;
    assert s + "/" <= path;
    assert t == path[..|t|];
  }

  lemma WithinCovers(p: string, q: string)
    requires Within(p, q) && PlainPrefix(p)
    ensures Covers(p, Trim(q)) && Covers(q, Trim(q)) && Rooted(Trim(q)) && |Trim(p)| < |Trim(q)|
  {
    var s, t := Trim(p), Trim(q);
    assert (s + "/")[0] == t[0];
  }

  // ---- the order of the paths --------------------------------------------------

  predicate Sorted(paths: seq<Path>) {
    forall i, j :: 0 <= i < j < |paths| ==> !Ahead(paths[j], paths[i])
  }

  lemma AheadOrder(a: Path, b: Path, c: Path)
    ensures !(Ahead(a, b) && Ahead(b, a))
    ensures a.prefix != b.prefix ==> Ahead(a, b) || Ahead(b, a)
    ensures Ahead(a, b) && !Ahead(c, b) ==> Ahead(a, c)
  {
    LessTrichotomy(a.prefix, b.prefix);
    LessTrichotomy(b.prefix, c.prefix);
    if Less(a.prefix, b.prefix) && Less(b.prefix, c.prefix) {
      LessTransitive(a.prefix, b.prefix, c.prefix);
    }
  }

  lemma {:induction false} InsertSorted(paths: seq<Path>, p: Path)
    requires Sorted(paths)
    ensures Sorted(InsertPath(paths, p)) && multiset(InsertPath(paths, p)) == multiset(paths) + multiset{p}
  {
    var r := InsertPath(paths, p);
    if paths == [] {
    } else if Ahead(p, paths[0]) {
      forall j | 0 <= j < |paths| ensures !Ahead(paths[j], p) {
        AheadOrder(p, paths[0], paths[j]);
        AheadOrder(p, paths[j], p);
      }
    } else {
      var rest := paths[1..];
      InsertSorted(rest, p);
      assert paths == [paths[0]] + rest;
      forall j | 0 < j < |r| ensures !Ahead(r[j], r[0]) {
        var tail := InsertPath(rest, p);
        assert r[j] == tail[j - 1] && tail[j - 1] in multiset(tail);
        if tail[j - 1] != p {
          assert tail[j - 1] in multiset(rest);
          var k :| 0 <= k < |rest| && rest[k] == tail[j - 1];
          assert rest[k] == paths[k + 1];
        }
      }
    }
  }

  lemma {:induction false} SortSorted(paths: seq<Path>)
    ensures Sorted(SortPaths(paths)) && multiset(SortPaths(paths)) == multiset(paths)
  {
    if paths != [] {
      var front := paths[..|paths| - 1];
      SortSorted(front);
      InsertSorted(SortPaths(front), paths[|paths| - 1]);
      assert paths == front + [paths[|paths| - 1]];
    }
  }

  function FirstCovering(paths: seq<Path>, path: string): (p: Option<Path>) {
    if paths == [] then None
    else if Covers(paths[0].prefix, path) then Some(paths[0])
    else FirstCovering(paths[1..], path)
  }

  lemma {:induction false} FirstCoveringIs(paths: seq<Path>, path: string)
    ensures FirstCovering(paths, path).None? <==> NothingCovers(paths, path)
    ensures FirstCovering(paths, path).Some? ==>
              exists i :: 0 <= i < |paths| && paths[i] == FirstCovering(paths, path).value && Covers(paths[i].prefix, path)
                       && forall j :: 0 <= j < i ==> !Covers(paths[j].prefix, path)
  {
    if paths != [] && !Covers(paths[0].prefix, path) {
      var rest := paths[1..];
      FirstCoveringIs(rest, path);
      if FirstCovering(rest, path).Some? {
        var i :| 0 <= i < |rest| && rest[i] == FirstCovering(rest, path).value && Covers(rest[i].prefix, path)
              && forall j :: 0 <= j < i ==> !Covers(rest[j].prefix, path);
        assert paths[i + 1] == rest[i];
        assert forall j :: 1 <= j < i + 1 ==> paths[j] == rest[j - 1];
      }
    }
  }

  /** The path that the sorted list tries first among those that cover. */
  ghost predicate Picks(paths: seq<Path>, path: string, j: int) {
    && 0 <= j < |paths| && Covers(paths[j].prefix, path)
    && forall q :: 0 <= q < |paths| && Covers(paths[q].prefix, path) ==> !Ahead(paths[q], paths[j])
  }

  lemma SameMembers(xs: seq<Path>, ys: seq<Path>, p: Path)
    requires multiset(xs) == multiset(ys) && p in xs
    ensures p in ys
  {
    assert p in multiset(xs);
  }

  lemma SortedPick(paths: seq<Path>, path: string)
    ensures FirstCovering(SortPaths(paths), path).None? <==> NothingCovers(paths, path)
    ensures FirstCovering(SortPaths(paths), path).Some? ==>
              exists j :: Picks(paths, path, j) && paths[j] == FirstCovering(SortPaths(paths), path).value
  {
    var sorted := SortPaths(paths);
    SortSorted(paths);
    FirstCoveringIs(sorted, path);
    forall p ensures p in sorted <==> p in paths {
      if p in sorted {
        SameMembers(sorted, paths, p);
      } else if p in paths {
        SameMembers(paths, sorted, p);
      }
    }
    assert NothingCovers(sorted, path) <==> forall p :: p in sorted ==> !Covers(p.prefix, path);
    if FirstCovering(sorted, path).Some? {
      SortedPickIndex(paths, sorted, path);
    }
  }

  lemma SortedPickIndex(paths: seq<Path>, sorted: seq<Path>, path: string)
    requires Sorted(sorted) && (forall p :: p in sorted <==> p in paths) && FirstCovering(sorted, path).Some?
    ensures exists j :: Picks(paths, path, j) && paths[j] == FirstCovering(sorted, path).value
  {
    FirstCoveringIs(sorted, path);
    var i :| 0 <= i < |sorted| && sorted[i] == FirstCovering(sorted, path).value && Covers(sorted[i].prefix, path)
          && forall j :: 0 <= j < i ==> !Covers(sorted[j].prefix, path);
    assert sorted[i] in paths;
    var j :| 0 <= j < |paths| && sorted[i] == paths[j];
    forall q | 0 <= q < |paths| && Covers(paths[q].prefix, path) ensures !Ahead(paths[q], paths[j]) {
      assert paths[q] in sorted;
      var k :| 0 <= k < |sorted| && sorted[k] == paths[q];
      if k == i {
        AheadOrder(paths[q], paths[j], paths[j]);
      }
    }
    assert Picks(paths, path, j);
  }

  /** In order, the path tried first is a longest one. */
  lemma NestedPickIsLongest(paths: seq<Path>, path: string, j: int)
    requires NestedInOrder(paths) && Picks(paths, path, j)
    ensures IsLongest(paths, path, j)
  {
    forall q | 0 <= q < |paths| && Covers(paths[q].prefix, path) ensures |Trim(paths[q].prefix)| <= |Trim(paths[j].prefix)| {
      if |Trim(paths[q].prefix)| > |Trim(paths[j].prefix)| {
        CoversNest(paths[j].prefix, paths[q].prefix, path);
        assert false;
      }
    }
  }

  /** Out of order, the request for the enclosed prefix itself goes to a shorter one. */
  lemma UnnestedPickIsNotLongest(paths: seq<Path>, p: int, q: int, j: int)
    requires ValidPaths(paths) && 0 <= p < |paths| && 0 <= q < |paths| && Within(paths[p].prefix, paths[q].prefix)
    requires forall k :: 0 <= k < |paths| && Trim(paths[k].prefix) == Trim(paths[q].prefix) ==> !Ahead(paths[k], paths[p])
    requires Picks(paths, Trim(paths[q].prefix), j)
    ensures |Trim(paths[j].prefix)| < |Trim(paths[q].prefix)|
  {
    var path := Trim(paths[q].prefix);
    assert ValidPath(paths[p]);
    WithinCovers(paths[p].prefix, paths[q].prefix);
    if Trim(paths[j].prefix) == path {
      assert j != p && Prefixes(paths)[j] != Prefixes(paths)[p];
      AheadOrder(paths[j], paths[p], paths[p]);
      assert false;
    }
  }

  // ---- entries -------------------------------------------------------------------

  lemma {:induction false} FirstMatchConcat(xs: seq<Entry>, ys: seq<Entry>, host: string, path: string)
    ensures FirstMatch(xs + ys, host, path)
         == if FirstMatch(xs, host, path).Some? then FirstMatch(xs, host, path) else FirstMatch(ys, host, path)
  {
    if xs == [] {
      assert xs + ys == ys;
    } else {
      FirstMatchConcat(xs[1..], ys, host, path);
      assert (xs + ys)[1..] == xs[1..] + ys;
    }
  }

  lemma {:induction false} FirstInRoute(i: Input, r: Route, paths: seq<Path>, host: string, path: string)
    requires RenderPaths(i, r, paths).Fine? && Rooted(path)
    ensures var m, c := FirstMatch(RenderPaths(i, r, paths).value, host, path), FirstCovering(paths, path);
            && (m.Some? <==> OwnsHost(r, host) && c.Some?)
            && (m.Some? ==> EntryOf(i, r, c.value, m.value))
    decreases paths
  {
    if paths != [] {
      var entries := RenderPaths(i, r, paths).value;
      FirstInRoute(i, r, paths[1..], host, path);
      PatternsCover(paths[0].prefix, path);
      RenderedPathIs(i, r, paths[0]);
      assert entries[0] == RenderPath(i, r, paths[0]).value;
      assert entries[1..] == RenderPaths(i, r, paths[1..]).value;
    }
  }

  /** Some route's first choice among its paths. */
  ghost predicate Chosen(i: Input, r: Route, host: string, path: string, e: Entry) {
    OwnsHost(r, host) && exists j :: Picks(r.paths, path, j) && EntryOf(i, r, r.paths[j], e)
  }

  lemma FirstOfRoute(i: Input, r: Route, host: string, path: string)
    requires RenderPaths(i, r, SortPaths(r.paths)).Fine? && Rooted(path)
    ensures var m := FirstMatch(RenderPaths(i, r, SortPaths(r.paths)).value, host, path);
            (m.None? <==> Unserved(r, host, path)) && (m.Some? ==> Chosen(i, r, host, path, m.value))
  {
    FirstInRoute(i, r, SortPaths(r.paths), host, path);
    SortedPick(r.paths, path);
  }

  lemma {:induction false} FirstOfGateway(i: Input, http: seq<Route>, host: string, path: string)
    requires RenderHttp(i, http).Fine? && Rooted(path)
    ensures var m := FirstMatch(RenderHttp(i, http).value, host, path);
            && (m.None? <==> forall k :: 0 <= k < |http| ==> Unserved(http[k], host, path))
            && (m.Some? ==> exists k :: 0 <= k < |http| && Chosen(i, http[k], host, path, m.value))
    decreases http
  {
    if http != [] {
      var first, rest := RenderPaths(i, http[0], SortPaths(http[0].paths)).value, RenderHttp(i, http[1..]).value;
      FirstOfRoute(i, http[0], host, path);
      FirstOfGateway(i, http[1..], host, path);
      FirstMatchConcat(first, rest, host, path);
      var m := FirstMatch(first + rest, host, path);
      if FirstMatch(first, host, path).None? && m.Some? {
        var k :| 0 <= k < |http[1..]| && Chosen(i, http[1..][k], host, path, m.value);
        assert Chosen(i, http[k + 1], host, path, m.value);
      }
      assert forall k :: 0 < k < |http| ==> http[k] == http[1..][k - 1];
    }
  }

  // ---- one owner per host -----------------------------------------------------

  lemma {:induction false} ClaimIndex(http: seq<Route>, n: nat, host: string) returns (c: nat)
    requires n < |http| && OwnsHost(http[n], host)
    ensures c < |Claims(http)| && Claims(http)[c].key == Lower(host)
    ensures |Claims(http[..n])| <= c < |Claims(http[..n + 1])| <= |Claims(http)|
    decreases http
  {
    var mine := ClaimsOf(http[0]);
    if n == 0 {
      c :| 0 <= c < |http[0].hosts| && Lowers(http[0].hosts)[c] == Lower(host);
      assert Claims(http)[c] == mine[c];
      assert http[..0] == [] && http[..1][1..] == [] && Claims(http[..1]) == mine + Claims([]);
    } else {
      var d := ClaimIndex(http[1..], n - 1, host);
      c := |mine| + d;
      assert http[..n][1..] == http[1..][..n - 1] && http[..n + 1][1..] == http[1..][..n];
    }
  }

  lemma {:induction false} ClaimsGrow(http: seq<Route>, m: nat, n: nat)
    requires m <= n <= |http|
    ensures |Claims(http[..m])| <= |Claims(http[..n])|
    decreases n
  {
    if m == 0 {
      assert http[..0] == [];
    } else {
      assert http[..m][1..] == http[1..][..m - 1] && http[..n][1..] == http[1..][..n - 1];
      ClaimsGrow(http[1..], m - 1, n - 1);
    }
  }

  lemma OneOwner(http: seq<Route>, host: string, m: nat, n: nat)
    requires KeysDistinct(Claims(http)) && m < n < |http|
    ensures !(OwnsHost(http[m], host) && OwnsHost(http[n], host))
  {
    if OwnsHost(http[m], host) && OwnsHost(http[n], host) {
      var c := ClaimIndex(http, m, host);
      var d := ClaimIndex(http, n, host);
      ClaimsGrow(http, m + 1, n);
      assert false;
    }
  }

  lemma OwnerIsOnly(http: seq<Route>, host: string, k: nat)
    requires KeysDistinct(Claims(http)) && k < |http| && OwnsHost(http[k], host)
    ensures OnlyOwner(http, host, k)
  {
    forall n | 0 <= n < |http| && OwnsHost(http[n], host) ensures n == k {
      if n < k {
        OneOwner(http, host, n, k);
      } else if n > k {
        OneOwner(http, host, k, n);
      }
    }
  }

  // ---- the theorem --------------------------------------------------------------

  predicate ValidHttp(http: seq<Route>) {
    forall k :: 0 <= k < |http| ==> http[k].kind == Http && ValidRoute(http[k])
  }

  predicate AllNested(http: seq<Route>) {
    forall k :: 0 <= k < |http| ==> NestedInOrder(http[k].paths)
  }

  lemma NestedRoutesServeLongest(i: Input, http: seq<Route>, host: string, path: string)
    requires RenderHttp(i, http).Fine? && KeysDistinct(Claims(http)) && AllNested(http) && Rooted(path)
    ensures Expected(i, http, host, path, FirstMatch(RenderHttp(i, http).value, host, path))
  {
    var m := FirstMatch(RenderHttp(i, http).value, host, path);
    FirstOfGateway(i, http, host, path);
    if m.Some? {
      var k :| 0 <= k < |http| && Chosen(i, http[k], host, path, m.value);
      var j :| Picks(http[k].paths, path, j) && EntryOf(i, http[k], http[k].paths[j], m.value);
      NestedPickIsLongest(http[k].paths, path, j);
      OwnerIsOnly(http, host, k);
      assert Serves(i, http[k], host, path, m.value);
    }
  }

  lemma UnnestedPath(paths: seq<Path>) returns (path: string, q: nat)
    requires ValidPaths(paths) && !NestedInOrder(paths)
    ensures Rooted(path) && q < |paths| && Covers(paths[q].prefix, path)
    ensures forall j :: Picks(paths, path, j) ==> |Trim(paths[j].prefix)| < |Trim(paths[q].prefix)|
  {
    var p, n :| 0 <= p < |paths| && 0 <= n < |paths| && Within(paths[p].prefix, paths[n].prefix)
             && forall j :: 0 <= j < |paths| && Trim(paths[j].prefix) == Trim(paths[n].prefix) ==> !Ahead(paths[j], paths[p]);
    path, q := Trim(paths[n].prefix), n;
    assert ValidPath(paths[p]);
    WithinCovers(paths[p].prefix, paths[q].prefix);
    forall j | Picks(paths, path, j) ensures |Trim(paths[j].prefix)| < |Trim(paths[q].prefix)| {
      UnnestedPickIsNotLongest(paths, p, q, j);
    }
  }

  /** A choice shorter than some covering prefix is not what `Serves` asks for. */
  lemma ShortChoiceDoesNotServe(i: Input, r: Route, host: string, path: string, q: nat, e: Entry)
    requires ValidPaths(r.paths) && q < |r.paths| && Covers(r.paths[q].prefix, path)
    requires forall j :: Picks(r.paths, path, j) ==> |Trim(r.paths[j].prefix)| < |Trim(r.paths[q].prefix)|
    requires Chosen(i, r, host, path, e)
    ensures !Serves(i, r, host, path, e)
  {
    var j :| Picks(r.paths, path, j) && EntryOf(i, r, r.paths[j], e);
    forall n | 0 <= n < |r.paths| && r.paths[n].prefix == e.prefix ensures !IsLongest(r.paths, path, n) {
      assert |Trim(r.paths[n].prefix)| < |Trim(r.paths[q].prefix)|;
    }
  }

  lemma UnnestedRouteMisserves(i: Input, http: seq<Route>, k: nat) returns (host: string, path: string)
    requires RenderHttp(i, http).Fine? && KeysDistinct(Claims(http)) && ValidHttp(http)
    requires k < |http| && !NestedInOrder(http[k].paths)
    ensures Rooted(path) && !Expected(i, http, host, path, FirstMatch(RenderHttp(i, http).value, host, path))
  {
    var r := http[k];
    assert ValidRoute(r);
    host := r.hosts[0];
    var q;
    path, q := UnnestedPath(r.paths);
    assert Lowers(r.hosts)[0] == Lower(host);
    OwnerIsOnly(http, host, k);
    FirstOfGateway(i, http, host, path);
    var m := FirstMatch(RenderHttp(i, http).value, host, path);
    assert !Unserved(r, host, path);
    var n :| 0 <= n < |http| && Chosen(i, http[n], host, path, m.value);
    assert n == k;
    ShortChoiceDoesNotServe(i, r, host, path, q, m.value);
  }

  /** Every request to accepted routes gets the longest prefix of the owner of its host, exactly when all prefixes are nested in order. */
  lemma LongestPrefixWinsIff(i: Input, routes: seq<Route>)
    requires Render(i, routes).Fine? && Compatible(routes) && ValidHttp(OfKind(routes, Http))
    ensures var http, entries := OfKind(routes, Http), Render(i, routes).value.entries;
            (forall host, path :: Rooted(path) ==> Expected(i, http, host, path, FirstMatch(entries, host, path)))
            <==> AllNested(http)
  {
    var http, entries := OfKind(routes, Http), Render(i, routes).value.entries;
    if AllNested(http) {
      forall host, path | Rooted(path) ensures Expected(i, http, host, path, FirstMatch(entries, host, path)) {
        NestedRoutesServeLongest(i, http, host, path);
      }
    } else {
      var k :| 0 <= k < |http| && !NestedInOrder(http[k].paths);
      var host, path := UnnestedRouteMisserves(i, http, k);
      assert !Expected(i, http, host, path, FirstMatch(entries, host, path));
    }
  }

  /** Prefixes written without a trailing slash, and "/", are always nested in order. */
  lemma TidyPrefixesAreNested(paths: seq<Path>)
    requires ValidPaths(paths)
    requires forall k :: 0 <= k < |paths| ==> paths[k].prefix == "/" || Trim(paths[k].prefix) == paths[k].prefix
    ensures NestedInOrder(paths)
  {
    TrimRoot();
    forall p, q | 0 <= p < |paths| && 0 <= q < |paths| && Within(paths[p].prefix, paths[q].prefix)
      ensures Ahead(paths[q], paths[p])
    {
      var s, t := Trim(paths[p].prefix), Trim(paths[q].prefix);
      assert |t| >= |s| + 1 && paths[q].prefix == t;
      if paths[p].prefix == "/" {
        assert s == [] && t[|t| - 1] != '/' && t[0] == '/';
      }
    }
  }

  /** A prefix with enough trailing slashes is tried before a longer one below it. */
  lemma TrailingSlashesBreakOrder(paths: seq<Path>)
    requires |paths| == 2 && Within(paths[0].prefix, paths[1].prefix) && |paths[0].prefix| > |paths[1].prefix|
    ensures !NestedInOrder(paths)
  {
    var s, t := Trim(paths[0].prefix), Trim(paths[1].prefix);
    assert |s| < |t|;
    forall j | 0 <= j < |paths| ensures !(Trim(paths[j].prefix) == t && Ahead(paths[j], paths[0])) {
      if j == 1 {
        assert !Ahead(paths[1], paths[0]);
      }
    }
  }

  /** For one: "/a///" is tried before "/a/b". */
  function SlashedPaths(backends: seq<Backend>, others: seq<Backend>): (paths: seq<Path>) {
    [Path("/a///", backends, true), Path("/a/b", others, true)]
  }

  lemma SlashedPrefixes(backends: seq<Backend>, others: seq<Backend>)
    requires backends != [] && others != []
    ensures var paths := SlashedPaths(backends, others);
            && ValidPaths(paths) && Trim(paths[0].prefix) == "/a" && Trim(paths[1].prefix) == "/a/b"
            && Within(paths[0].prefix, paths[1].prefix)
  {
    var a, b := Path("/a///", backends, true), Path("/a/b", others, true);
    assert Trim(a.prefix) == "/a" by {
      assert TrimFrom("/a///", 5) == TrimFrom("/a///", 4) == TrimFrom("/a///", 3) == TrimFrom("/a///", 2) == 2;
    }
    assert Trim(b.prefix) == "/a/b";
    assert Within(a.prefix, b.prefix) by {
      assert "/a" + "/" == "/a/b"[..3];
    }
    assert ValidPaths([a, b]) by {
      assert Prefixes([a, b])[0] == a.prefix && Prefixes([a, b])[1] == b.prefix;
      assert |a.prefix| != |b.prefix|;
    }
  }

  lemma SlashedPick(backends: seq<Backend>, others: seq<Backend>, j: int)
    requires backends != [] && others != [] && Picks(SlashedPaths(backends, others), "/a/b", j)
    ensures j == 0
  {
    var paths := SlashedPaths(backends, others);
    SlashedPrefixes(backends, others);
    assert Covers(paths[0].prefix, "/a/b") && Ahead(paths[0], paths[1]);
  }

  /** A route with both serves the request for "/a/b" from the entry of "/a///", though "/a/b" is the longest prefix. */
  lemma SlashedPrefixShadows(i: Input, r: Route, host: string, backends: seq<Backend>, others: seq<Backend>)
    requires backends != [] && others != [] && r.paths == SlashedPaths(backends, others)
    requires OwnsHost(r, host) && RenderHttp(i, [r]).Fine?
    ensures ValidPaths(r.paths) && !NestedInOrder(r.paths)
    ensures var m := FirstMatch(RenderHttp(i, [r]).value, host, "/a/b");
            m.Some? && m.value.prefix == "/a///" && !Serves(i, r, host, "/a/b", m.value)
  {
    SlashedPrefixes(backends, others);
    TrailingSlashesBreakOrder(r.paths);
    assert Covers(r.paths[1].prefix, "/a/b");
    FirstOfGateway(i, [r], host, "/a/b");
    assert !Unserved([r][0], host, "/a/b");
    var m := FirstMatch(RenderHttp(i, [r]).value, host, "/a/b").value;
    assert Chosen(i, r, host, "/a/b", m);
    var j :| Picks(r.paths, "/a/b", j) && EntryOf(i, r, r.paths[j], m);
    SlashedPick(backends, others, j);
    assert |Trim(r.paths[0].prefix)| < |Trim(r.paths[1].prefix)|;
  }
}
