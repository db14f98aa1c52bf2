/** How a request path and query become a locator path, and when two requests
    end up in the same file. */
module RequestLocators {
  import opened Text
  import opened GoPath
  import opened CacheKeys

  const QUERY_MARKER := "/__qs/"

  function RewriteNpm(path: string): string {
    if path == "" then path
    else
      var idx := Index(path, QUERY_MARKER);
      if idx >= 0 then RewriteCore(path[..idx]) + path[idx..] else RewriteCore(path)
  }

  /** A path up to the query marker: tarballs stay, everything else is a package document. */
  function RewriteCore(core: string): string {
    if Contains(core, "/-/") then core
    else
      var trimmed := TrimSuffix(core, "/");
      var clean := if trimmed == "" then "/" else trimmed;
      if clean == "/" then "/package.json" else clean + "/package.json"
  }

  function RewriteGo(path: string): string {
    if path == "" then "/"
    else
      var clean := Clean("/" + path);
      if HasPrefix(clean, "/sumdb/") then clean
      else if HasSuffix(clean, "/") then
        var trimmed := TrimSuffix(clean, "/");
        if trimmed == "" then "/" else trimmed
      else clean
  }

  /** `buildLocator`; `digest` stands for the hexadecimal SHA-256 of the query. */
  function BuildPath(hubType: string, clean: string, query: string, digest: string -> string): string {
    var path := if |query| > 0 then clean + QUERY_MARKER + digest(query) else clean;
    match hubType
    case "npm" => RewriteNpm(path)
    case "go" => RewriteGo(path)
    case _ => path
  }

  function StripQueryMarker(p: string): string {
    var idx := Index(p, QUERY_MARKER);
    if idx >= 0 then p[..idx] else p
  }

  /** What is assumed of SHA-256 here: no two queries collide, and the text is one path segment. */
  ghost predicate IsDigest(digest: string -> string) {
    (forall a, b :: digest(a) == digest(b) ==> a == b) && (forall a :: Proper(digest(a)))
  }

  /** A request path as the handler sees it: clean, and without a `__qs` element of its own. */
  predicate RequestPath(p: string) {
    IsClean(p) && "__qs" !in Segments(p)
  }

  predicate IsTarball(p: string) {
    Contains(p, "/-/")
  }

  // ---- Segments of the pieces ---------------------------------------------

  lemma SplitOfClean(p: string)
    requires IsClean(p)
    ensures Split(p, '/') == [""] + (if p == "/" then [""] else Segments(p))
  {
    assert p == "" + "/" + p[1..];
    SplitConcat("", '/', p[1..]);
    if |p| == 1 {
      assert p[1..] == "";
    }
  }

  predicate InnerDash(segs: Segs) {
    exists k :: 0 <= k < |segs| - 1 && segs[k] == "-"
  }

  lemma TarballSegments(p: string)
    requires IsClean(p)
    ensures IsTarball(p) <==> InnerDash(Segments(p))
  {
    assert "/" + "-" + "/" == "/-/";
    ContainsInnerSegment(p, "-");
    SplitOfClean(p);
    var split, segs := Split(p, '/'), Segments(p);
    if k :| 0 < k < |split| - 1 && split[k] == "-" {
      assert segs[k - 1] == "-";
    }
    if k :| 0 <= k < |segs| - 1 && segs[k] == "-" {
      assert split[k + 1] == "-";
    }
  }

  /** No element of the path but the first, which stands before its slash, is the marker's. */
  predicate MarkerFree(p: string) {
    forall k :: 0 < k < |Split(p, '/')| ==> Split(p, '/')[k] != "__qs"
  }

  lemma NoMarkerElement(p: string)
    requires RequestPath(p)
    ensures MarkerFree(p)
  {
    SplitOfClean(p);
    forall k | 0 < k < |Split(p, '/')| ensures Split(p, '/')[k] != "__qs" {
      assert p != "/" ==> Split(p, '/')[k] == Segments(p)[k - 1];
    }
  }

  lemma SlashMarkerFree(p: string)
    requires MarkerFree(p)
    ensures MarkerFree(p + "/")
  {
    assert p + "/" + "" == p + "/";
    SplitConcat(p, '/', "");
    assert Split("", '/') == [""];
  }

  lemma NoMarker(p: string)
    requires MarkerFree(p)
    ensures Index(p, QUERY_MARKER) == -1
  {
    if Contains(p, QUERY_MARKER) {
      assert "/" + "__qs" + "/" == QUERY_MARKER;
      var k := ContainedIsInner(p, "__qs");
    }
  }

  /** The marker that `buildLocator` appends is the first one in the path. */
  lemma MarkerIsFirst(p: string, d: string)
    requires MarkerFree(p) && Proper(d)
    ensures Index(p + QUERY_MARKER + d, QUERY_MARKER) == |p|
  {
    var s := p + QUERY_MARKER + d;
    hide Split, MarkerFree, Proper;
    assert s[|p|..] == QUERY_MARKER + d;
    forall j: nat | j < |p| ensures !(QUERY_MARKER <= s[j..]) {
      if QUERY_MARKER <= s[j..] {
        MarkerNotEarlier(p, d, j);
      }
    }
    IndexAt(s, QUERY_MARKER, |p|);
  }

  lemma MarkerNotEarlier(p: string, d: string, j: nat)
    requires MarkerFree(p) && Proper(d)
    requires j <= |p| && QUERY_MARKER <= (p + QUERY_MARKER + d)[j..]
    ensures j == |p|
  {
    var s := p + QUERY_MARKER + d;
    SplitAround(s, QUERY_MARKER, j);
    MarkerNotBefore(p, d, s[..j], s[j + |QUERY_MARKER|..]);
  }

  lemma MarkerNotBefore(p: string, d: string, a: string, b: string)
    requires MarkerFree(p) && Proper(d)
    requires p + QUERY_MARKER + d == a + QUERY_MARKER + b
    ensures |p| <= |a|
  {
    MarkedSplit(p, d);
    MarkedSplit(a, b);
    SplitFree(d, '/');
    SameMarker(Split(p, '/'), [d], Split(a, '/'), Split(b, '/'));
    JoinSplit(p, '/');
    JoinSplit(a, '/');
  }

  lemma MarkedSplit(a: string, b: string)
    ensures Split(a + QUERY_MARKER + b, '/') == Split(a, '/') + ["__qs"] + Split(b, '/')
  {
    assert a + QUERY_MARKER + b == a + "/" + "__qs" + "/" + b;
    SegmentBetween(a, "__qs", b);
  }

  lemma SameMarker(x: Segs, tail: Segs, left: Segs, right: Segs)
    requires |right| >= 1 && |left| >= 1 && |tail| == 1
    requires x + ["__qs"] + tail == left + ["__qs"] + right
    requires forall k :: 0 < k < |x| ==> x[k] != "__qs"
    ensures x == left
  {
    assert |x| + 2 == |left| + 1 + |right|;
    assert (left + ["__qs"] + right)[|left|] == "__qs";
    assert forall k :: 0 <= k < |x| ==> (x + ["__qs"] + tail)[k] == x[k];
    assert (x + ["__qs"] + tail)[..|x|] == x && (left + ["__qs"] + right)[..|left|] == left;
  }

  // ---- The file of a request ----------------------------------------------

  /** The elements that the npm rewrite adds to a package path. */
  function Suffix(hubType: string, p: string): Segs {
    if hubType == "npm" && !IsTarball(p) then ["package.json"] else []
  }

  /** The file of a request, computed from its segments and query alone. */
  function RequestFile(hubType: string, p: string, query: string, digest: string -> string): Segs
    requires IsClean(p)
  {
    var segs := Segments(p) + Suffix(hubType, p) + (if |query| > 0 then ["__qs", digest(query)] else []);
    if segs == [] then ["root"] else segs
  }

  lemma PlainFile(p: string)
    requires IsClean(p)
    ensures FileSegs(p) == if Segments(p) == [] then ["root"] else Segments(p)
  {
    CleanExtraSlash(p);
    CleanFixed(p);
  }

  lemma ExtendedFile(p: string, extra: Segs)
    requires IsClean(p) && extra != [] && AllProper(extra)
    ensures FileSegs(p + "/" + Join(extra, '/')) == Segments(p) + extra
  {
    CleanExtraSlash(p + "/" + Join(extra, '/'));
    assert "/" + (p + "/" + Join(extra, '/')) == "/" + p + "/" + Join(extra, '/');
    JoinedPath(p, extra);
  }

  lemma NoTrailingSlash(p: string)
    requires IsClean(p) && p != "/"
    ensures TrimSuffix(p, "/") == p
  {
    SegmentsRender(p);
    var segs := Segments(p);
    assert Render([]) == "/";
    var last := segs[|segs| - 1];
    assert Proper(last);
    if |segs| > 1 {
      JoinConcat(segs[..|segs| - 1], [last], '/');
      assert segs[..|segs| - 1] + [last] == segs;
    }
    assert p[|p| - 1] == last[|last| - 1];
  }

  lemma FileOfCleanRequest(hubType: string, p: string, query: string, digest: string -> string)
    requires RequestPath(p) && IsDigest(digest)
    ensures FileSegs(BuildPath(hubType, p, query, digest)) == RequestFile(hubType, p, query, digest)
  {
    var d := digest(query);
    assert Proper("__qs") && Proper("package.json");
    if hubType == "npm" {
      NpmFile(p, query, d);
    } else {
      var path := if |query| > 0 then p + QUERY_MARKER + d else p;
      if |query| > 0 {
        MarkedFile(p, d);
      } else {
        PlainFile(p);
      }
      if hubType == "go" {
        GoPathIsClean(path);
        EntryPathIgnoresCleaning("/", Locator("", path));
      }
      assert Segments(p) + [] == Segments(p);
    }
  }

  // ---- Paths with a final slash ---------------------------------------------

  /** A clean path other than the root with a slash behind it, as the PyPI hook makes them. */
  predicate SlashPath(p: string) {
    |p| > 2 && p[|p| - 1] == '/' && RequestPath(p[..|p| - 1])
  }

  /** The paths that reach `buildLocator`: clean ones, and in hubs with a path hook those with a slash. */
  predicate HookPath(hubType: string, p: string) {
    RequestPath(p) || (hubType != "npm" && hubType != "go" && SlashPath(p))
  }

  function Bare(p: string): string {
    if |p| > 1 && p[|p| - 1] == '/' then p[..|p| - 1] else p
  }

  lemma BareOf(hubType: string, p: string)
    requires HookPath(hubType, p)
    ensures RequestPath(Bare(p)) && (p == Bare(p) <==> RequestPath(p))
    ensures p == Bare(p) || (p == Bare(p) + "/" && Bare(p) != "/" && hubType != "npm" && hubType != "go")
  {
    if RequestPath(p) {
      if p != "/" {
        NoTrailingSlash(p);
        assert HasSuffix(p, "/") ==> TrimSuffix(p, "/") != p;
      }
    } else {
      assert p == p[..|p| - 1] + "/";
      SlashNotClean(p[..|p| - 1]);
    }
  }

  lemma SlashNotClean(b: string)
    requires IsClean(b)
    ensures b != "/" ==> !IsClean(b + "/")
  {
    assert (b + "/")[|b|..] == "/" && TrimSuffix(b + "/", "/") != b + "/";
    if b != "/" && IsClean(b + "/") {
      NoTrailingSlash(b + "/");
    }
  }

  /** A final slash makes no difference to the file, with a query marker behind it or without. */
  lemma SlashSameFile(b: string, d: string)
    requires IsClean(b) && Proper(d)
    ensures FileSegs(b + "/") == FileSegs(b) && FileSegs(b + "/" + QUERY_MARKER + d) == FileSegs(b + QUERY_MARKER + d)
  {
    CleanIsRooted(b);
    hide FileSegs, Clean, Split, Resolve, IsClean, Render, Segments;
    EmptySplit(d);
    CleanAppend(b, "");
    CleanAppend(b, QUERY_MARKER + d);
    CleanAppend(b, "__qs/" + d);
    CleanSegments(b);
    CleanFixed(b);
    SegmentsRender(b);
    assert b + "/" + "" == b + "/";
    assert b + "/" + (QUERY_MARKER + d) == b + "/" + QUERY_MARKER + d && b + "/" + ("__qs/" + d) == b + QUERY_MARKER + d;
    SkipsEmpty(Segments(b), "__qs", d);
    SameCleanSameFile(b + "/", b);
    SameCleanSameFile(b + "/" + QUERY_MARKER + d, b + QUERY_MARKER + d);
  }

  lemma EmptySplit(d: string)
    requires Proper(d)
    ensures Split("", '/') == [""] && Split("__qs/" + d, '/') == ["__qs", d] && Split(QUERY_MARKER + d, '/') == ["", "__qs", d]
  {
    SplitFree(d, '/');
    SplitFree("__qs", '/');
    SplitConcat("__qs", '/', d);
    assert "__qs" + ['/'] + d == "__qs/" + d;
    SplitConcat("", '/', "__qs/" + d);
    assert "" + ['/'] + ("__qs/" + d) == QUERY_MARKER + d;
  }

  lemma SkipsEmpty(stack: Segs, x: string, y: string)
    ensures Resolve(stack, [""]) == stack
    ensures Resolve(stack, ["", x, y]) == Resolve(stack, [x, y])
  {
    assert [""][1..] == [] && ["", x, y][1..] == [x, y];
    assert Push(stack, "") == stack;
  }

  lemma SameCleanSameFile(p: string, q: string)
    requires Rooted(p) && Rooted(q) && Clean(p) == Clean(q)
    ensures FileSegs(p) == FileSegs(q)
  {
    CleanExtraSlash(p);
    CleanExtraSlash(q);
  }

  /** The file that `buildLocator` and `entryPath` choose for a request. */
  lemma FileOfRequest(hubType: string, p: string, query: string, digest: string -> string)
    requires HookPath(hubType, p) && IsDigest(digest)
    ensures RequestPath(Bare(p))
    ensures FileSegs(BuildPath(hubType, p, query, digest)) == RequestFile(hubType, Bare(p), query, digest)
  {
    hide RequestPath, HookPath, RequestFile, FileSegs, Bare;
    BareOf(hubType, p);
    FileOfCleanRequest(hubType, Bare(p), query, digest);
    if p != Bare(p) {
      RequestIsClean(Bare(p));
      SlashSameFile(Bare(p), digest(query));
    }
  }

  lemma RequestIsClean(p: string)
    requires RequestPath(p)
    ensures IsClean(p)
  {
  }

  lemma GoPathIsClean(path: string)
    ensures RewriteGo(path) == Clean("/" + path)
  {
    CleanFixed("/");
    assert "/" + "" == "/";
    CleanSegments("/" + path);
    var clean := Clean("/" + path);
    if clean != "/" {
      NoTrailingSlash(clean);
      assert HasSuffix(clean, "/") ==> TrimSuffix(clean, "/") != clean;
    }
  }

  /** The file of a clean path with the query marker behind it. */
  lemma MarkedFile(p: string, d: string)
    requires IsClean(p) && Proper(d)
    ensures FileSegs(p + QUERY_MARKER + d) == Segments(p) + ["__qs", d]
  {
    hide FileSegs, IsClean, Segments;
    MarkerProper();
    ExtendedFile(p, ["__qs", d]);
    MarkerJoined(d);
    Assoc(p, QUERY_MARKER, d);
    Assoc(p, "/", "__qs/" + d);
  }

  /** A clean path with further elements. */
  function Extend(p: string, extra: Segs): string {
    if extra == [] then p else if p == "/" then Render(extra) else p + Render(extra)
  }

  lemma ExtendSegments(p: string, extra: Segs)
    requires IsClean(p) && AllProper(extra)
    ensures IsClean(Extend(p, extra)) && Segments(Extend(p, extra)) == Segments(p) + extra
  {
    SegmentsRender(p);
    assert Render([]) == "/";
    if extra != [] {
      RenderSegments(Segments(p) + extra);
      if p == "/" {
        assert [] + extra == extra;
      } else {
        RenderConcat(Segments(p), extra);
      }
    } else {
      assert Segments(p) + [] == Segments(p);
    }
  }

  lemma NpmCore(p: string)
    requires IsClean(p)
    ensures AllProper(Suffix("npm", p)) && RewriteCore(p) == Extend(p, Suffix("npm", p))
  {
    hide IsClean, Split, Render, Segments;
    if p != "/" {
      NoTrailingSlash(p);
    }
    PackageJsonProper();
    RenderOne("package.json");
  }

  lemma PackageJsonProper()
    ensures Proper("package.json") && "/" + "package.json" == "/package.json"
  {
  }

  lemma RenderOne(seg: string)
    ensures Render([seg]) == "/" + seg
  {
  }

  lemma NpmFile(p: string, query: string, d: string)
    requires RequestPath(p) && Proper(d)
    ensures FileSegs(RewriteNpm(if |query| > 0 then p + QUERY_MARKER + d else p)) ==
            var segs := Segments(p) + Suffix("npm", p) + (if |query| > 0 then ["__qs", d] else []);
            if segs == [] then ["root"] else segs
  {
    var head := Extend(p, Suffix("npm", p));
    NpmCore(p);
    ExtendSegments(p, Suffix("npm", p));
    if |query| > 0 {
      NpmMarked(p, d);
      MarkedFile(head, d);
    } else {
      NoMarkerElement(p);
      NoMarker(p);
      PlainFile(head);
      assert Segments(head) + [] == Segments(head);
    }
  }

  lemma NpmMarked(p: string, d: string)
    requires RequestPath(p) && Proper(d)
    ensures RewriteNpm(p + QUERY_MARKER + d) == RewriteCore(p) + QUERY_MARKER + d
  {
    hide MarkerFree, RewriteCore, RequestPath, Index, Proper;
    var path := p + QUERY_MARKER + d;
    NoMarkerElement(p);
    MarkerIsFirst(p, d);
    assert path[..|p|] == p && path[|p|..] == QUERY_MARKER + d;
    assert RewriteCore(p) + (QUERY_MARKER + d) == RewriteCore(p) + QUERY_MARKER + d;
  }

  // ---- Which requests share a file ------------------------------------------

  /** The npm paths that the `package.json` rewrite sends to one file. */
  predicate NpmClash(p: string, q: string) {
    HasSuffix(p, "/-") && !IsTarball(p) && q == p + "/package.json"
  }

  /** Different requests of one hub never share a file, with exactly these exceptions: the query-free paths
      `/` and `/root` outside npm, a path with and without a final slash, and for npm a path ending in `/-`
      against that path followed by `/package.json`. */
  lemma RequestsShareFile(hubType: string, p1: string, q1: string, p2: string, q2: string, digest: string -> string)
    requires HookPath(hubType, p1) && HookPath(hubType, p2) && IsDigest(digest)
    requires (p1, q1) != (p2, q2)
    ensures FileSegs(BuildPath(hubType, p1, q1, digest)) == FileSegs(BuildPath(hubType, p2, q2, digest))
            <==> if hubType == "npm" then q1 == q2 && (NpmClash(p1, p2) || NpmClash(p2, p1))
                 else q1 == q2 && (Bare(p1) == Bare(p2) || (q1 == "" && {Bare(p1), Bare(p2)} == {"/", "/root"}))
  {
    hide FileSegs, BuildPath, RequestFile, NpmClash, HookPath, RequestPath, Bare, IsDigest;
    FileOfRequest(hubType, p1, q1, digest);
    FileOfRequest(hubType, p2, q2, digest);
    BareOf(hubType, p1);
    BareOf(hubType, p2);
    if hubType == "npm" {
      NpmShare(p1, q1, p2, q2, digest);
    } else if (Bare(p1), q1) != (Bare(p2), q2) {
      PlainShare(hubType, Bare(p1), q1, Bare(p2), q2, digest);
      RootPair(Bare(p1), Bare(p2));
    }
  }

  lemma PlainShare(hubType: string, p1: string, q1: string, p2: string, q2: string, digest: string -> string)
    requires RequestPath(p1) && RequestPath(p2) && IsDigest(digest)
    requires (p1, q1) != (p2, q2) && hubType != "npm"
    ensures RequestFile(hubType, p1, q1, digest) == RequestFile(hubType, p2, q2, digest)
            <==> q1 == q2 == "" && {p1, p2} == {"/", "/root"}
  {
    var s1, s2 := Segments(p1), Segments(p2);
    PlainRequestFile(hubType, p1, q1, digest);
    PlainRequestFile(hubType, p2, q2, digest);
    MarkerParts(s1, q1, s2, q2, digest);
    SameSegments(p1, p2);
    RootSegments(p1);
    RootSegments(p2);
    hide RequestFile, RequestPath, IsDigest, Segments;
    RootPair(p1, p2);
  }

  lemma PlainRequestFile(hubType: string, p: string, q: string, digest: string -> string)
    requires RequestPath(p) && hubType != "npm"
    ensures RequestFile(hubType, p, q, digest) ==
            var segs := Segments(p) + if |q| > 0 then ["__qs", digest(q)] else [];
            if segs == [] then ["root"] else segs
  {
    assert Segments(p) + [] == Segments(p);
  }

  lemma SameSegments(p: string, q: string)
    requires IsClean(p) && IsClean(q)
    ensures Segments(p) == Segments(q) <==> p == q
  {
    SegmentsRender(p);
    SegmentsRender(q);
  }

  lemma RootPair(p: string, q: string)
    ensures {p, q} == {"/", "/root"} <==> (p == "/" && q == "/root") || (p == "/root" && q == "/")
  {
    if {p, q} == {"/", "/root"} {
      assert p in {"/", "/root"} && q in {"/", "/root"} && "/" in {p, q} && "/root" in {p, q};
    }
  }

  lemma RootSegments(p: string)
    requires IsClean(p)
    ensures (Segments(p) == [] <==> p == "/") && (Segments(p) == ["root"] <==> p == "/root")
  {
    SegmentsRender(p);
    RenderSegments(["root"]);
    assert Render([]) == "/" && Render(["root"]) == "/root";
  }

  /** The marker and digest behind marker-free elements determine both parts. */
  lemma MarkerParts(s1: Segs, q1: string, s2: Segs, q2: string, digest: string -> string)
    requires "__qs" !in s1 && "__qs" !in s2 && IsDigest(digest)
    ensures var m1 := if |q1| > 0 then ["__qs", digest(q1)] else [];
            var m2 := if |q2| > 0 then ["__qs", digest(q2)] else [];
            (s1 + m1 == s2 + m2 <==> s1 == s2 && q1 == q2) &&
            (|q1| > 0 ==> s1 + m1 != ["root"] && s1 + m1 != [])
  {
    var m1 := if |q1| > 0 then ["__qs", digest(q1)] else [];
    var m2 := if |q2| > 0 then ["__qs", digest(q2)] else [];
    MarkerShows(s1, digest(q1));
    MarkerShows(s2, digest(q2));
    assert s1 + [] == s1 && s2 + [] == s2;
    if |q1| > 0 && |q2| > 0 && s1 + m1 == s2 + m2 {
      assert (s1 + m1)[|s1|..] == m1 && (s1 + m1)[..|s1|] == s1 && (s2 + m2)[..|s2|] == s2;
      assert m1[1] == m2[1];
    }
  }

  lemma MarkerShows(segs: Segs, d: string)
    ensures "__qs" in segs + ["__qs", d] && |segs + ["__qs", d]| >= 2
  {
    assert (segs + ["__qs", d])[|segs|] == "__qs";
  }

  lemma NpmShare(p1: string, q1: string, p2: string, q2: string, digest: string -> string)
    requires RequestPath(p1) && RequestPath(p2) && IsDigest(digest)
    requires (p1, q1) != (p2, q2)
    ensures RequestFile("npm", p1, q1, digest) == RequestFile("npm", p2, q2, digest)
            <==> q1 == q2 && (NpmClash(p1, p2) || NpmClash(p2, p1))
  {
    var s1, s2 := Segments(p1) + Suffix("npm", p1), Segments(p2) + Suffix("npm", p2);
    NpmNeverRoot(p1);
    NpmNeverRoot(p2);
    MarkerParts(s1, q1, s2, q2, digest);
    if p1 != p2 {
      NpmSegmentsClash(p1, p2);
    } else {
      assert |p1 + "/package.json"| > |p1|;
    }
  }

  lemma NpmNeverRoot(p: string)
    requires RequestPath(p)
    ensures Segments(p) + Suffix("npm", p) != [] && "__qs" !in Segments(p) + Suffix("npm", p)
  {
    TarballSegments(p);
  }

  lemma NpmSegmentsClash(p1: string, p2: string)
    requires RequestPath(p1) && RequestPath(p2) && p1 != p2
    ensures Segments(p1) + Suffix("npm", p1) == Segments(p2) + Suffix("npm", p2)
            <==> NpmClash(p1, p2) || NpmClash(p2, p1)
  {
    SegmentsRender(p1);
    SegmentsRender(p2);
    var s1, s2 := Segments(p1), Segments(p2);
    if IsTarball(p1) == IsTarball(p2) {
      assert s1 + [] == s1 && s2 + [] == s2;
      assert (s1 + ["package.json"])[..|s1|] == s1 && (s2 + ["package.json"])[..|s2|] == s2;
      NpmClashIsTarball(p1, p2);
      NpmClashIsTarball(p2, p1);
    } else if IsTarball(p2) {
      NpmClashSegments(p1, p2);
      assert s2 + [] == s2;
    } else {
      NpmClashSegments(p2, p1);
      assert s1 + [] == s1;
    }
  }

  lemma NpmClashIsTarball(p: string, q: string)
    requires RequestPath(p) && RequestPath(q)
    ensures NpmClash(p, q) ==> IsTarball(q)
  {
    if NpmClash(p, q) {
      TarballMiddle(p[..|p| - 2], q);
    }
  }

  lemma TarballMiddle(head: string, q: string)
    requires q == head + "/-" + "/package.json"
    ensures IsTarball(q)
  {
    ContainsMiddle(head, "/-/", "package.json");
    assert q == head + "/-/" + "package.json";
  }

  /** A package path takes the file of a tarball path exactly when it ends in `/-`. */
  lemma NpmClashSegments(p: string, q: string)
    requires RequestPath(p) && RequestPath(q) && !IsTarball(p) && IsTarball(q)
    ensures Segments(q) == Segments(p) + ["package.json"] <==> NpmClash(p, q)
    ensures !NpmClash(q, p)
  {
    PackageDocument(p, q);
    if Segments(q) == Segments(p) + ["package.json"] {
      TarballEndsInDash(p, q);
    }
  }

  lemma PackageDocument(p: string, q: string)
    requires IsClean(p) && IsClean(q)
    ensures p != "/" ==> (Segments(q) == Segments(p) + ["package.json"] <==> q == p + "/package.json")
  {
    ExtendSegments(p, ["package.json"]);
    SegmentsRender(q);
    SegmentsRender(Extend(p, ["package.json"]));
    assert Render(["package.json"]) == "/package.json";
  }

  lemma TarballEndsInDash(p: string, q: string)
    requires IsClean(p) && IsClean(q) && !IsTarball(p) && IsTarball(q)
    requires Segments(q) == Segments(p) + ["package.json"]
    ensures p != "/" && HasSuffix(p, "/-")
  {
    TarballSegments(p);
    TarballSegments(q);
    DashBeforeLast(Segments(p), "package.json");
    LastSegmentSuffix(p, "-");
  }

  lemma DashBeforeLast(segs: Segs, last: string)
    requires InnerDash(segs + [last]) && !InnerDash(segs)
    ensures segs != [] && segs[|segs| - 1] == "-"
  {
    var k :| 0 <= k < |segs + [last]| - 1 && (segs + [last])[k] == "-";
    assert segs[k] == "-";
  }

  lemma LastSegmentSuffix(p: string, seg: string)
    requires IsClean(p) && Segments(p) != [] && Segments(p)[|Segments(p)| - 1] == seg
    ensures HasSuffix(p, "/" + seg)
  {
    SegmentsRender(p);
    var segs := Segments(p);
    if |segs| > 1 {
      JoinConcat(segs[..|segs| - 1], [seg], '/');
      assert segs[..|segs| - 1] + [seg] == segs;
      assert p == "/" + Join(segs[..|segs| - 1], '/') + ("/" + seg);
    } else {
      assert p == "/" + seg;
    }
  }

  // ---- Which requests' files lie below each other --------------------------------

  /** The file segments of a path before any query marker. */
  function Core(hubType: string, p: string): Segs
    requires IsClean(p)
  {
    Segments(p) + Suffix(hubType, p)
  }

  /** The same, with the name that the query-free root gets. */
  function Head(hubType: string, p: string, query: string): Segs
    requires IsClean(p)
  {
    if query == "" && Core(hubType, p) == [] then ["root"] else Core(hubType, p)
  }

  lemma CoreHasNoMarker(hubType: string, p: string)
    requires RequestPath(p)
    ensures "__qs" !in Core(hubType, p)
  {
  }

  lemma FileFromCore(hubType: string, p: string, query: string, digest: string -> string)
    requires RequestPath(p)
    ensures RequestFile(hubType, p, query, digest) ==
            if query == "" then Head(hubType, p, "") else Core(hubType, p) + ["__qs", digest(query)]
  {
    assert Core(hubType, p) + [] == Core(hubType, p);
  }

  /** The elements before the first marker. */
  function BeforeMarker(segs: Segs): Segs {
    if segs == [] || segs[0] == "__qs" then [] else [segs[0]] + BeforeMarker(segs[1..])
  }

  lemma {:induction false} BeforeItsMarker(c: Segs, tail: Segs)
    requires "__qs" !in c && (tail == [] || tail[0] == "__qs")
    ensures BeforeMarker(c + tail) == c
  {
    if c == [] {
      assert c + tail == tail;
    } else {
      assert (c + tail)[0] == c[0] && (c + tail)[1..] == c[1..] + tail;
      BeforeItsMarker(c[1..], tail);
    }
  }

  lemma {:induction false} BeforeInPrefix(x: Segs, y: Segs)
    requires x <= y
    ensures if "__qs" in x then BeforeMarker(x) == BeforeMarker(y) else x <= BeforeMarker(y)
  {
    if x == [] {
    } else {
      assert x[0] == y[0] && x[1..] <= y[1..];
      assert "__qs" in x <==> x[0] == "__qs" || "__qs" in x[1..];
      BeforeInPrefix(x[1..], y[1..]);
    }
  }

  /** Marker-free elements before another file's marker are all before it. */
  lemma PrefixBeforeMarker(x: Segs, c: Segs, d: string)
    requires "__qs" !in x && "__qs" !in c
    ensures x <= c + ["__qs", d] <==> x <= c
  {
    BeforeItsMarker(c, ["__qs", d]);
    if x <= c + ["__qs", d] {
      BeforeInPrefix(x, c + ["__qs", d]);
    }
  }

  /** A file with a marker is above, or is, another one only if that has the same marker in the same place. */
  lemma MarkedPrefix(c1: Segs, d1: string, c2: Segs, tail: Segs)
    requires "__qs" !in c1 && "__qs" !in c2 && (tail == [] || (|tail| == 2 && tail[0] == "__qs"))
    ensures c1 + ["__qs", d1] <= c2 + tail <==> c1 == c2 && tail == ["__qs", d1]
  {
    var x, y := c1 + ["__qs", d1], c2 + tail;
    BeforeItsMarker(c1, ["__qs", d1]);
    BeforeItsMarker(c2, tail);
    assert x[|c1|] == "__qs" && x[|c1|..] == ["__qs", d1] && y[|c2|..] == tail;
    if x <= y {
      BeforeInPrefix(x, y);
      assert x == y[..|x|];
    }
  }

  lemma RootNotMarker(c: Segs, d: string)
    requires "__qs" !in c
    ensures ["root"] <= c + ["__qs", d] <==> ["root"] <= c
  {
    PrefixBeforeMarker(["root"], c, d);
  }

  /** The file of one request is, or lies above, that of another exactly in these cases: with a query of its
      own, only for the same query of a path with the same core; without, when its elements begin those of
      the other path, whatever that one's query. So a path with a query has its file below the path without. */
  lemma RequestsNest(hubType: string, p1: string, q1: string, p2: string, q2: string, digest: string -> string)
    requires HookPath(hubType, p1) && HookPath(hubType, p2) && IsDigest(digest)
    ensures RequestPath(Bare(p1)) && RequestPath(Bare(p2))
    ensures FileSegs(BuildPath(hubType, p1, q1, digest)) <= FileSegs(BuildPath(hubType, p2, q2, digest)) <==>
            if q1 != "" then Core(hubType, Bare(p1)) == Core(hubType, Bare(p2)) && q1 == q2
            else Head(hubType, Bare(p1), "") <= Head(hubType, Bare(p2), q2)
  {
    hide FileSegs, BuildPath, RequestFile, HookPath, RequestPath, Bare, Core, Proper;
    FileOfRequest(hubType, p1, q1, digest);
    FileOfRequest(hubType, p2, q2, digest);
    var b1, b2 := Bare(p1), Bare(p2);
    FileFromCore(hubType, b1, q1, digest);
    FileFromCore(hubType, b2, q2, digest);
    CoreHasNoMarker(hubType, b1);
    CoreHasNoMarker(hubType, b2);
    RequestIsClean(b1);
    RequestIsClean(b2);
    var c1, c2, tail := Core(hubType, b1), Core(hubType, b2), ["__qs", digest(q2)];
    if q1 != "" {
      MarkedPrefix(c1, digest(q1), c2, tail);
      MarkedPrefix(c1, digest(q1), c2, []);
      assert c2 + [] == c2;
      assert c1 + ["__qs", digest(q1)] <= ["root"] ==> false;
    } else if q2 != "" {
      PrefixBeforeMarker(c1, c2, digest(q2));
      RootNotMarker(c2, digest(q2));
    }
  }

  /** In particular the file of a path with a query lies strictly below the file of the path itself; only the
      root outside npm is apart. */
  lemma QueryBelowPath(hubType: string, p: string, query: string, digest: string -> string)
    requires HookPath(hubType, p) && IsDigest(digest) && query != ""
    ensures FileSegs(BuildPath(hubType, p, "", digest)) < FileSegs(BuildPath(hubType, p, query, digest)) <==>
            (hubType == "npm" || p != "/")
  {
    hide FileSegs, BuildPath, Head, HookPath, IsDigest;
    RequestsNest(hubType, p, "", p, query, digest);
    RequestsShareFile(hubType, p, "", p, query, digest);
    BareOf(hubType, p);
    HeadOfRoot(hubType, Bare(p), query);
  }

  lemma HeadOfRoot(hubType: string, p: string, query: string)
    requires RequestPath(p) && query != ""
    ensures Head(hubType, p, "") <= Head(hubType, p, query) <==> (hubType == "npm" || p != "/")
  {
    NpmNeverRoot(p);
    RootSegments(p);
    assert Segments(p) + [] == Segments(p);
  }

  // ---- npm metadata beside tarballs ------------------------------------------

  /** One file sits inside the other's path, or they are the same. */
  predicate Related(a: Segs, b: Segs) {
    a <= b || b <= a
  }

  /** The path is that of the other one's package document, or lies below it. */
  predicate AtDocumentOf(q: string, p: string) {
    Segments(p) + ["package.json"] <= Segments(q)
  }

  /** A package document is the file of another request, or above or below it, exactly when one of the two
      paths is or lies below the other package's `package.json`. So without such an element in the
      paths, package documents and tarballs stay apart. */
  lemma PackagesBesideTarballs(p: string, other: string, digest: string -> string)
    requires RequestPath(p) && RequestPath(other) && p != other && IsDigest(digest) && !IsTarball(p)
    ensures Related(FileSegs(BuildPath("npm", p, "", digest)), FileSegs(BuildPath("npm", other, "", digest)))
            <==> AtDocumentOf(other, p) || (!IsTarball(other) && AtDocumentOf(p, other))
  {
    FileOfCleanRequest("npm", p, "", digest);
    FileOfCleanRequest("npm", other, "", digest);
    SegmentsRender(p);
    SegmentsRender(other);
    TarballSegments(p);
    TarballSegments(other);
    hide FileSegs, BuildPath, IsClean, Render, Split, Segments, IsTarball;
    var s, o := Segments(p), Segments(other);
    assert (s + ["package.json"]) + [] == s + ["package.json"] && o + [] == o && (o + []) + [] == o;
    assert (o + ["package.json"]) + [] == o + ["package.json"];
    LongerPrefix(s, o, "package.json");
    LongerPrefix(o, s, "package.json");
    TarballInside(o, s);
  }

  /** A prefix of an extended sequence is the whole of it or a prefix of what was extended. */
  lemma LongerPrefix(s: Segs, o: Segs, last: string)
    ensures s <= o + [last] <==> s <= o || s == o + [last]
    ensures s + [last] <= o + [last] <==> s == o || s + [last] <= o
  {
    assert (o + [last])[..|o|] == o;
    if s <= o + [last] && |s| <= |o| {
      assert s == (o + [last])[..|s|] == o[..|s|];
    }
    if s + [last] <= o + [last] && |s| < |o| {
      assert s + [last] == (o + [last])[..|s| + 1] == o[..|s| + 1];
    }
    if s + [last] <= o + [last] && |s| == |o| {
      assert s == (s + [last])[..|s|];
    }
  }

  lemma TarballInside(o: Segs, s: Segs)
    ensures o <= s && InnerDash(o) ==> InnerDash(s)
  {
    if o <= s && InnerDash(o) {
      var k :| 0 <= k < |o| - 1 && o[k] == "-";
      assert s[k] == "-";
    }
  }

  // ---- The query marker taken off again ----------------------------------------

  lemma MarkerRendered(d: string)
    ensures Render(["__qs", d]) == QUERY_MARKER + d
  {
    MarkerJoined(d);
  }

  lemma MarkerJoined(d: string)
    ensures Join(["__qs", d], '/') == "__qs/" + d && QUERY_MARKER + d == "/" + ("__qs/" + d)
  {
    assert ["__qs", d][1..] == [d];
    assert "__qs" + "/" == "__qs/";
  }

  lemma CutAtMarker(p: string, d: string)
    requires MarkerFree(p) && Proper(d)
    ensures StripQueryMarker(p + QUERY_MARKER + d) == p && StripQueryMarker(p) == p
  {
    MarkerIsFirst(p, d);
    NoMarker(p);
    assert (p + QUERY_MARKER + d)[..|p|] == p;
  }

  lemma NpmHead(p: string)
    requires RequestPath(p)
    ensures RequestPath(RewriteCore(p)) && RewriteNpm(p) == RewriteCore(p)
  {
    hide IsClean, Split, Render, Segments;
    NpmCore(p);
    ExtendSegments(p, Suffix("npm", p));
    NpmNeverRoot(p);
    NoMarkerElement(p);
    NoMarker(p);
    NotEmpty(p);
  }

  lemma NotEmpty(p: string)
    requires IsClean(p)
    ensures p != ""
  {
  }

  lemma GoKeepsClean(x: string)
    requires IsClean(x)
    ensures RewriteGo(x) == x && RewriteGo("/" + x) == x
  {
    NotEmpty(x);
    GoPathIsClean(x);
    GoPathIsClean("/" + x);
    CleanIsRooted(x);
    CleanFixed(x);
    CleanExtraSlash(x);
    CleanExtraSlash("/" + x);
  }

  lemma GoMarked(p: string, d: string)
    requires RequestPath(p) && Proper(d)
    ensures RewriteGo(p) == p
    ensures RewriteGo(p + QUERY_MARKER + d) == if p == "/" then QUERY_MARKER + d else p + QUERY_MARKER + d
  {
    hide RewriteGo, IsClean, Segments, Render;
    GoKeepsClean(p);
    MarkerProper();
    ExtendSegments(p, ["__qs", d]);
    MarkerRendered(d);
    GoKeepsClean(Extend(p, ["__qs", d]));
    Assoc(p, QUERY_MARKER, d);
  }

  lemma MarkerProper()
    ensures Proper("__qs")
  {
  }

  /** Stripping the query marker from a locator path gives the locator path of the same request without
      its query; only the root of a go hub loses its slash. */
  lemma StripRecovers(hubType: string, p: string, query: string, digest: string -> string)
    requires HookPath(hubType, p) && IsDigest(digest)
    ensures StripQueryMarker(BuildPath(hubType, p, query, digest)) == BuildPath(hubType, p, "", digest)
            <==> !(hubType == "go" && p == "/" && query != "")
  {
    var d := digest(query);
    hide IsClean, RewriteNpm, RewriteCore, RewriteGo, Proper, StripQueryMarker, Segments, RequestPath, HookPath, Bare, MarkerFree;
    BareOf(hubType, p);
    NoMarkerElement(Bare(p));
    SlashMarkerFree(Bare(p));
    CutAtMarker(p, d);
    if hubType == "npm" {
      NpmHead(p);
      NoMarkerElement(RewriteCore(p));
      NpmMarked(p, d);
      CutAtMarker(RewriteCore(p), d);
    } else if hubType == "go" {
      GoMarked(p, d);
      RootStripped(d);
    }
  }

  lemma RootStripped(d: string)
    ensures StripQueryMarker(QUERY_MARKER + d) == ""
  {
    assert QUERY_MARKER <= (QUERY_MARKER + d)[0..];
    IndexAt(QUERY_MARKER + d, QUERY_MARKER, 0);
  }

  // ---- Which locators share a file -------------------------------------------------

  lemma NpmClashSameLocator(p: string, q: string)
    requires RequestPath(p) && RequestPath(q) && NpmClash(p, q)
    ensures RewriteCore(p) == RewriteCore(q) && p != "/"
  {
    NpmClashIsTarball(p, q);
    NoTrailingSlash(p);
  }

  lemma NpmLocators(p1: string, q1: string, p2: string, q2: string, digest: string -> string)
    requires RequestPath(p1) && RequestPath(p2) && IsDigest(digest) && q1 == q2 && NpmClash(p1, p2)
    ensures BuildPath("npm", p1, q1, digest) == BuildPath("npm", p2, q2, digest)
  {
    hide IsClean, RewriteNpm, RewriteCore, Proper, Segments, RequestPath;
    NpmClashSameLocator(p1, p2);
    NpmHead(p1);
    NpmHead(p2);
    NpmMarked(p1, digest(q1));
    NpmMarked(p2, digest(q2));
  }

  /** Two locators that the handler builds in one hub share a file exactly when they are one locator, differ by
      a final slash of the path, or are `/` and `/root` without a query outside npm. */
  lemma LocatorsShareFile(hubType: string, p1: string, q1: string, p2: string, q2: string, digest: string -> string)
    requires HookPath(hubType, p1) && HookPath(hubType, p2) && IsDigest(digest)
    ensures FileSegs(BuildPath(hubType, p1, q1, digest)) == FileSegs(BuildPath(hubType, p2, q2, digest))
            <==> BuildPath(hubType, p1, q1, digest) == BuildPath(hubType, p2, q2, digest) ||
                 (hubType != "npm" && q1 == q2 &&
                  (Bare(p1) == Bare(p2) || (q1 == "" && {Bare(p1), Bare(p2)} == {"/", "/root"})))
  {
    hide FileSegs, BuildPath, NpmClash, RequestPath, HookPath, Bare;
    if (p1, q1) != (p2, q2) {
      RequestsShareFile(hubType, p1, q1, p2, q2, digest);
      BareOf(hubType, p1);
      BareOf(hubType, p2);
      if hubType == "npm" && q1 == q2 {
        if NpmClash(p1, p2) {
          NpmLocators(p1, q1, p2, q2, digest);
        } else if NpmClash(p2, p1) {
          NpmLocators(p2, q2, p1, q1, digest);
        }
      }
    }
  }
}
