/** Docker registry paths: splitting a repository path, the `library/` rewrite for
    Docker Hub, the registry.k8s.io manifest fallback and the cache policy. */
module Docker {
  import opened Text
  import opened GoPath
  import Urls

  datatype RepoSplit = NoRepo | Repo(name: string, rest: string)

  datatype Policy = Policy(allowCache: bool, allowStore: bool, requireRevalidate: bool)

  datatype Fallback = NoFallback | FallbackTo(path: string)

  predicate IsKeyword(seg: string) {
    seg in {"manifests", "blobs", "tags", "referrers"}
  }

  /** A segment at which the scan for the repository name stops. */
  predicate IsSpecial(seg: string) {
    seg == "" || IsKeyword(seg) || seg == "_catalog"
  }

  function FirstSpecial(segs: Segs): (i: nat)
    ensures i <= |segs|
    ensures forall j :: 0 <= j < i ==> !IsSpecial(segs[j])
    ensures i < |segs| ==> IsSpecial(segs[i])
  {
    if segs == [] || IsSpecial(segs[0]) then 0 else 1 + FirstSpecial(segs[1..])
  }

  lemma {:induction false} FirstSpecialAt(segs: Segs, i: nat)
    requires i <= |segs|
    requires forall j :: 0 <= j < i ==> !IsSpecial(segs[j])
    requires i < |segs| ==> IsSpecial(segs[i])
    ensures FirstSpecial(segs) == i
  {
    if i > 0 {
      FirstSpecialAt(segs[1..], i - 1);
    }
  }

  /** Splitting succeeds exactly when the first special segment is a keyword that is
      not the first segment. */
  function SplitRepo(path: string): RepoSplit {
    if !HasPrefix(path, "/v2/") then NoRepo
    else
      var segs := Split(path[4..], '/');
      var i := FirstSpecial(segs);
      if 0 < i < |segs| && IsKeyword(segs[i]) then Repo(Join(segs[..i], '/'), "/" + Join(segs[i..], '/'))
      else NoRepo
  }

  /** `splitDockerRepoPath`: the loop over the segments. */
  method SplitDockerRepoPath(path: string) returns (r: RepoSplit)
    ensures r == SplitRepo(path)
  {
    if !HasPrefix(path, "/v2/") {
      return NoRepo;
    }
    var suffix := TrimPrefix(path, "/v2/");
    if suffix == "" || suffix == "/" {
      ShortSuffixes();
      return NoRepo;
    }
    var segments := Split(suffix, '/');
    var repoSegments: seq<string> := [];
    for i := 0 to |segments|
      invariant repoSegments == segments[..i]
      invariant forall j :: 0 <= j < i ==> !IsSpecial(segments[j])
    {
      var seg := segments[i];
      if seg == "" {
        FirstSpecialAt(segments, i);
        return NoRepo;
      }
      if seg == "manifests" || seg == "blobs" || seg == "tags" || seg == "referrers" {
        FirstSpecialAt(segments, i);
        if |repoSegments| == 0 {
          return NoRepo;
        }
        var rest := "/" + Join(segments[i..], '/');
        return Repo(Join(repoSegments, '/'), rest);
      } else if seg == "_catalog" {
        FirstSpecialAt(segments, i);
        return NoRepo;
      }
      repoSegments := repoSegments + [seg];
    }
    FirstSpecialAt(segments, |segments|);
    return NoRepo;
  }

  lemma ShortSuffixes()
    ensures FirstSpecial(Split("", '/')) == 0 && FirstSpecial(Split("/", '/')) == 0
  {
    assert Split("/", '/') == Glue('/', '/', Split("", '/')) by { assert "/"[1..] == ""; }
  }

  /** The two parts put back together are the input path. */
  lemma SplitRepoExact(path: string)
    requires SplitRepo(path).Repo?
    ensures "/v2/" + SplitRepo(path).name + SplitRepo(path).rest == path
  {
    var segs := Split(path[4..], '/');
    var i := FirstSpecial(segs);
    JoinSplit(path[4..], '/');
    assert segs == segs[..i] + segs[i..];
    JoinConcat(segs[..i], segs[i..], '/');
    Assoc(Join(segs[..i], '/'), "/", Join(segs[i..], '/'));
    Assoc("/v2/", Join(segs[..i], '/'), "/" + Join(segs[i..], '/'));
    assert path == "/v2/" + path[4..];
  }

  /** The path of a repository given by its segments. */
  function RepoPath(repo: Segs, tail: Segs): string {
    "/v2/" + Join(repo + tail, '/')
  }

  /** Any clean list of plain repository segments followed by a keyword splits there. */
  lemma SplitRepoOf(repo: Segs, tail: Segs)
    requires |repo| >= 1 && |tail| >= 1 && IsKeyword(tail[0])
    requires forall i :: 0 <= i < |repo| ==> !IsSpecial(repo[i]) && '/' !in repo[i]
    requires forall i :: 0 <= i < |tail| ==> '/' !in tail[i]
    ensures SplitRepo(RepoPath(repo, tail)) == Repo(Join(repo, '/'), "/" + Join(tail, '/'))
  {
    var path := RepoPath(repo, tail);
    assert path[4..] == Join(repo + tail, '/');
    SplitJoin(repo + tail, '/');
    FirstSpecialAt(repo + tail, |repo|);
    assert (repo + tail)[..|repo|] == repo && (repo + tail)[|repo|..] == tail;
  }

  /** What a successful split says about the segments of the path. */
  lemma SplitRepoParts(path: string) returns (repo: Segs, tail: Segs)
    requires SplitRepo(path).Repo?
    ensures |repo| >= 1 && |tail| >= 1 && IsKeyword(tail[0])
    ensures forall i :: 0 <= i < |repo| ==> !IsSpecial(repo[i]) && '/' !in repo[i]
    ensures forall i :: 0 <= i < |tail| ==> '/' !in tail[i]
    ensures path == RepoPath(repo, tail)
    ensures SplitRepo(path) == Repo(Join(repo, '/'), "/" + Join(tail, '/'))
    ensures '/' !in SplitRepo(path).name ==> repo == [SplitRepo(path).name]
  {
    var segs := Split(path[4..], '/');
    var i := FirstSpecial(segs);
    repo, tail := segs[..i], segs[i..];
    JoinSplit(path[4..], '/');
    assert segs == repo + tail;
    assert path == "/v2/" + path[4..];
    if |repo| > 1 {
      assert Join(repo, '/')[|repo[0]|] == '/';
    }
  }

  // ---- Hosts ------------------------------------------------------------------

  predicate IsDockerHubHost(host: string) {
    ToLower(Urls.HostOf(host)) in {"registry-1.docker.io", "docker.io", "index.docker.io"}
  }

  predicate IsRegistryK8sHost(host: string) {
    EqualFold(Urls.HostOf(host), "registry.k8s.io")
  }

  /** Both hosts are known in any case and with any port. */
  lemma KnownHosts(host: string, port: string)
    requires host != "" && Urls.NoPortMark(host) && Urls.NoPortMark(port)
    ensures IsDockerHubHost(host) == IsDockerHubHost(host + ":" + port) ==
            (ToLower(host) in {"registry-1.docker.io", "docker.io", "index.docker.io"})
    ensures IsRegistryK8sHost(host) == IsRegistryK8sHost(host + ":" + port) == (ToLower(host) == "registry.k8s.io")
  {
    hide ToLower, Urls.HostOf;
    Urls.PortSplitOff(host, port);
    LowerFixed("registry.k8s.io");
  }

  // ---- Path hooks -------------------------------------------------------------

  function NormalizePath(host: string, clean: string): string {
    if !IsDockerHubHost(host) then clean
    else
      match SplitRepo(clean)
      case NoRepo => clean
      case Repo(repo, rest) =>
        if repo == "" || '/' in repo || repo == "library" then clean
        else "/v2/library/" + repo + rest
  }

  function ManifestFallback(host: string, clean: string): Fallback {
    if !IsRegistryK8sHost(host) then NoFallback
    else
      match SplitRepo(clean)
      case NoRepo => NoFallback
      case Repo(repo, rest) =>
        if '/' in repo || !HasPrefix(rest, "/manifests/") then NoFallback
        else FallbackTo("/v2/" + repo + "/" + repo + rest)
  }

  predicate IsImmutable(path: string) {
    Contains(path, "/blobs/sha256:") || Contains(path, "/manifests/sha256:")
  }

  function CachePolicy(path: string): Policy {
    if path == "/v2" || path == "v2" || path == "/v2/" then Policy(false, false, false)
    else if Contains(path, "/_catalog") then Policy(false, false, false)
    else if IsImmutable(path) then Policy(true, true, false)
    else Policy(true, true, true)
  }

  lemma OneSegmentPath(repo: string, tail: Segs)
    requires |tail| >= 1
    ensures RepoPath([repo], tail) == "/v2/" + repo + ("/" + Join(tail, '/'))
  {
    JoinConcat([repo], tail, '/');
    Assoc("/v2/", repo, "/" + Join(tail, '/'));
    Assoc(repo, "/", Join(tail, '/'));
  }

  lemma TwoSegmentPath(first: string, repo: string, tail: Segs)
    requires |tail| >= 1
    ensures RepoPath([first, repo], tail) == "/v2/" + first + "/" + repo + ("/" + Join(tail, '/'))
    ensures Join([first, repo], '/') == first + "/" + repo
  {
    JoinConcat([first, repo], tail, '/');
    assert [first, repo][1..] == [repo];
    var name, rest := first + "/" + repo, "/" + Join(tail, '/');
    Assoc(name, "/", Join(tail, '/'));
    Assoc("/v2/", name, rest);
    Assoc("/v2/" + first, "/", repo);
    Assoc("/v2/", first, "/" + repo);
    Assoc(first, "/", repo);
  }

  /** A repository of one segment, seen through its path. */
  lemma SingleRepo(path: string) returns (repo: string, tail: Segs)
    requires SplitRepo(path).Repo? && '/' !in SplitRepo(path).name
    ensures SplitRepo(path) == Repo(repo, "/" + Join(tail, '/'))
    ensures !IsSpecial(repo) && '/' !in repo
    ensures |tail| >= 1 && IsKeyword(tail[0]) && forall i :: 0 <= i < |tail| ==> '/' !in tail[i]
    ensures path == RepoPath([repo], tail)
  {
    var repoSegs, rest := SplitRepoParts(path);
    repo, tail := SplitRepo(path).name, rest;
  }

  /** A path with one more segment before a one-segment repository. */
  lemma PrefixedRepo(first: string, repo: string, tail: Segs)
    requires !IsSpecial(repo) && '/' !in repo && !IsSpecial(first) && '/' !in first
    requires |tail| >= 1 && IsKeyword(tail[0]) && forall i :: 0 <= i < |tail| ==> '/' !in tail[i]
    ensures SplitRepo("/v2/" + first + "/" + repo + ("/" + Join(tail, '/')))
         == Repo(first + "/" + repo, "/" + Join(tail, '/'))
  {
    SplitRepoOf([first, repo], tail);
    TwoSegmentPath(first, repo, tail);
  }

  lemma NormalizeIdempotent(host: string, path: string)
    ensures NormalizePath(host, NormalizePath(host, path)) == NormalizePath(host, path)
  {
    if NormalizePath(host, path) != path {
      var repo, tail := SingleRepo(path);
      LibraryStays(host, repo, tail);
    }
  }

  lemma LibraryStays(host: string, repo: string, tail: Segs)
    requires !IsSpecial(repo) && '/' !in repo
    requires |tail| >= 1 && IsKeyword(tail[0]) && forall i :: 0 <= i < |tail| ==> '/' !in tail[i]
    ensures var path := "/v2/library/" + repo + ("/" + Join(tail, '/'));
            NormalizePath(host, path) == path
  {
    hide SplitRepo, IsDockerHubHost;
    PrefixedRepo("library", repo, tail);
    assert "/v2/" + "library" + "/" == "/v2/library/";
    SlashInside("library", repo);
  }

  lemma SlashInside(a: string, b: string)
    ensures '/' in a + "/" + b
  {
    assert (a + "/" + b)[|a|] == '/';
  }

  /** Following a fallback leads nowhere further, and the fallback splits into the doubled repository. */
  lemma NoSecondFallback(host: string, path: string)
    requires ManifestFallback(host, path).FallbackTo?
    ensures ManifestFallback(host, ManifestFallback(host, path).path) == NoFallback
    ensures var r := SplitRepo(path);
            SplitRepo(ManifestFallback(host, path).path) == Repo(r.name + "/" + r.name, r.rest)
  {
    var repo, tail := SingleRepo(path);
    PrefixedRepo(repo, repo, tail);
    SlashInside(repo, repo);
  }

  lemma NoFallbackToItself(host: string, path: string)
    ensures ManifestFallback(host, path) != FallbackTo(path)
  {
    hide ManifestFallback, SplitRepo;
    if ManifestFallback(host, path) == FallbackTo(path) {
      NoSecondFallback(host, path);
    }
  }

  /** Different paths have different fallbacks. */
  lemma FallbackInjective(host: string, p: string, q: string)
    requires ManifestFallback(host, p).FallbackTo? && ManifestFallback(host, p) == ManifestFallback(host, q)
    ensures p == q
  {
    NoSecondFallback(host, p);
    NoSecondFallback(host, q);
    DoubledInjective(SplitRepo(p).name, SplitRepo(q).name);
    SplitRepoExact(p);
    SplitRepoExact(q);
  }

  lemma DoubledInjective(a: string, b: string)
    requires a + "/" + a == b + "/" + b
    ensures a == b
  {
    assert |a + "/" + a| == |b + "/" + b|;
    assert (a + "/" + a)[..|a|] == a && (b + "/" + b)[..|b|] == b;
  }

  // ---- The fallback keeps the cache policy ----------------------------------

  predicate SegmentStarts(segs: Segs, n: string) {
    exists k :: 0 < k < |segs| && n <= segs[k]
  }

  predicate PairStarts(segs: Segs, a: string, n: string) {
    exists k :: 0 < k < |segs| - 1 && segs[k] == a && n <= segs[k + 1]
  }

  lemma ContainsSegmentStart(p: string, n: string)
    requires '/' !in n
    ensures Contains(p, "/" + n) <==> SegmentStarts(Split(p, '/'), n)
  {
    if Contains(p, "/" + n) {
      StartIsSegment(p, n);
    }
    if k :| 0 < k < |Split(p, '/')| && n <= Split(p, '/')[k] {
      SegmentStartOccurs(p, k, n);
    }
  }

  lemma StartIsSegment(p: string, n: string)
    requires '/' !in n && Contains(p, "/" + n)
    ensures SegmentStarts(Split(p, '/'), n)
  {
    var i := Index(p, "/" + n);
    hide Split;
    SplitAround(p, "/" + n, i);
    var a, b := p[..i], p[i + |"/" + n|..];
    Assoc(a, "/" + n, b);
    Assoc("/", n, b);
    Assoc(a, "/", n + b);
    SplitConcat(a, '/', n + b);
    SplitHead(n, b, '/');
    assert n <= Split(p, '/')[|Split(a, '/')|];
  }

  lemma SegmentStartOccurs(p: string, k: nat, n: string)
    requires 0 < k < |Split(p, '/')| && n <= Split(p, '/')[k]
    ensures Contains(p, "/" + n)
  {
    var segs := Split(p, '/');
    JoinSplit(p, '/');
    assert segs == segs[..k] + segs[k..];
    JoinConcat(segs[..k], segs[k..], '/');
    JoinStarts(segs[k..], n);
    StartedBehind(Join(segs[..k], '/') + "/", Join(segs[k..], '/'), n);
    Assoc(Join(segs[..k], '/'), "/", n);
    ContainsMiddle(Join(segs[..k], '/'), "/" + n, Join(segs[k..], '/')[|n|..]);
  }

  lemma ContainsPairStart(p: string, a: string, n: string)
    requires '/' !in n && '/' !in a
    ensures Contains(p, "/" + a + "/" + n) <==> PairStarts(Split(p, '/'), a, n)
  {
    if Contains(p, "/" + a + "/" + n) {
      PairIsSegments(p, a, n);
    }
    if k :| 0 < k < |Split(p, '/')| - 1 && Split(p, '/')[k] == a && n <= Split(p, '/')[k + 1] {
      PairOccurs(p, k, n);
    }
  }

  lemma PairIsSegments(p: string, a: string, n: string)
    requires '/' !in n && '/' !in a && Contains(p, "/" + a + "/" + n)
    ensures PairStarts(Split(p, '/'), a, n)
  {
    var sub := "/" + a + "/" + n;
    var i := Index(p, sub);
    SplitAround(p, sub, i);
    var x, b := p[..i], p[i + |sub|..];
    assert p == x + "/" + a + "/" + (n + b);
    SegmentBetween(x, a, n + b);
    SplitHead(n, b, '/');
    var k := |Split(x, '/')|;
    assert Split(p, '/')[k] == a && n <= Split(p, '/')[k + 1];
  }

  lemma PairOccurs(p: string, k: nat, n: string)
    requires 0 < k < |Split(p, '/')| - 1 && n <= Split(p, '/')[k + 1]
    ensures Contains(p, "/" + Split(p, '/')[k] + "/" + n)
  {
    var segs := Split(p, '/');
    SegmentAt(p, k);
    var x, rest := Join(segs[..k], '/'), Join(segs[k + 1..], '/');
    JoinStarts(segs[k + 1..], n);
    StartedBehind(x + "/" + segs[k] + "/", rest, n);
    Assoc(x + "/" + segs[k], "/", n);
    Assoc(x + "/", segs[k], "/" + n);
    Assoc(x, "/", segs[k] + ("/" + n));
    Assoc("/", segs[k], "/" + n);
    Assoc("/" + segs[k], "/", n);
    ContainsMiddle(x, "/" + segs[k] + "/" + n, rest[|n|..]);
  }

  lemma JoinStarts(segs: Segs, n: string)
    requires |segs| >= 1 && n <= segs[0]
    ensures n <= Join(segs, '/')
  {
  }

  lemma StartedBehind(front: string, rest: string, n: string)
    requires n <= rest
    ensures front + rest == front + n + rest[|n|..]
  {
    assert rest == n + rest[|n|..];
    Assoc(front, n, rest[|n|..]);
  }

  /** Repeating one segment adds no segment start and no pair that begins with another segment. */
  lemma RepeatedSegment(head: Segs, repo: string, tail: Segs, n: string)
    requires |head| >= 1
    ensures SegmentStarts(head + [repo] + tail, n) <==> SegmentStarts(head + [repo, repo] + tail, n)
  {
    var x, y := head + [repo] + tail, head + [repo, repo] + tail;
    if k :| 0 < k < |x| && n <= x[k] {
      assert n <= y[if k <= |head| then k else k + 1];
    }
    if k :| 0 < k < |y| && n <= y[k] {
      assert n <= x[if k <= |head| then k else k - 1];
    }
  }

  lemma RepeatedPair(head: Segs, repo: string, tail: Segs, a: string, n: string)
    requires |head| >= 1 && repo != a
    ensures PairStarts(head + [repo] + tail, a, n) <==> PairStarts(head + [repo, repo] + tail, a, n)
  {
    var x, y := head + [repo] + tail, head + [repo, repo] + tail;
    if k :| 0 < k < |x| - 1 && x[k] == a && n <= x[k + 1] {
      var m := if k < |head| then k else k + 1;
      assert y[m] == a && n <= y[m + 1];
    }
    if k :| 0 < k < |y| - 1 && y[k] == a && n <= y[k + 1] {
      var m := if k < |head| then k else k - 1;
      assert x[m] == a && n <= x[m + 1];
    }
  }

  lemma RegistrySegments(repo: Segs, tail: Segs)
    requires |repo| >= 1 && |tail| >= 1
    requires forall i :: 0 <= i < |repo| ==> '/' !in repo[i]
    requires forall i :: 0 <= i < |tail| ==> '/' !in tail[i]
    ensures Split(RepoPath(repo, tail), '/') == ["", "v2"] + repo + tail
  {
    JoinConcat(["", "v2"], repo + tail, '/');
    assert ["", "v2"][1..] == ["v2"] && Join(["", "v2"], '/') == "/v2";
    assert "/v2" + "/" == "/v2/";
    SplitJoin(["", "v2"] + (repo + tail), '/');
  }

  /** The segments of a path and of its fallback. */
  lemma FallbackSegments(host: string, path: string) returns (repo: string, tail: Segs)
    requires ManifestFallback(host, path).FallbackTo?
    ensures !IsSpecial(repo)
    ensures Split(path, '/') == ["", "v2"] + [repo] + tail
    ensures Split(ManifestFallback(host, path).path, '/') == ["", "v2"] + [repo, repo] + tail
    ensures |path| > 4
  {
    repo, tail := SingleRepo(path);
    TwoSegmentPath(repo, repo, tail);
    SplitBoth(repo, tail);
  }

  lemma SplitBoth(repo: string, tail: Segs)
    requires '/' !in repo && |tail| >= 1 && forall i :: 0 <= i < |tail| ==> '/' !in tail[i]
    ensures Split(RepoPath([repo], tail), '/') == ["", "v2"] + [repo] + tail
    ensures Split(RepoPath([repo, repo], tail), '/') == ["", "v2"] + [repo, repo] + tail
    ensures |RepoPath([repo], tail)| > 4
  {
    OneSegmentPath(repo, tail);
    RegistrySegments([repo], tail);
    RegistrySegments([repo, repo], tail);
  }

  /** A manifest served through the fallback is cached under the same policy as the original path. */
  lemma FallbackKeepsPolicy(host: string, path: string)
    requires ManifestFallback(host, path).FallbackTo?
    ensures CachePolicy(ManifestFallback(host, path).path) == CachePolicy(path)
  {
    var repo, tail := FallbackSegments(host, path);
    SamePolicySegments(path, ManifestFallback(host, path).path, repo, tail);
    SamePolicy(path, ManifestFallback(host, path).path);
  }

  lemma SamePolicy(p: string, q: string)
    requires |p| > 4 && |q| > 4
    requires Contains(p, "/_catalog") == Contains(q, "/_catalog") && IsImmutable(p) == IsImmutable(q)
    ensures CachePolicy(p) == CachePolicy(q)
  {
  }

  lemma SamePolicySegments(path: string, fallback: string, repo: string, tail: Segs)
    requires Split(path, '/') == ["", "v2"] + [repo] + tail
    requires Split(fallback, '/') == ["", "v2"] + [repo, repo] + tail
    requires repo != "blobs" && repo != "manifests"
    ensures Contains(path, "/_catalog") == Contains(fallback, "/_catalog")
    ensures IsImmutable(path) == IsImmutable(fallback)
  {
    hide Split, Contains, SegmentStarts, PairStarts;
    PolicyTexts();
    ContainsSegmentStart(path, "_catalog");
    ContainsSegmentStart(fallback, "_catalog");
    RepeatedSegment(["", "v2"], repo, tail, "_catalog");
    SamePairs(path, fallback, repo, tail, "blobs");
    SamePairs(path, fallback, repo, tail, "manifests");
  }

  lemma SamePairs(path: string, fallback: string, repo: string, tail: Segs, a: string)
    requires Split(path, '/') == ["", "v2"] + [repo] + tail
    requires Split(fallback, '/') == ["", "v2"] + [repo, repo] + tail
    requires repo != a && '/' !in a
    ensures Contains(path, "/" + a + "/" + "sha256:") == Contains(fallback, "/" + a + "/" + "sha256:")
  {
    ContainsPairStart(path, a, "sha256:");
    ContainsPairStart(fallback, a, "sha256:");
    RepeatedPair(["", "v2"], repo, tail, a, "sha256:");
  }

  // ---- What the hooks make of a path, by its segments -------------------------

  /** The words that end a repository name in a registry path. */
  const KEYWORDS: set<string> := {"manifests", "blobs", "tags", "referrers"}

  /** The path names a repository: segments up to the first keyword, none of them empty or `_catalog`. */
  ghost predicate IsRepoPath(path: string, repo: Segs, tail: Segs) {
    |repo| >= 1 && |tail| >= 1 && tail[0] in KEYWORDS && path == "/v2/" + Join(repo + tail, '/') &&
    (forall i :: 0 <= i < |repo| ==> repo[i] !in KEYWORDS && repo[i] !in {"", "_catalog"} && '/' !in repo[i]) &&
    forall i :: 0 <= i < |tail| ==> '/' !in tail[i]
  }

  /** The path of a repository with one segment. */
  ghost predicate IsSinglePath(path: string, repo: string, tail: Segs) {
    IsRepoPath(path, [repo], tail)
  }

  lemma SingleSplit(path: string, repo: string, tail: Segs)
    requires IsSinglePath(path, repo, tail)
    ensures SplitRepo(path) == Repo(repo, "/" + Join(tail, '/'))
    ensures '/' !in repo && repo != ""
  {
    SplitRepoOf([repo], tail);
    assert [repo][0] == repo;
  }

  lemma SingleFound(path: string) returns (repo: string, tail: Segs)
    requires SplitRepo(path).Repo? && '/' !in SplitRepo(path).name
    ensures IsSinglePath(path, repo, tail)
  {
    repo, tail := SingleRepo(path);
  }

  /** On Docker Hub, and nowhere else, a repository of one segment other than `library` moves below `library`;
      every other path stays. */
  lemma NormalizeExactly(host: string, path: string)
    ensures NormalizePath(host, path) != path <==>
            IsDockerHubHost(host) && exists repo, tail :: IsSinglePath(path, repo, tail) && repo != "library"
    ensures forall repo, tail :: IsDockerHubHost(host) && IsSinglePath(path, repo, tail) && repo != "library" ==>
              NormalizePath(host, path) == RepoPath(["library", repo], tail)
  {
    forall repo, tail | IsDockerHubHost(host) && IsSinglePath(path, repo, tail) && repo != "library"
      ensures NormalizePath(host, path) == RepoPath(["library", repo], tail) && NormalizePath(host, path) != path
    {
      SingleMoved(host, path, repo, tail);
    }
    if NormalizePath(host, path) != path {
      var repo, tail := SingleFound(path);
      SingleSplit(path, repo, tail);
    }
  }

  lemma SingleMoved(host: string, path: string, repo: string, tail: Segs)
    requires IsDockerHubHost(host) && IsSinglePath(path, repo, tail) && repo != "library"
    ensures NormalizePath(host, path) == RepoPath(["library", repo], tail) && NormalizePath(host, path) != path
  {
    hide SplitRepo, RepoPath, IsDockerHubHost;
    SingleSplit(path, repo, tail);
    TwoSegmentPath("library", repo, tail);
    OneSegmentPath(repo, tail);
    assert "/v2/" + "library" + "/" == "/v2/library/";
    assert |NormalizePath(host, path)| > |path|;
  }

  /** On registry.k8s.io, and nowhere else, a manifest of a repository of one segment has a fallback, the same
      manifest of the doubled repository; no other path has one. */
  lemma FallbackExactly(host: string, path: string)
    ensures ManifestFallback(host, path).FallbackTo? <==>
            IsRegistryK8sHost(host) && exists repo, tail :: IsSinglePath(path, repo, tail) && |tail| >= 2 && tail[0] == "manifests"
    ensures forall repo, tail :: IsRegistryK8sHost(host) && IsSinglePath(path, repo, tail) && |tail| >= 2 && tail[0] == "manifests" ==>
              ManifestFallback(host, path) == FallbackTo(RepoPath([repo, repo], tail))
  {
    hide IsSinglePath, ManifestFallback, RepoPath;
    forall repo, tail | IsRegistryK8sHost(host) && IsSinglePath(path, repo, tail) && |tail| >= 2 && tail[0] == "manifests"
      ensures ManifestFallback(host, path) == FallbackTo(RepoPath([repo, repo], tail))
    {
      SingleDoubled(host, path, repo, tail);
    }
    if ManifestFallback(host, path).FallbackTo? {
      var repo, tail := FallbackFound(host, path);
    }
  }

  lemma FallbackFound(host: string, path: string) returns (repo: string, tail: Segs)
    requires ManifestFallback(host, path).FallbackTo?
    ensures IsRegistryK8sHost(host) && IsSinglePath(path, repo, tail) && |tail| >= 2 && tail[0] == "manifests"
  {
    hide SplitRepo, Join, HasPrefix, IsRegistryK8sHost;
    repo, tail := SingleFound(path);
    SingleSplit(path, repo, tail);
    ManifestTail(tail);
  }

  lemma SingleDoubled(host: string, path: string, repo: string, tail: Segs)
    requires IsRegistryK8sHost(host) && IsSinglePath(path, repo, tail) && |tail| >= 2 && tail[0] == "manifests"
    ensures ManifestFallback(host, path) == FallbackTo(RepoPath([repo, repo], tail))
  {
    hide SplitRepo, RepoPath, IsRegistryK8sHost;
    SingleSplit(path, repo, tail);
    TwoSegmentPath(repo, repo, tail);
    ManifestTail(tail);
  }

  lemma ManifestTail(tail: Segs)
    requires |tail| >= 1 && IsKeyword(tail[0])
    ensures HasPrefix("/" + Join(tail, '/'), "/manifests/") <==> |tail| >= 2 && tail[0] == "manifests"
  {
    hide IsKeyword, HasPrefix;
    var more := if |tail| == 1 then "" else "/" + Join(tail[1..], '/');
    JoinHead(tail);
    hide Join;
    if tail[0] == "manifests" {
      ManifestPrefix(more);
    } else {
      KeywordStart(tail[0], more);
    }
  }

  lemma JoinHead(tail: Segs)
    requires |tail| >= 1
    ensures Join(tail, '/') == tail[0] + (if |tail| == 1 then "" else "/" + Join(tail[1..], '/'))
  {
    if |tail| > 1 {
      JoinConcat(tail[..1], tail[1..], '/');
      assert tail[..1] + tail[1..] == tail && tail[..1] == [tail[0]];
      Assoc(tail[0], "/", Join(tail[1..], '/'));
    }
  }

  lemma ManifestPrefix(more: string)
    requires more == "" || more[0] == '/'
    ensures HasPrefix("/" + ("manifests" + more), "/manifests/") <==> more != ""
  {
    var rest := "/" + ("manifests" + more);
    assert |rest| == 10 + |more| && |"/manifests/"| == 11;
    if more != "" {
      assert more == "/" + more[1..];
      assert rest[..11] == "/manifests/";
    }
  }

  lemma KeywordStart(word: string, more: string)
    requires IsKeyword(word) && word != "manifests"
    ensures !HasPrefix("/" + (word + more), "/manifests/")
  {
    assert word[0] != 'm';
    assert ("/" + (word + more))[1] == word[0] && "/manifests/"[1] == 'm';
  }

  /** Caching is refused exactly for the registry's root and below a segment that starts with `_catalog`;
      else revalidation is waived exactly for blobs and manifests named by their digest. */
  lemma PolicyExactly(path: string)
    ensures var segs := Split(path, '/');
            CachePolicy(path) ==
            if path in {"/v2", "v2", "/v2/"} || SegmentStarts(segs, "_catalog") then Policy(false, false, false)
            else Policy(true, true, !(PairStarts(segs, "blobs", "sha256:") || PairStarts(segs, "manifests", "sha256:")))
  {
    hide Split, Contains, SegmentStarts, PairStarts;
    ContainsSegmentStart(path, "_catalog");
    ContainsPairStart(path, "blobs", "sha256:");
    ContainsPairStart(path, "manifests", "sha256:");
    PolicyTexts();
  }

  lemma PolicyTexts()
    ensures "/" + "_catalog" == "/_catalog"
    ensures "/" + "blobs" + "/" + "sha256:" == "/blobs/sha256:" && "/" + "manifests" + "/" + "sha256:" == "/manifests/sha256:"
  {
  }

  /** So a tag is revalidated and a digest is not, whatever the repository. */
  lemma ReferencePolicy(repo: Segs, kind: string, reference: string)
    requires IsRepoPath(RepoPath(repo, [kind, reference]), repo, [kind, reference]) && kind in {"manifests", "blobs"}
    requires forall i :: 0 <= i < |repo| ==> !("_catalog" <= repo[i])
    ensures CachePolicy(RepoPath(repo, [kind, reference])) ==
            if "_catalog" <= reference then Policy(false, false, false) else Policy(true, true, !("sha256:" <= reference))
  {
    hide CachePolicy, Split, RepoPath, SegmentStarts, PairStarts;
    var path, tail := RepoPath(repo, [kind, reference]), [kind, reference];
    assert tail[0] == kind && tail[1] == reference;
    RegistrySegments(repo, tail);
    PolicyExactly(path);
    RootIsShort(repo, tail);
    CatalogAtEnd(repo, kind, reference);
    DigestAtEnd(repo, kind, reference, "manifests");
    DigestAtEnd(repo, kind, reference, "blobs");
  }

  lemma RootIsShort(repo: Segs, tail: Segs)
    requires |repo| >= 1 && |tail| >= 1 && repo[0] != ""
    ensures RepoPath(repo, tail) !in {"/v2", "v2", "/v2/"}
  {
    assert (repo + tail)[0] == repo[0];
    assert |Join(repo + tail, '/')| > 0;
    assert |RepoPath(repo, tail)| > |"/v2/"|;
  }

  lemma CatalogAtEnd(repo: Segs, kind: string, reference: string)
    requires kind in {"manifests", "blobs"} && forall i :: 0 <= i < |repo| ==> !("_catalog" <= repo[i])
    ensures SegmentStarts(["", "v2"] + repo + [kind, reference], "_catalog") <==> "_catalog" <= reference
  {
    var segs := ["", "v2"] + repo + [kind, reference];
    var n := |segs| - 1;
    assert segs[n] == reference && segs[n - 1] == kind && kind[0] != '_';
    assert forall k :: 0 < k < n - 1 ==> if k == 1 then segs[k] == "v2" else segs[k] == repo[k - 2];
  }

  lemma DigestAtEnd(repo: Segs, kind: string, reference: string, word: string)
    requires kind in {"manifests", "blobs"} && word in {"manifests", "blobs"}
    requires forall i :: 0 <= i < |repo| ==> repo[i] !in {"manifests", "blobs"}
    ensures PairStarts(["", "v2"] + repo + [kind, reference], word, "sha256:") <==> kind == word && "sha256:" <= reference
  {
    var segs := ["", "v2"] + repo + [kind, reference];
    var n := |segs| - 1;
    assert segs[n] == reference && segs[n - 1] == kind;
    assert forall k :: 0 < k < n - 1 ==> if k == 1 then segs[k] == "v2" else segs[k] == repo[k - 2];
  }
}
