/** Composer download links: rewriting a dist URL to the proxy, and finding the real
    upstream again from a `/dist/...` path or a `/dists/...` mirror path. */
module ComposerLinks {
  import opened Text
  import opened GoPath
  import opened Urls

  datatype Target = NoTarget | Target(url: Url)

  datatype MirrorParts = NoMirror | Mirror(pkg: string, reference: string, distType: string)

  type Registry = map<string, string>

  function EnsureLeadingSlash(p: string): (r: string)
    ensures Rooted(r)
  {
    var text := TrimSpace(p);
    if text == "" then "/" else Clean(if HasPrefix(text, "/") then text else "/" + text)
  }

  function SplitQuery(raw: string): (string, string) {
    var (path, query, found) := Cut(raw, '?');
    (path, if found then "?" + query else "")
  }

  function StripPackagist(raw: string): (string, bool) {
    if HasPrefix(raw, "https://repo.packagist.org") then (Slashed(raw[|"https://repo.packagist.org"|..]), true)
    else if HasPrefix(raw, "http://repo.packagist.org") then (Slashed(raw[|"http://repo.packagist.org"|..]), true)
    else ("", false)
  }

  function Slashed(s: string): (r: string)
    ensures Rooted(r)
  {
    if HasPrefix(s, "/") then s else "/" + s
  }

  /** What of a proxied value remains to be attached to the proxy's own address. */
  datatype Attach = Keep(value: string) | Local(value: string)

  function Localize(value: string, domain: string): Attach {
    if HasPrefix(value, "http://") || HasPrefix(value, "https://") then
      match Parse(value)
      case ParseError =>
        var (rest, found) := StripPackagist(value); if found then Local(rest) else Keep(value)
      case ParsedUrl(u) =>
        if domain != "" && EqualFold(u.host, domain) then Keep(value)
        else if !EqualFold(u.host, "repo.packagist.org") then Keep(value)
        else Local((if u.path == "" then "/" else u.path) + QueryText(u.rawQuery))
    else Local(value)
  }

  function BuildProxyUrl(raw: string, domain: string): string {
    var value := TrimSpace(raw);
    if value == "" then ""
    else
      match Localize(value, domain)
      case Keep(v) => v
      case Local(v) =>
        var (path, query) := SplitQuery(v);
        if domain == "" then EnsureLeadingSlash(path) + query
        else "https://" + domain + EnsureLeadingSlash(path) + query
  }

  predicate IsProxied(u: Url, domain: string) {
    domain != "" && EqualFold(u.host, domain) && HasPrefix(u.path, "/dist/")
  }

  /** The path below which a URL is served: `/dist/<scheme>/<host><path>`. */
  function DistPath(u: Url): (r: string)
    ensures Rooted(r)
  {
    "/dist/" + u.scheme + "/" + u.host + Slashed(u.path)
  }

  /** `rewriteComposerLegacyDistURL`. */
  function RewriteDistUrl(original: string, domain: string): string {
    var text := TrimSpace(original);
    if text == "" then original
    else
      match Parse(text)
      case ParseError => original
      case ParsedUrl(u) =>
        if IsProxied(u, domain) then original
        else if u.scheme == "" || u.host == "" then original
        else
          var proxied := DistPath(u) + QueryText(u.rawQuery);
          if domain == "" then proxied else BuildProxyUrl(proxied, domain)
  }

  function ParseDistUrl(path: string, rawQuery: string): Target {
    var clean := EnsureLeadingSlash(path);
    if !HasPrefix(clean, "/dist/") then NoTarget
    else
      var (scheme, afterScheme, slash1) := Cut(clean[6..], '/');
      var (host, rest, slash2) := Cut(afterScheme, '/');
      if !slash1 || !slash2 || scheme == "" || host == "" then NoTarget
      else Target(Url(scheme, host, "/" + rest, rawQuery, ""))
  }

  /** `parseComposerMirrorDistLocator`. */
  function ParseMirror(locator: string): MirrorParts {
    var clean := EnsureLeadingSlash(locator);
    if !HasPrefix(clean, "/dists/") then NoMirror
    else
      var (packagePart, file, slash) := CutLast(clean[7..], '/');
      if !slash || packagePart == "" || file == "" then NoMirror
      else
        var (reference, distType, dot) := CutLast(file, '.');
        if !dot || reference == "" || distType == "" then NoMirror
        else
          var pkg := ToLower(TrimSlashes(packagePart));
          if pkg == "" then NoMirror else Mirror(pkg, reference, distType)
  }

  /** `composerDistKey`; the empty text stands for an unusable key. */
  function DistKey(domain: string, pkg: string, reference: string, distType: string): string {
    var d, p, r, t := ToLower(TrimSpace(domain)), ToLower(TrimSpace(pkg)), TrimSpace(reference), ToLower(TrimSpace(distType));
    if d == "" || p == "" || r == "" || t == "" then "" else d + "|" + p + "|" + r + "|" + t
  }

  function Lookup(items: Registry, domain: string, pkg: string, reference: string, distType: string): string {
    var key := DistKey(domain, pkg, reference, distType);
    if key == "" || key !in items || TrimSpace(items[key]) == "" then "" else items[key]
  }

  function ResolveMirror(items: Registry, domain: string, locator: string): string {
    var d := TrimSpace(domain);
    if d == "" then ""
    else
      match ParseMirror(locator)
      case NoMirror => ""
      case Mirror(pkg, reference, distType) => Lookup(items, d, pkg, reference, distType)
  }

  /** `resolveDistUpstream`: the empty text means the hub's own upstream. */
  function ResolveUpstream(items: Registry, domain: string, clean: string, rawQuery: string): string {
    var mirrored := ResolveMirror(items, domain, clean);
    if mirrored != "" then mirrored
    else
      match ParseDistUrl(clean, rawQuery)
      case NoTarget => ""
      case Target(u) => Print(u)
  }

  /** The path the handler passes on for a requested path: cleaned, then normalised by the hook. */
  function ServedPath(requested: string): string {
    EnsureLeadingSlash(Clean("/" + requested))
  }

  // ---- Clean texts ------------------------------------------------------------

  lemma EnsureClean(p: string)
    requires IsClean(p) && NoEdgeSpace(p)
    ensures EnsureLeadingSlash(p) == p && ServedPath(p) == p
  {
    TrimSpaceIdentity(p);
    CleanFixed(p);
    CleanExtraSlash(p);
  }

  /** A host usable as one path segment without escaping. */
  predicate IsPlainHost(host: string) {
    host != "" && IsHost(host) && IsPathText(host) && Proper(host)
  }

  /** A dist URL that the rewriting can handle: plain and without a fragment. */
  predicate DistUrl(u: Url) {
    Plain(u) && u.fragment == "" && IsPlainHost(u.host)
  }

  lemma SchemeIsProper(scheme: string)
    requires IsScheme(scheme)
    ensures Proper(scheme)
  {
  }

  lemma DistPathText(u: Url)
    requires DistUrl(u)
    ensures IsPathText(DistPath(u))
  {
  }

  lemma PathTextEdges(s: string)
    requires IsPathText(s)
    ensures NoEdgeSpace(s) && '?' !in s
  {
  }

  lemma {:induction false} JoinChars(segs: Segs)
    requires forall i :: 0 <= i < |segs| ==> IsPathText(segs[i])
    ensures IsPathText(Join(segs, '/'))
  {
    if |segs| > 1 {
      JoinChars(segs[1..]);
    }
  }

  lemma {:induction false} SplitChars(s: string)
    requires IsPathText(s)
    ensures forall i :: 0 <= i < |Split(s, '/')| ==> IsPathText(Split(s, '/')[i])
  {
    if s == "" {
    } else {
      SplitChars(s[1..]);
    }
  }

  lemma {:induction false} ResolveChars(stack: Segs, segs: Segs)
    requires forall i :: 0 <= i < |stack| ==> IsPathText(stack[i])
    requires forall i :: 0 <= i < |segs| ==> IsPathText(segs[i])
    ensures forall i :: 0 <= i < |Resolve(stack, segs)| ==> IsPathText(Resolve(stack, segs)[i])
    decreases |segs|
  {
    if segs == [] {
    } else {
      ResolveChars(Push(stack, segs[0]), segs[1..]);
    }
  }

  lemma CleanChars(p: string)
    requires Rooted(p) && IsPathText(p)
    ensures IsPathText(Clean(p))
  {
    SplitChars(p);
    ResolveChars([], Split(p, '/'));
    JoinChars(Resolve([], Split(p, '/')));
  }

  // ---- The rewritten link -----------------------------------------------------

  /** The link's path on the proxy. */
  function LinkPath(u: Url): string {
    Clean(DistPath(u))
  }

  /** The URL that the rewritten link names. */
  function LinkUrl(u: Url, domain: string): Url {
    Url("https", domain, LinkPath(u), u.rawQuery, "")
  }

  lemma LinkPathText(u: Url)
    requires DistUrl(u)
    ensures IsClean(LinkPath(u)) && IsPathText(LinkPath(u)) && NoEdgeSpace(LinkPath(u))
  {
    DistPathText(u);
    CleanSegments(DistPath(u));
    CleanChars(DistPath(u));
    PathTextEdges(LinkPath(u));
  }

  lemma LinkShape(u: Url, domain: string)
    requires DistUrl(u) && IsPlainHost(domain) && !IsProxied(u, domain)
    ensures RewriteDistUrl(Print(u), domain) == Print(LinkUrl(u, domain))
    ensures Plain(LinkUrl(u, domain)) && Parse(Print(LinkUrl(u, domain))) == ParsedUrl(LinkUrl(u, domain))
  {
    PrintTrimmed(u);
    ParsePrint(u);
    DistPathText(u);
    ProxyAttached(DistPath(u), u.rawQuery, domain);
    LinkIsPlain(u, domain);
    ParsePrint(LinkUrl(u, domain));
  }

  lemma LinkIsPlain(u: Url, domain: string)
    requires DistUrl(u) && IsPlainHost(domain)
    ensures DistUrl(LinkUrl(u, domain))
  {
    LinkPathText(u);
    LowerFixed("https");
    assert IsScheme("https");
    assert forall c :: c in domain ==> !IsSpace(c);
  }

  /** A local path with a query is attached to the proxy's address. */
  lemma ProxyAttached(path: string, rawQuery: string, domain: string)
    requires Rooted(path) && IsPathText(path) && IsQueryText(rawQuery) && domain != ""
    ensures BuildProxyUrl(path + QueryText(rawQuery), domain) ==
            Print(Url("https", domain, Clean(path), rawQuery, ""))
  {
    LocalText(path, rawQuery);
    QueryCut(path, rawQuery);
    PathTextEdges(path);
    TrimSpaceIdentity(path);
    assert "https" + "://" == "https://";
  }

  lemma LocalText(path: string, rawQuery: string)
    requires Rooted(path) && IsPathText(path) && IsQueryText(rawQuery)
    ensures var raw := path + QueryText(rawQuery);
            raw != "" && raw[0] == '/' && TrimSpace(raw) == raw && '?' !in path
  {
    var raw := path + QueryText(rawQuery);
    assert raw[0] == '/';
    assert raw[|raw| - 1] == if rawQuery == "" then path[|path| - 1] else rawQuery[|rawQuery| - 1];
    TrimSpaceIdentity(raw);
  }

  lemma QueryCut(path: string, rawQuery: string)
    requires '?' !in path
    ensures SplitQuery(path + QueryText(rawQuery)) == (path, QueryText(rawQuery))
  {
    if rawQuery != "" {
      Assoc(path, "?", rawQuery);
      CutAt(path, '?', rawQuery);
    } else {
      assert path + "" == path;
      CutNone(path, '?');
    }
  }

  // ---- The first route: the link itself ---------------------------------------

  lemma DistSegments(u: Url)
    requires DistUrl(u) && IsClean(u.path) && u.path != "/"
    ensures IsClean(DistPath(u)) && Segments(DistPath(u)) == ["dist", u.scheme, u.host] + Segments(u.path)
  {
    SchemeIsProper(u.scheme);
    SegmentsRender(u.path);
    assert Render([]) == "/";
    var front := ["dist", u.scheme, u.host];
    assert Proper("dist");
    RenderSegments(front + Segments(u.path));
    RenderConcat(front, Segments(u.path));
    RenderThree("dist", u.scheme, u.host);
    assert "/" + "dist" + "/" == "/dist/";
  }

  /** A dist path is cut into scheme, host and the remaining path. */
  lemma DistCut(scheme: string, host: string, rest: string, rawQuery: string)
    requires '/' !in scheme && '/' !in host && scheme != "" && host != ""
    requires IsClean("/dist/" + scheme + "/" + host + "/" + rest) && NoEdgeSpace("/dist/" + scheme + "/" + host + "/" + rest)
    ensures ParseDistUrl("/dist/" + scheme + "/" + host + "/" + rest, rawQuery) == Target(Url(scheme, host, "/" + rest, rawQuery, ""))
  {
    var clean := "/dist/" + scheme + "/" + host + "/" + rest;
    EnsureClean(clean);
    Assoc("/dist/" + scheme + "/", host, "/" + rest);
    Assoc("/dist/" + scheme + "/" + host, "/", rest);
    Assoc("/dist/" + scheme, "/", host + ("/" + rest));
    Assoc("/dist/", scheme, "/" + (host + ("/" + rest)));
    assert clean == "/dist/" + (scheme + ("/" + (host + ("/" + rest))));
    assert clean[6..] == scheme + ("/" + (host + ("/" + rest)));
    CutSlash(scheme, host + ("/" + rest));
    CutSlash(host, rest);
  }

  /** Read back from its link, a dist URL is exactly itself if its path is clean and not the root. */
  lemma LinkParsesBack(u: Url)
    requires DistUrl(u) && IsClean(u.path) && u.path != "/"
    ensures ParseDistUrl(LinkPath(u), u.rawQuery) == Target(u)
    ensures LinkPath(u) == DistPath(u)
  {
    DistSegments(u);
    CleanFixed(DistPath(u));
    LinkPathText(u);
    SchemeIsProper(u.scheme);
    var rest := u.path[1..];
    assert u.path == "/" + rest;
    Assoc("/dist/" + u.scheme + "/" + u.host, "/", rest);
    DistCut(u.scheme, u.host, rest, u.rawQuery);
  }

  /** Whatever a dist path parses to has a clean path other than the root. */
  lemma ParsedPathIsClean(clean: string, rawQuery: string)
    requires ParseDistUrl(clean, rawQuery).Target?
    ensures IsClean(ParseDistUrl(clean, rawQuery).url.path) && ParseDistUrl(clean, rawQuery).url.path != "/"
  {
    var p := EnsureLeadingSlash(clean);
    EnsuredIsClean(clean);
    assert p == "/dist/" + p[6..];
    TailAfterCut(p, "dist", p[6..]);
    var (scheme, afterScheme, slash1) := Cut(p[6..], '/');
    TailAfterCut("/" + p[6..], scheme, afterScheme);
    var (host, rest, slash2) := Cut(afterScheme, '/');
    TailAfterCut("/" + afterScheme, host, rest);
  }

  lemma EnsuredIsClean(p: string)
    ensures IsClean(EnsureLeadingSlash(p))
  {
    var text := TrimSpace(p);
    if text == "" {
      RenderSegments([]);
    } else {
      CleanSegments(if HasPrefix(text, "/") then text else "/" + text);
    }
  }

  /** The first route: a rewritten link leads back to the original URL exactly when the
      original path is clean and not the root. */
  lemma LinkRoundTrip(u: Url)
    requires DistUrl(u)
    ensures ParseDistUrl(LinkPath(u), u.rawQuery) == Target(u) <==> IsClean(u.path) && u.path != "/"
  {
    if IsClean(u.path) && u.path != "/" {
      LinkParsesBack(u);
    }
    if ParseDistUrl(LinkPath(u), u.rawQuery) == Target(u) {
      ParsedPathIsClean(LinkPath(u), u.rawQuery);
    }
  }

  /** Only an absolute URL that is not on the proxy is rewritten. */
  lemma OnlyAbsoluteMoves(original: string, domain: string)
    ensures var text := TrimSpace(original);
            RewriteDistUrl(original, domain) != original ==>
              Parse(text).ParsedUrl? && Parse(text).url.scheme != "" && Parse(text).url.host != "" && !IsProxied(Parse(text).url, domain)
  {
    hide Parse, TrimSpace, DistPath, BuildProxyUrl;
  }

  /** Followed by a client, the link reaches the original URL, whatever the registry holds. */
  lemma LinkResolves(items: Registry, u: Url, domain: string)
    requires DistUrl(u) && IsClean(u.path) && u.path != "/"
    requires IsPlainHost(domain) && !IsProxied(u, domain)
    ensures Parse(RewriteDistUrl(Print(u), domain)).ParsedUrl?
    ensures var link := Parse(RewriteDistUrl(Print(u), domain)).url;
            ResolveUpstream(items, domain, ServedPath(link.path), link.rawQuery) == Print(u)
  {
    LinkShape(u, domain);
    LinkParsesBack(u);
    LinkPathText(u);
    EnsureClean(LinkPath(u));
    NotAMirror(items, domain, LinkPath(u), u.rawQuery);
  }

  lemma NotAMirror(items: Registry, domain: string, path: string, rawQuery: string)
    requires EnsureLeadingSlash(path) == path && ParseDistUrl(path, rawQuery).Target?
    ensures ResolveMirror(items, domain, path) == ""
  {
    PrefixesDiffer(path);
  }

  lemma PrefixesDiffer(path: string)
    ensures HasPrefix(path, "/dist/") ==> !HasPrefix(path, "/dists/")
  {
    if HasPrefix(path, "/dist/") {
      assert path[5] == "/dist/"[5] != "/dists/"[5];
    }
  }

  /** Rewriting a rewritten link changes nothing exactly when the link still lies below `/dist/`. */
  lemma LinkSettles(u: Url, domain: string)
    requires DistUrl(u) && IsPlainHost(domain) && !IsProxied(u, domain)
    ensures RewriteDistUrl(RewriteDistUrl(Print(u), domain), domain) == RewriteDistUrl(Print(u), domain)
            <==> HasPrefix(LinkPath(u), "/dist/")
  {
    var link := LinkUrl(u, domain);
    LinkShape(u, domain);
    LinkIsPlain(u, domain);
    PrintTrimmed(link);
    if !HasPrefix(LinkPath(u), "/dist/") {
      LinkShape(link, domain);
      LinkPathText(u);
      LinkBelowDist(link);
      assert LinkUrl(link, domain) != link;
    }
  }

  /** The link of a URL with a clean path always lies below `/dist/`. */
  lemma LinkBelowDist(u: Url)
    requires DistUrl(u) && IsClean(u.path)
    ensures HasPrefix(LinkPath(u), "/dist/")
  {
    if u.path != "/" {
      LinkParsesBack(u);
      BelowDist(u.scheme, u.host + Slashed(u.path));
      Assoc("/dist/" + u.scheme + "/", u.host, Slashed(u.path));
    } else {
      RootLink(u.scheme, u.host);
    }
  }

  lemma BelowDist(a: string, b: string)
    ensures HasPrefix("/dist/" + a + "/" + b, "/dist/")
  {
  }

  lemma RootLink(scheme: string, host: string)
    requires IsScheme(scheme) && IsPlainHost(host)
    ensures HasPrefix(Clean("/dist/" + scheme + "/" + host + "/"), "/dist/")
  {
    SchemeIsProper(scheme);
    var front := ["dist", scheme, host];
    assert Proper("dist");
    RenderSegments(front);
    RenderThree("dist", scheme, host);
    assert "/" + "dist" + "/" == "/dist/";
    CleanAppend(Render(front), "");
    assert Render(front) + "/" + "" == "/dist/" + scheme + "/" + host + "/";
    assert Split("", '/') == [""] && [""][1..] == [];
    assert Resolve(front, [""]) == Resolve(Push(front, ""), []) == front;
    BelowDist(scheme, host);
  }

  // ---- The second route: the mirror path --------------------------------------

  /** The path a Composer client builds from the mirror template. */
  function MirrorPath(pkg: string, reference: string, distType: string): string {
    "/dists/" + pkg + "/" + reference + "." + distType
  }

  /** Names that fill the mirror template without changing its shape. */
  predicate MirrorName(pkg: string, reference: string, distType: string) {
    pkg != "" && AllProper(Split(pkg, '/')) && NoEdgeSpace(pkg) &&
    reference != "" && '/' !in reference && NoEdgeSpace(reference) &&
    distType != "" && '/' !in distType && '.' !in distType && NoEdgeSpace(distType)
  }

  lemma MirrorSegments(pkg: string, reference: string, distType: string)
    requires MirrorName(pkg, reference, distType)
    ensures IsClean(MirrorPath(pkg, reference, distType)) && NoEdgeSpace(MirrorPath(pkg, reference, distType))
  {
    var file := reference + "." + distType;
    FileIsProper(reference, distType);
    MirrorText(pkg, reference, distType);
    assert Proper("dists") && "/" + "dists" + "/" == "/dists/";
    CleanThree("dists", pkg, file);
    var path := MirrorPath(pkg, reference, distType);
    assert path[|path| - 1] == distType[|distType| - 1];
  }

  lemma MirrorText(pkg: string, reference: string, distType: string)
    ensures MirrorPath(pkg, reference, distType) == "/dists/" + (pkg + "/" + (reference + "." + distType))
  {
    Assoc("/dists/" + pkg + "/", reference, ".");
    Assoc("/dists/" + pkg + "/", reference + ".", distType);
    Assoc("/dists/" + pkg, "/", reference + "." + distType);
    Assoc("/dists/", pkg, "/" + (reference + "." + distType));
    Assoc(pkg, "/", reference + "." + distType);
  }

  lemma CleanThree(first: string, middle: string, last: string)
    requires Proper(first) && Proper(last) && middle != "" && AllProper(Split(middle, '/'))
    ensures IsClean("/" + first + "/" + (middle + "/" + last))
  {
    var path := "/" + first + "/" + (middle + "/" + last);
    assert path[1..] == first + "/" + (middle + "/" + last);
    SplitConcat(first, '/', middle + "/" + last);
    SplitConcat(middle, '/', last);
    SplitFree(first, '/');
    SplitFree(last, '/');
    var segs := [first] + (Split(middle, '/') + [last]);
    assert Segments(path) == segs;
    forall i | 0 <= i < |segs| ensures Proper(segs[i]) {
    }
  }

  lemma FileIsProper(reference: string, distType: string)
    requires reference != "" && '/' !in reference && distType != "" && '/' !in distType && '.' !in distType
    ensures Proper(reference + "." + distType)
  {
    var file := reference + "." + distType;
    assert |file| >= 3 && '/' !in file;
  }

  lemma MirrorParsed(pkg: string, reference: string, distType: string)
    requires MirrorName(pkg, reference, distType)
    ensures ParseMirror(MirrorPath(pkg, reference, distType)) == Mirror(ToLower(pkg), reference, distType)
  {
    var path := MirrorPath(pkg, reference, distType);
    var file := reference + "." + distType;
    MirrorSegments(pkg, reference, distType);
    EnsureClean(path);
    MirrorText(pkg, reference, distType);
    assert path[7..] == pkg + "/" + file;
    CutLastAt(pkg, '/', file);
    CutLastAt(reference, '.', distType);
    NoEdgeSlash(pkg);
  }

  lemma NoEdgeSlash(pkg: string)
    requires pkg != "" && AllProper(Split(pkg, '/'))
    ensures TrimSlashes(pkg) == pkg
  {
    var segs := Split(pkg, '/');
    JoinSplit(pkg, '/');
    assert Proper(segs[0]) && Proper(segs[|segs| - 1]);
    if |segs| > 1 {
      JoinConcat(segs[..|segs| - 1], [segs[|segs| - 1]], '/');
      assert segs[..|segs| - 1] + [segs[|segs| - 1]] == segs;
    }
    assert pkg[0] == segs[0][0] && pkg[|pkg| - 1] == segs[|segs| - 1][|segs[|segs| - 1]| - 1];
  }

  lemma LowerKeepsSpace(s: string)
    ensures NoEdgeSpace(s) ==> NoEdgeSpace(ToLower(s)) && ToLower(ToLower(s)) == ToLower(s)
  {
    LowerFixed(ToLower(s));
  }

  /** The second route: whatever is registered for a package version is what its mirror path yields. */
  lemma MirrorRoundTrip(items: Registry, domain: string, pkg: string, reference: string, distType: string, rawQuery: string)
    requires MirrorName(pkg, reference, distType) && domain != "" && NoEdgeSpace(domain)
    requires DistKey(domain, pkg, reference, distType) in items
    requires TrimSpace(items[DistKey(domain, pkg, reference, distType)]) != ""
    ensures ResolveUpstream(items, domain, ServedPath(MirrorPath(pkg, reference, distType)), rawQuery)
         == items[DistKey(domain, pkg, reference, distType)]
  {
    MirrorSegments(pkg, reference, distType);
    EnsureClean(MirrorPath(pkg, reference, distType));
    MirrorParsed(pkg, reference, distType);
    TrimSpaceIdentity(domain);
    MirrorLookup(items, domain, pkg, reference, distType);
    BlankIsBlank();
  }

  lemma BlankIsBlank()
    ensures TrimSpace("") == ""
  {
  }

  lemma MirrorLookup(items: Registry, domain: string, pkg: string, reference: string, distType: string)
    requires MirrorName(pkg, reference, distType) && domain != "" && NoEdgeSpace(domain)
    requires DistKey(domain, pkg, reference, distType) in items
    requires TrimSpace(items[DistKey(domain, pkg, reference, distType)]) != ""
    ensures Lookup(items, domain, ToLower(pkg), reference, distType) == items[DistKey(domain, pkg, reference, distType)]
  {
    KeyIgnoresCase(domain, pkg, reference, distType);
    TrimSpaceIdentity(domain);
    TrimSpaceIdentity(pkg);
    TrimSpaceIdentity(reference);
    TrimSpaceIdentity(distType);
  }

  lemma KeyIgnoresCase(domain: string, pkg: string, reference: string, distType: string)
    requires NoEdgeSpace(pkg)
    ensures DistKey(domain, ToLower(pkg), reference, distType) == DistKey(domain, pkg, reference, distType)
  {
    LowerKeepsSpace(pkg);
    TrimSpaceIdentity(pkg);
    TrimSpaceIdentity(ToLower(pkg));
  }

  // ---- The URL fields of packages.json --------------------------------------------

  predicate IsWebUrl(u: Url) {
    Plain(u) && u.fragment == "" && u.scheme in {"http", "https"}
  }

  lemma WebText(u: Url)
    requires IsWebUrl(u)
    ensures HasPrefix(Print(u), "http://") || HasPrefix(Print(u), "https://")
  {
    hide Plain, IsHost, IsPathText, IsQueryText;
    var rest := u.host + u.path + QueryText(u.rawQuery) + FragmentText(u.fragment);
    assert "http" + "://" == "http://" && "https" + "://" == "https://";
    assert Print(u) == u.scheme + "://" + rest;
  }

  /** A URL of packagist.org moves to the proxy, with its path cleaned and its query kept; a URL of the proxy
      itself or of any other host stays as it is. */
  lemma RootFieldMoved(u: Url, domain: string)
    requires IsWebUrl(u) && domain != ""
    ensures BuildProxyUrl(Print(u), domain) ==
            if EqualFold(u.host, "repo.packagist.org") && !EqualFold(u.host, domain)
            then Print(Url("https", domain, Clean(Slashed(u.path)), u.rawQuery, ""))
            else Print(u)
  {
    hide Parse, Print, EqualFold, Clean, EnsureLeadingSlash, QueryText;
    PrintTrimmed(u);
    ParsePrint(u);
    WebText(u);
    var path := Slashed(u.path);
    ProxyAttached(path, u.rawQuery, domain);
    LocalText(path, u.rawQuery);
  }

  /** A second pass over such a field changes nothing. */
  lemma RootFieldSettles(u: Url, domain: string)
    requires IsWebUrl(u) && IsPlainHost(domain)
    ensures BuildProxyUrl(BuildProxyUrl(Print(u), domain), domain) == BuildProxyUrl(Print(u), domain)
  {
    hide Parse, Print, BuildProxyUrl, EqualFold, Clean;
    RootFieldMoved(u, domain);
    var path := Slashed(u.path);
    assert IsPathText(path);
    hide IsPathText;
    var moved := Url("https", domain, Clean(path), u.rawQuery, "");
    MovedIsPlain(path, u.rawQuery, domain);
    RootFieldMoved(moved, domain);
    EqualFoldSame(domain);
  }

  lemma EqualFoldSame(domain: string)
    ensures EqualFold(domain, domain)
  {
  }

  lemma MovedIsPlain(path: string, rawQuery: string, domain: string)
    requires Rooted(path) && IsPathText(path) && IsQueryText(rawQuery) && IsPlainHost(domain)
    ensures IsWebUrl(Url("https", domain, Clean(path), rawQuery, ""))
  {
    CleanChars(path);
    CleanSegments(path);
    PathHasNoSpace(domain);
    HttpsIsScheme();
    hide IsPathText, Clean;
  }

  lemma HttpsIsScheme()
    ensures IsScheme("https")
  {
  }

  lemma PathHasNoSpace(s: string)
    requires IsPathText(s)
    ensures forall c :: c in s ==> !IsSpace(c)
  {
  }

  /** A template with placeholders, which no URL parser takes, moves as well, when it is one of packagist.org. */
  lemma TemplateMoved(front: string, path: string, domain: string)
    requires front in {"https://repo.packagist.org", "http://repo.packagist.org"}
    requires Rooted(path) && '%' in path && '?' !in path && NoEdgeSpace(path) && domain != ""
    ensures BuildProxyUrl(front + path, domain) == "https://" + domain + Clean(path)
  {
    hide Clean, TrimSpace, NoEdgeSpace, Cut, StripPackagist, ScanScheme, IsControl, ParseHierarchy;
    TemplateTrimmed(front, path);
    TemplateStripped(front, path);
    TrimSpaceIdentity(path);
    CutNone(path, '?');
  }

  lemma TemplateTrimmed(front: string, path: string)
    requires front in {"https://repo.packagist.org", "http://repo.packagist.org"}
    requires Rooted(path) && '%' in path && NoEdgeSpace(path)
    ensures TrimSpace(front + path) == front + path && front + path != "" && '%' in front + path
  {
    var value := front + path;
    assert value[0] == 'h' && value[|value| - 1] == path[|path| - 1];
    hide TrimSpace;
    TrimSpaceIdentity(value);
  }

  lemma TemplateStripped(front: string, path: string)
    requires front in {"https://repo.packagist.org", "http://repo.packagist.org"} && Rooted(path)
    ensures StripPackagist(front + path) == (path, true)
    ensures HasPrefix(front + path, "http://") || HasPrefix(front + path, "https://")
  {
    var value := front + path;
    assert value[..|front|] == front && value[|front|..] == path;
    if front == "http://repo.packagist.org" {
      assert value[4] == front[4] == ':';
      assert value[..7] == "http://";
    } else {
      assert value[..8] == "https://";
    }
  }
}
