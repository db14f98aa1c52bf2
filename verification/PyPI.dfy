/** The PyPI simple index: every link in the page tree is pointed at the proxy, and a
    `/files/...` path is resolved back to the file's real address. */
module PyPI {
  import opened Text
  import opened GoPath
  import opened Urls
  import R = RequestLocators

  datatype Attr = Attr(key: string, val: string)

  /** A parsed page as a value; `data` is the tag of an element or the text of a text node. */
  datatype Tree = Node(isElement: bool, data: string, attrs: seq<Attr>, children: seq<Tree>)

  // ---- Paths and links ----------------------------------------------------

  function EnsureSimpleSlash(path: string): string {
    if !HasPrefix(path, "/simple/") || HasSuffix(path, "/") then path else path + "/"
  }

  predicate IsAsset(path: string) {
    HasSuffix(path, ".whl") || HasSuffix(path, ".tar.gz") || HasSuffix(path, ".tar.bz2") ||
    HasSuffix(path, ".tgz") || HasSuffix(path, ".zip") || HasSuffix(path, ".egg")
  }

  function NormalizePath(clean: string): string {
    if HasPrefix(clean, "/files/") || HasPrefix(clean, "/simple/") then EnsureSimpleSlash(clean)
    else if IsAsset(clean) then clean
    else
      var trimmed := TrimSlashes(clean);
      if trimmed == "" || HasPrefix(trimmed, "_") then clean
      else "/simple/" + (if HasSuffix(trimmed, "/") then trimmed else trimmed + "/")
  }

  function FilesPath(u: Url): (r: string)
    ensures Rooted(r)
  {
    "/files/" + u.scheme + "/" + u.host + u.path
  }

  /** `rewritePyPIFileURL`. */
  function RewriteFileUrl(domain: string, original: string): string {
    match Parse(original)
    case ParseError => original
    case ParsedUrl(u) =>
      if u.scheme == "" || u.host == "" then original
      else Print(Url("https", domain, FilesPath(u), u.rawQuery, u.fragment))
  }

  datatype Target = HubUpstream | Target(url: Url)

  /** The address that a `/files/<scheme>/<host>/...` path stands for. */
  function ParseFiles(clean: string, rawQuery: string): Target {
    if !HasPrefix(clean, "/files/") then HubUpstream
    else
      var (scheme, afterScheme, slash1) := Cut(clean[7..], '/');
      var (host, rest, slash2) := Cut(afterScheme, '/');
      if !slash1 || !slash2 || scheme == "" || host == "" then HubUpstream
      else Target(Url(scheme, host, "/" + TrimPrefix(rest, "/"), rawQuery, ""))
  }

  /** `resolveFilesUpstream`: the empty text means the hub's own upstream. */
  function ResolveFiles(clean: string, rawQuery: string): string {
    match ParseFiles(clean, rawQuery)
    case HubUpstream => ""
    case Target(u) => Print(u)
  }

  /** The path that the proxy resolves when a client requests a path: cleaned, then normalised. */
  function Requested(path: string): string {
    NormalizePath(Clean("/" + path))
  }

  /** A client follows a link. */
  function Follow(link: string): string {
    match Parse(link)
    case ParseError => ""
    case ParsedUrl(u) => ResolveFiles(Requested(u.path), u.rawQuery)
  }

  function WithoutFragment(u: Url): Url {
    u.(fragment := "")
  }

  /** A link that can be rewritten and followed: plain, and its host is one path segment. */
  predicate FileUrl(u: Url) {
    Plain(u) && IsPathText(u.host) && Proper(u.host)
  }

  predicate IsDomain(domain: string) {
    domain != "" && IsHost(domain) && IsPathText(domain)
  }

  /** The URL that a rewritten link names. */
  function LinkUrl(domain: string, u: Url): Url {
    Url("https", domain, FilesPath(u), u.rawQuery, u.fragment)
  }

  lemma LinkIsPlain(domain: string, u: Url)
    requires FileUrl(u) && IsDomain(domain)
    ensures Plain(LinkUrl(domain, u))
  {
    LowerFixed("https");
    assert IsScheme("https");
    assert forall c :: c in domain ==> !IsSpace(c);
    FilesPathText(u);
  }

  lemma FilesPathText(u: Url)
    requires FileUrl(u)
    ensures IsPathText(FilesPath(u))
  {
    assert IsPathText("/files/") && IsPathText("/");
  }

  lemma RewrittenLink(domain: string, u: Url)
    requires FileUrl(u) && IsDomain(domain)
    ensures Parse(RewriteFileUrl(domain, Print(u))) == ParsedUrl(LinkUrl(domain, u))
  {
    ParsePrint(u);
    LinkIsPlain(domain, u);
    ParsePrint(LinkUrl(domain, u));
  }

  lemma FilesSegments(u: Url)
    requires FileUrl(u) && IsClean(u.path) && u.path != "/"
    ensures IsClean(FilesPath(u))
  {
    assert Proper(u.scheme) && Proper("files");
    SegmentsRender(u.path);
    assert Render([]) == "/";
    var front := ["files", u.scheme, u.host];
    RenderSegments(front + Segments(u.path));
    RenderConcat(front, Segments(u.path));
    RenderThree("files", u.scheme, u.host);
    assert "/" + "files" + "/" == "/files/";
  }

  lemma FilesCut(scheme: string, host: string, rest: string, rawQuery: string)
    requires '/' !in scheme && '/' !in host && scheme != "" && host != ""
    ensures ParseFiles("/files/" + scheme + "/" + host + "/" + rest, rawQuery)
         == Target(Url(scheme, host, "/" + TrimPrefix(rest, "/"), rawQuery, ""))
  {
    var clean := "/files/" + scheme + "/" + host + "/" + rest;
    Assoc("/files/" + scheme + "/", host, "/" + rest);
    Assoc("/files/" + scheme + "/" + host, "/", rest);
    Assoc("/files/" + scheme, "/", host + ("/" + rest));
    Assoc("/files/", scheme, "/" + (host + ("/" + rest)));
    assert clean == "/files/" + (scheme + ("/" + (host + ("/" + rest))));
    assert clean[7..] == scheme + ("/" + (host + ("/" + rest)));
    CutSlash(scheme, host + ("/" + rest));
    CutSlash(host, rest);
  }

  lemma FilesStay(path: string)
    requires HasPrefix(path, "/files/")
    ensures NormalizePath(path) == path
  {
    PrefixesDiffer(path);
  }

  /** The path of a rewritten link leads back to the original address exactly when the
      original path is clean and not the root; addresses on the proxy are no exception. */
  lemma FilesRoundTrip(u: Url)
    requires FileUrl(u)
    ensures ParseFiles(Requested(FilesPath(u)), u.rawQuery) == Target(WithoutFragment(u))
            <==> IsClean(u.path) && u.path != "/"
  {
    if IsClean(u.path) && u.path != "/" {
      FilesParseBack(u);
    }
    if ParseFiles(Requested(FilesPath(u)), u.rawQuery) == Target(WithoutFragment(u)) {
      CleanSegments("/" + FilesPath(u));
      ParsedPathIsClean(Clean("/" + FilesPath(u)), u.rawQuery);
    }
  }

  lemma FilesParseBack(u: Url)
    requires FileUrl(u) && IsClean(u.path) && u.path != "/"
    ensures ParseFiles(Requested(FilesPath(u)), u.rawQuery) == Target(WithoutFragment(u))
  {
    FilesSegments(u);
    CleanExtraSlash(FilesPath(u));
    CleanFixed(FilesPath(u));
    var rest := u.path[1..];
    assert u.path == "/" + rest;
    NoLeadingSlash(u.path);
    Assoc("/files/" + u.scheme + "/" + u.host, "/", rest);
    FilesStayHere(u.scheme, u.host + u.path);
    Assoc("/files/" + u.scheme + "/", u.host, u.path);
    FilesCut(u.scheme, u.host, rest, u.rawQuery);
  }

  /** Whatever a normalised path parses to has a clean path other than the root. */
  lemma ParsedPathIsClean(p: string, rawQuery: string)
    requires IsClean(p) && ParseFiles(NormalizePath(p), rawQuery).Target?
    ensures var path := ParseFiles(NormalizePath(p), rawQuery).url.path; IsClean(path) && path != "/"
  {
    NormalizedFiles(p);
    assert p == "/files/" + p[7..] && "/" + "files" + "/" == "/files/";
    TailAfterCut(p, "files", p[7..]);
    var (scheme, afterScheme, slash1) := Cut(p[7..], '/');
    TailAfterCut("/" + p[7..], scheme, afterScheme);
    var (host, rest, slash2) := Cut(afterScheme, '/');
    TailAfterCut("/" + afterScheme, host, rest);
    NoLeadingSlash("/" + rest);
    assert ("/" + rest)[1..] == rest;
  }

  lemma NormalizedFiles(p: string)
    requires HasPrefix(NormalizePath(p), "/files/")
    ensures NormalizePath(p) == p
  {
    PrefixesDiffer(NormalizePath(p));
    assert HasPrefix(p, "/simple/") ==> HasPrefix(EnsureSimpleSlash(p), "/simple/");
  }

  lemma PrefixesDiffer(path: string)
    ensures HasPrefix(path, "/files/") ==> !HasPrefix(path, "/simple/")
  {
    if HasPrefix(path, "/files/") {
      assert path[1] == "/files/"[1] != "/simple/"[1];
    }
  }

  /** A rewritten link, followed by a client, reaches the original address. */
  lemma FollowedLink(domain: string, u: Url)
    requires FileUrl(u) && IsDomain(domain) && IsClean(u.path) && u.path != "/"
    ensures Follow(RewriteFileUrl(domain, Print(u))) == Print(WithoutFragment(u))
  {
    RewrittenLink(domain, u);
    FilesParseBack(u);
  }

  lemma FilesStayHere(scheme: string, more: string)
    ensures NormalizePath("/files/" + scheme + "/" + more) == "/files/" + scheme + "/" + more
  {
    FilesStay("/files/" + scheme + "/" + more);
  }

  lemma NoLeadingSlash(path: string)
    requires IsClean(path) && path != "/"
    ensures TrimPrefix(path[1..], "/") == path[1..]
  {
    SegmentsRender(path);
    assert Render([]) == "/";
    assert Proper(Segments(path)[0]);
    assert path[1] == Segments(path)[0][0];
  }

  // ---- The locators of normalised paths ------------------------------------------

  lemma CleanShape(clean: string)
    requires IsClean(clean) && clean != "/"
    ensures clean[0] == '/' && |clean| > 1 && clean[|clean| - 1] != '/' && TrimSlashes(clean) == clean[1..]
  {
    R.NoTrailingSlash(clean);
    SegmentsRender(clean);
    assert HasSuffix(clean, "/") ==> TrimSuffix(clean, "/") != clean;
    assert clean[|clean| - 1..] == [clean[|clean| - 1]];
    FirstNoSlash(Segments(clean));
    TrimOneSlash(clean);
  }

  lemma FirstNoSlash(segs: Segs)
    requires segs != [] && AllProper(segs)
    ensures Render(segs)[1] != '/'
  {
    assert Proper(segs[0]) && Render(segs)[1] == Join(segs, '/')[0] == segs[0][0];
  }

  lemma TrimOneSlash(s: string)
    requires |s| > 1 && s[0] == '/' && s[1] != '/' && s[|s| - 1] != '/'
    ensures TrimSlashes(s) == s[1..]
  {
    assert TrimSlashes(s) == TrimSlashes(s[1..]);
  }

  lemma BelowSimple(clean: string)
    requires R.RequestPath(clean) && clean != "/"
    ensures R.RequestPath("/simple" + clean)
  {
    var segs := Segments(clean);
    SegmentsRender(clean);
    SimpleProper();
    RenderConcat(["simple"], segs);
    RenderSegments(["simple"] + segs);
  }

  lemma SimpleProper()
    ensures Proper("simple") && Render(["simple"]) == "/simple" && "simple" != "__qs"
  {
  }

  lemma WithSlash(b: string)
    requires R.RequestPath(b) && b != "/"
    ensures R.SlashPath(b + "/")
  {
    CleanShape(b);
    assert (b + "/")[..|b|] == b;
  }

  /** The paths that the hook hands on are clean, or clean with a slash behind them. */
  lemma NormalizedIsHookPath(clean: string)
    requires R.RequestPath(clean)
    ensures R.HookPath("pypi", NormalizePath(clean))
  {
    if clean != "/" {
      CleanShape(clean);
      BelowSimple(clean);
      WithSlash(clean);
      WithSlash("/simple" + clean);
      NormalizeText(clean);
    }
    hide R.RequestPath, IsAsset, R.SlashPath;
    RootNormalized();
  }

  lemma RootNormalized()
    ensures NormalizePath("/") == "/"
  {
    assert TrimSlashes("/") == TrimSlashes(""[..]) == "";
  }

  lemma NoSlashAtEnd(t: string)
    requires t != "" && t[|t| - 1] != '/'
    ensures !HasSuffix(t, "/")
  {
  }

  lemma SimpleText(t: string)
    ensures "/simple/" + (t + "/") == "/simple" + ("/" + t) + "/"
  {
    assert "/simple" + "/" == "/simple/";
    Assoc("/simple", "/", t);
    Assoc("/simple/", t, "/");
  }

  /** A clean path begins with a word between slashes exactly when that is its first segment and more follows. */
  lemma PrefixBySegment(clean: string, word: string)
    requires IsClean(clean) && word != "" && '/' !in word
    ensures HasPrefix(clean, "/" + word + "/") <==> |Segments(clean)| >= 2 && Segments(clean)[0] == word
  {
    var segs, prefix := Segments(clean), "/" + word + "/";
    if HasPrefix(clean, prefix) {
      var rest := clean[|prefix|..];
      assert clean == prefix + rest && clean[1..] == word + "/" + rest;
      SplitConcat(word, '/', rest);
      SplitFree(word, '/');
      assert Segments(clean) == [word] + Split(rest, '/');
    }
    if |segs| >= 2 && segs[0] == word {
      SegmentsRender(clean);
      JoinConcat([word], segs[1..], '/');
      assert segs == [word] + segs[1..];
      assert clean == "/" + (word + "/" + Join(segs[1..], '/'));
      assert clean[..|prefix|] == prefix;
    }
  }

  /** The endings that mark a file of a distribution. */
  const ASSET_ENDINGS: set<string> := {".whl", ".tar.gz", ".tar.bz2", ".tgz", ".zip", ".egg"}

  lemma AssetByEnding(path: string)
    ensures IsAsset(path) <==> exists x :: x in ASSET_ENDINGS && HasSuffix(path, x)
  {
  }

  /** The first segment starts with an underscore. */
  predicate Underscored(segs: Segs) {
    segs != [] && segs[0] != "" && segs[0][0] == '_'
  }

  /** What the path hook makes of a clean path, by its segments: below `/simple/` it gets a final slash; the
      root, everything below `/files/`, files of distributions and paths that start with an underscore stay; all
      others move below `/simple/`. */
  lemma NormalizeExactly(clean: string)
    requires IsClean(clean)
    ensures var segs := Segments(clean);
            NormalizePath(clean) ==
            if |segs| >= 2 && segs[0] == "simple" then clean + "/"
            else if segs == [] || (|segs| >= 2 && segs[0] == "files") || Underscored(segs) ||
                    (exists x :: x in ASSET_ENDINGS && HasSuffix(clean, x)) then clean
            else "/simple" + clean + "/"
  {
    hide IsAsset, TrimSlashes, Segments, HasSuffix, IsClean;
    AssetByEnding(clean);
    RootNormalized();
    RootOrNot(clean);
    if clean != "/" {
      CleanShape(clean);
      PrefixBySegment(clean, "files");
      PrefixBySegment(clean, "simple");
      PrefixTexts();
      NormalizeText(clean);
    }
  }

  lemma RootOrNot(clean: string)
    requires IsClean(clean)
    ensures Segments(clean) == [] <==> clean == "/"
    ensures clean != "/" ==> |clean| > 1 && (Underscored(Segments(clean)) <==> clean[1] == '_')
  {
    SegmentsRender(clean);
    if clean != "/" {
      assert Proper(Segments(clean)[0]);
      assert clean[1] == Segments(clean)[0][0];
    }
  }

  lemma PrefixTexts()
    ensures "/" + "files" + "/" == "/files/" && "/" + "simple" + "/" == "/simple/"
  {
    PrefixesDiffer("/files/");
  }

  lemma NormalizeText(clean: string)
    requires |clean| > 1 && clean[0] == '/' && clean[|clean| - 1] != '/' && TrimSlashes(clean) == clean[1..]
    ensures NormalizePath(clean) ==
            if HasPrefix(clean, "/simple/") then clean + "/"
            else if HasPrefix(clean, "/files/") || IsAsset(clean) || clean[1] == '_' then clean
            else "/simple" + clean + "/"
  {
    hide IsAsset, TrimSlashes, HasSuffix;
    var t := clean[1..];
    assert clean == "/" + t;
    NoSlashAtEnd(t);
    NoSlashAtEnd(clean);
    SimpleText(t);
  }

  // ---- The page -----------------------------------------------------------

  /** The links of a page: absolute web addresses of files and of their metadata. */
  predicate IsLink(a: Attr) {
    a.key in {"href", "data-dist-info-metadata", "data-core-metadata"} &&
    (HasPrefix(a.val, "http://") || HasPrefix(a.val, "https://"))
  }

  /** What the rewriting does to an attribute. */
  function RewriteAttr(domain: string, a: Attr): Attr {
    match a.key
    case "href" => RewriteWeb(domain, a)
    case "data-dist-info-metadata" => RewriteWeb(domain, a)
    case "data-core-metadata" => RewriteWeb(domain, a)
    case _ => a
  }

  function RewriteWeb(domain: string, a: Attr): Attr {
    if HasPrefix(a.val, "http://") || HasPrefix(a.val, "https://") then Attr(a.key, RewriteFileUrl(domain, a.val)) else a
  }

  /** Exactly the links are touched, and of these only the ones with a scheme and a host move. */
  lemma AttrExactly(domain: string, a: Attr)
    ensures RewriteAttr(domain, a) == if IsLink(a) then Attr(a.key, RewriteFileUrl(domain, a.val)) else a
    ensures RewriteAttr(domain, a) != a ==> Parse(a.val).ParsedUrl? && Parse(a.val).url.scheme != "" && Parse(a.val).url.host != ""
  {
    hide Parse, Print, FilesPath;
  }

  function RewriteAttrs(domain: string, attrs: seq<Attr>): (r: seq<Attr>)
    ensures |r| == |attrs|
  {
    seq(|attrs|, i requires 0 <= i < |attrs| => RewriteAttr(domain, attrs[i]))
  }

  function RewriteTree(domain: string, t: Tree): Tree {
    Node(t.isElement, t.data, if t.isElement then RewriteAttrs(domain, t.attrs) else t.attrs, RewriteForest(domain, t.children))
  }

  function RewriteForest(domain: string, ts: seq<Tree>): (r: seq<Tree>)
    ensures |r| == |ts|
    ensures forall i :: 0 <= i < |ts| ==> r[i] == RewriteTree(domain, ts[i])
  {
    if ts == [] then [] else [RewriteTree(domain, ts[0])] + RewriteForest(domain, ts[1..])
  }

  /** A node of the parsed page. Only its attributes ever change. */
  class HtmlNode {
    const isElement: bool
    const data: string
    const children: seq<HtmlNode>
    ghost const Repr: set<HtmlNode>
    var attrs: seq<Attr>

    /** The nodes below this one form a tree. */
    ghost predicate Valid()
      decreases Repr
    {
      this in Repr &&
      (forall i :: 0 <= i < |children| ==> children[i].Repr < Repr && this !in children[i].Repr && children[i].Valid()) &&
      (forall i, j :: 0 <= i < j < |children| ==> children[i].Repr !! children[j].Repr)
    }

    constructor (isElement: bool, data: string, attrs: seq<Attr>, children: seq<HtmlNode>)
      requires forall i :: 0 <= i < |children| ==> children[i].Valid()
      requires forall i, j :: 0 <= i < j < |children| ==> children[i].Repr !! children[j].Repr
      ensures Valid() && this.isElement == isElement && this.data == data && this.attrs == attrs && this.children == children
    {
      this.isElement, this.data, this.attrs, this.children := isElement, data, attrs, children;
      this.Repr := {this} + set i, n | 0 <= i < |children| && n in children[i].Repr :: n;
      new;
      assert forall i :: 0 <= i < |children| ==> this !in children[i].Repr;
    }
  }

  /** The tree below a node, as a value. */
  ghost function TreeOf(n: HtmlNode): Tree
    requires n.Valid()
    reads n.Repr
    decreases n.Repr, 1
  {
    Node(n.isElement, n.data, n.attrs, ForestOf(n, |n.children|))
  }

  /** The first `k` subtrees of a node. */
  ghost function ForestOf(n: HtmlNode, k: nat): (r: seq<Tree>)
    requires n.Valid() && k <= |n.children|
    reads n.Repr
    ensures |r| == k
    ensures forall i :: 0 <= i < k ==> r[i] == TreeOf(n.children[i])
    decreases n.Repr, 0, k
  {
    if k == 0 then [] else ForestOf(n, k - 1) + [TreeOf(n.children[k - 1])]
  }

  /** `rewriteHTMLAttributes`. */
  method RewriteHtmlAttributes(n: HtmlNode, domain: string)
    modifies n
    ensures n.attrs == RewriteAttrs(domain, old(n.attrs))
  {
    hide RewriteFileUrl;
    ghost var before := n.attrs;
    for i := 0 to |n.attrs|
      invariant |n.attrs| == |before|
      invariant forall k :: 0 <= k < i ==> n.attrs[k] == RewriteAttr(domain, before[k])
      invariant forall k :: i <= k < |before| ==> n.attrs[k] == before[k]
    {
      var attr := n.attrs[i];
      if attr.key == "href" || attr.key == "data-dist-info-metadata" || attr.key == "data-core-metadata" {
        if HasPrefix(attr.val, "http://") || HasPrefix(attr.val, "https://") {
          n.attrs := n.attrs[i := Attr(attr.key, RewriteFileUrl(domain, attr.val))];
        }
      }
    }
  }

  /** `rewriteHTMLNode`: the whole tree is rewritten in place. */
  method RewriteHtmlNode(n: HtmlNode, domain: string)
    requires n.Valid()
    modifies n.Repr
    ensures TreeOf(n) == RewriteTree(domain, old(TreeOf(n)))
    decreases n.Repr, 1
  {
    if n.isElement {
      RewriteHtmlAttributes(n, domain);
    }
    assert forall k :: 0 <= k < |n.children| ==> TreeOf(n.children[k]) == old(TreeOf(n.children[k]));
    assert ForestOf(n, |n.children|) == old(ForestOf(n, |n.children|));
    RewriteHtmlChildren(n, domain);
  }

  /** The loop over a node's children. */
  method RewriteHtmlChildren(n: HtmlNode, domain: string)
    requires n.Valid()
    modifies n.Repr - {n}
    ensures ForestOf(n, |n.children|) == RewriteForest(domain, old(ForestOf(n, |n.children|)))
    decreases n.Repr, 0
  {
    hide RewriteTree, RewriteForest, TreeOf, ForestOf;
    for i := 0 to |n.children|
      invariant forall k :: 0 <= k < i ==> TreeOf(n.children[k]) == RewriteTree(domain, old(TreeOf(n.children[k])))
      invariant forall k :: i <= k < |n.children| ==> TreeOf(n.children[k]) == old(TreeOf(n.children[k]))
    {
      RewriteHtmlNode(n.children[i], domain);
    }
    assert ForestOf(n, |n.children|) == RewriteForest(domain, old(ForestOf(n, |n.children|)));
  }

  // ---- What the rewriting keeps and what it changes -----------------------------

  /** A page with the values of its link attributes blanked out. */
  function Skeleton(t: Tree): Tree {
    Node(t.isElement, t.data, if t.isElement then BlankLinks(t.attrs) else t.attrs, SkeletonForest(t.children))
  }

  function SkeletonForest(ts: seq<Tree>): seq<Tree> {
    if ts == [] then [] else [Skeleton(ts[0])] + SkeletonForest(ts[1..])
  }

  function BlankLinks(attrs: seq<Attr>): (r: seq<Attr>)
    ensures |r| == |attrs|
  {
    seq(|attrs|, i requires 0 <= i < |attrs| => if IsLink(attrs[i]) then Attr(attrs[i].key, "") else attrs[i])
  }

  /** The link values of a page in document order. */
  function Links(t: Tree): seq<string> {
    (if t.isElement then AttrLinks(t.attrs) else []) + ForestLinks(t.children)
  }

  function ForestLinks(ts: seq<Tree>): seq<string> {
    if ts == [] then [] else Links(ts[0]) + ForestLinks(ts[1..])
  }

  function AttrLinks(attrs: seq<Attr>): seq<string> {
    if attrs == [] then []
    else (if IsLink(attrs[0]) then [attrs[0].val] else []) + AttrLinks(attrs[1..])
  }

  function MapLinks(domain: string, links: seq<string>): (r: seq<string>)
    ensures |r| == |links| && forall i :: 0 <= i < |links| ==> r[i] == RewriteFileUrl(domain, links[i])
  {
    if links == [] then [] else [RewriteFileUrl(domain, links[0])] + MapLinks(domain, links[1..])
  }

  lemma {:induction false} MapLinksConcat(domain: string, a: seq<string>, b: seq<string>)
    ensures MapLinks(domain, a + b) == MapLinks(domain, a) + MapLinks(domain, b)
  {
    if a == [] {
      assert a + b == b;
    } else {
      assert (a + b)[0] == a[0] && (a + b)[1..] == a[1..] + b;
      MapLinksConcat(domain, a[1..], b);
    }
  }

  /** A rewritten link is still a link: it starts with `https://`. */
  lemma RewrittenIsLink(domain: string, a: Attr)
    ensures IsLink(RewriteAttr(domain, a)) == IsLink(a)
  {
    AttrExactly(domain, a);
    hide RewriteAttr;
    if IsLink(a) && RewriteAttr(domain, a) != a {
      var u := Parse(a.val).url;
      var link := Url("https", domain, FilesPath(u), u.rawQuery, u.fragment);
      assert "https" + "://" == "https://";
      assert HasPrefix(Print(link), "https://");
    }
  }

  lemma {:induction false} AttrLinksRewritten(domain: string, attrs: seq<Attr>)
    ensures AttrLinks(RewriteAttrs(domain, attrs)) == MapLinks(domain, AttrLinks(attrs))
  {
    if attrs == [] {
    } else {
      var r := RewriteAttrs(domain, attrs);
      assert r[0] == RewriteAttr(domain, attrs[0]) && r[1..] == RewriteAttrs(domain, attrs[1..]);
      AttrExactly(domain, attrs[0]);
      RewrittenIsLink(domain, attrs[0]);
      AttrLinksRewritten(domain, attrs[1..]);
      var first := if IsLink(attrs[0]) then [attrs[0].val] else [];
      MapLinksConcat(domain, first, AttrLinks(attrs[1..]));
      assert first != [] ==> first[1..] == [] && MapLinks(domain, first) == [RewriteFileUrl(domain, attrs[0].val)];
    }
  }

  /** The links of the rewritten page are the rewritten links of the page, in the same order. */
  lemma {:induction false} LinksRewritten(domain: string, t: Tree)
    ensures Links(RewriteTree(domain, t)) == MapLinks(domain, Links(t))
    decreases t, 1
  {
    AttrLinksRewritten(domain, t.attrs);
    ForestLinksRewritten(domain, t.children);
    MapLinksConcat(domain, if t.isElement then AttrLinks(t.attrs) else [], ForestLinks(t.children));
  }

  lemma {:induction false} ForestLinksRewritten(domain: string, ts: seq<Tree>)
    ensures ForestLinks(RewriteForest(domain, ts)) == MapLinks(domain, ForestLinks(ts))
    decreases ts, 0
  {
    if ts == [] {
    } else {
      LinksRewritten(domain, ts[0]);
      ForestLinksRewritten(domain, ts[1..]);
      MapLinksConcat(domain, Links(ts[0]), ForestLinks(ts[1..]));
      assert RewriteForest(domain, ts)[1..] == RewriteForest(domain, ts[1..]);
    }
  }

  /** Nothing but link values changes: shape, tags, texts, keys and all other values stay. */
  lemma {:induction false} SkeletonKept(domain: string, t: Tree)
    ensures Skeleton(RewriteTree(domain, t)) == Skeleton(t)
    decreases t, 1
  {
    forall i | 0 <= i < |t.attrs|
      ensures BlankLinks(RewriteAttrs(domain, t.attrs))[i] == BlankLinks(t.attrs)[i]
    {
      AttrExactly(domain, t.attrs[i]);
      RewrittenIsLink(domain, t.attrs[i]);
    }
    assert BlankLinks(RewriteAttrs(domain, t.attrs)) == BlankLinks(t.attrs);
    SkeletonForestKept(domain, t.children);
  }

  lemma {:induction false} SkeletonForestKept(domain: string, ts: seq<Tree>)
    ensures SkeletonForest(RewriteForest(domain, ts)) == SkeletonForest(ts)
    decreases ts, 0
  {
    if ts == [] {
    } else {
      SkeletonKept(domain, ts[0]);
      SkeletonForestKept(domain, ts[1..]);
      assert RewriteForest(domain, ts)[1..] == RewriteForest(domain, ts[1..]);
    }
  }

  /** Following the links of a rewritten page reaches, link by link, the addresses the page held. */
  lemma PageLinksResolve(domain: string, t: Tree, i: nat, u: Url)
    requires IsDomain(domain) && i < |Links(t)| && Links(t)[i] == Print(u)
    requires FileUrl(u) && IsClean(u.path) && u.path != "/"
    ensures i < |Links(RewriteTree(domain, t))|
    ensures Follow(Links(RewriteTree(domain, t))[i]) == Print(WithoutFragment(u))
  {
    LinksRewritten(domain, t);
    FollowedLink(domain, u);
  }
}
