/** How a request becomes a locator and a locator becomes a file: the query
    marker, the npm and go rewrites, and the file path below the hub directory. */
module CacheKeys {
  import opened Text
  import opened GoPath

  datatype Locator = Locator(hub: string, path: string)

  datatype PathResult = PathOk(file: string) | HubNameRequired | InvalidCachePath

  // ---- Locators to files -------------------------------------------------

  /** `filepath.Join` of a rooted directory and one non-empty element. */
  function JoinPath(dir: string, elem: string): string
    requires Rooted(dir)
  {
    Clean(dir + "/" + elem)
  }

  function EntryPath(base: string, loc: Locator): PathResult
    requires Rooted(base)
  {
    if loc.hub == "" then HubNameRequired
    else
      var asked := if loc.path == "" || loc.path == "/" then "root" else loc.path;
      var cleaned := TrimPrefix(Clean("/" + asked), "/");
      var rel := if cleaned == "" then "root" else cleaned;
      var hubRoot := JoinPath(base, loc.hub);
      var filePath := JoinPath(hubRoot, rel);
      if filePath != hubRoot && !HasPrefix(filePath, hubRoot + "/") then InvalidCachePath
      else PathOk(filePath)
  }

  function MetadataPath(file: string): string {
    file + ".meta"
  }

  /** The segments of an entry's file below its hub directory. */
  function FileSegs(path: string): (r: Segs)
    ensures |r| >= 1 && AllProper(r)
  {
    CleanSegments("/" + path);
    var segs := Segments(Clean("/" + path));
    if segs == [] then ["root"] else segs
  }

  function WithMeta(segs: Segs): Segs
    requires |segs| >= 1
  {
    segs[..|segs| - 1] + [segs[|segs| - 1] + ".meta"]
  }

  lemma RelativeText(path: string)
    ensures var asked := if path == "" || path == "/" then "root" else path;
            var cleaned := TrimPrefix(Clean("/" + asked), "/");
            (if cleaned == "" then "root" else cleaned) == Join(FileSegs(path), '/')
  {
    var asked := if path == "" || path == "/" then "root" else path;
    CleanSegments("/" + asked);
    CleanSegments("/" + path);
    if path == "" || path == "/" {
      RenderSegments(["root"]);
      CleanFixed(Render(["root"]));
      RenderSegments([]);
      CleanFixed("/");
      CleanExtraSlash("/");
      assert "/" + "" == "/" == Render([]);
      assert FileSegs(path) == ["root"];
    } else {
      SegmentsRender(Clean("/" + path));
      if Segments(Clean("/" + path)) == [] {
        assert Clean("/" + path) == "/";
      }
    }
  }

  lemma JoinedPath(dir: string, segs: Segs)
    requires IsClean(dir) && |segs| >= 1 && AllProper(segs)
    ensures JoinPath(dir, Join(segs, '/')) == Render(Segments(dir) + segs)
    ensures IsClean(JoinPath(dir, Join(segs, '/')))
    ensures Segments(JoinPath(dir, Join(segs, '/'))) == Segments(dir) + segs
  {
    CleanAppend(dir, Join(segs, '/'));
    SplitJoin(segs, '/');
    ResolvePushesProper(Segments(dir), segs);
    RenderSegments(Segments(dir) + segs);
  }

  /** The hub directory and the file path before the "invalid cache path" test. */
  lemma FileSegments(root: string, path: string)
    requires IsClean(root)
    ensures var file := JoinPath(root, Join(FileSegs(path), '/'));
            IsClean(file) && Segments(file) == Segments(root) + FileSegs(path) &&
            file != root && (root + "/" <= file <==> root != "/")
  {
    var rel := FileSegs(path);
    JoinedPath(root, rel);
    var file := JoinPath(root, Join(rel, '/'));
    assert |Segments(file)| > |Segments(root)|;
    SegmentsRender(root);
    if root == "/" {
      assert Segments(root) + rel == rel;
      assert Proper(rel[0]) && file[1] == Join(rel, '/')[0] == rel[0][0];
    } else {
      RenderConcat(Segments(root), rel);
      assert file == root + ("/" + Join(rel, '/'));
    }
  }

  /** Every locator of a named hub maps to a file strictly below the hub directory;
      the "invalid cache path" answer occurs exactly when that directory is `/`. */
  lemma EntryPathBelowHub(base: string, loc: Locator)
    requires Rooted(base) && loc.hub != ""
    ensures IsClean(JoinPath(base, loc.hub))
    ensures EntryPath(base, loc).PathOk? <==> JoinPath(base, loc.hub) != "/"
    ensures EntryPath(base, loc).PathOk? ==>
              var root, file := JoinPath(base, loc.hub), EntryPath(base, loc).file;
              root + "/" <= file && IsClean(file) && Segments(file) == Segments(root) + FileSegs(loc.path)
  {
    CleanSegments(base + "/" + loc.hub);
    RelativeText(loc.path);
    FileSegments(JoinPath(base, loc.hub), loc.path);
  }

  /** The file of a locator does not depend on whether its path was cleaned before. */
  lemma EntryPathIgnoresCleaning(base: string, loc: Locator)
    requires Rooted(base)
    ensures EntryPath(base, loc) == EntryPath(base, loc.(path := Clean("/" + loc.path)))
    ensures FileSegs(loc.path) == FileSegs(Clean("/" + loc.path))
  {
    CleanSegments("/" + loc.path);
    var cleaned := Clean("/" + loc.path);
    CleanExtraSlash(cleaned);
    CleanIdempotent("/" + loc.path);
    RelativeText(loc.path);
    RelativeText(cleaned);
  }

  /** Inside one hub, locators share a body file exactly when they have the same file segments. */
  lemma SameFileOnDisk(base: string, hub: string, p: string, q: string)
    requires Rooted(base) && hub != "" && JoinPath(base, hub) != "/"
    ensures EntryPath(base, Locator(hub, p)) == EntryPath(base, Locator(hub, q)) <==> FileSegs(p) == FileSegs(q)
  {
    var a, b := Locator(hub, p), Locator(hub, q);
    EntryPathBelowHub(base, a);
    EntryPathBelowHub(base, b);
    SegmentsRender(EntryPath(base, a).file);
    SegmentsRender(EntryPath(base, b).file);
    var root := Segments(JoinPath(base, hub));
    assert (root + FileSegs(p))[|root|..] == FileSegs(p) && (root + FileSegs(q))[|root|..] == FileSegs(q);
  }

  /** The name of a metadata file is its entry's file with the last segment extended. */
  lemma MetadataSegments(file: string)
    requires IsClean(file) && file != "/"
    ensures IsClean(MetadataPath(file))
    ensures |Segments(file)| >= 1 && Segments(MetadataPath(file)) == WithMeta(Segments(file))
  {
    SegmentsRender(file);
    var segs := Segments(file);
    assert Render([]) == "/";
    JoinLastExtended(segs, ".meta");
    assert Proper(segs[|segs| - 1]);
    assert Proper(segs[|segs| - 1] + ".meta");
    assert MetadataPath(file) == Render(WithMeta(segs));
    RenderSegments(WithMeta(segs));
  }

  lemma {:induction false} JoinLastExtended(segs: Segs, tail: string)
    requires |segs| >= 1
    ensures Join(segs[..|segs| - 1] + [segs[|segs| - 1] + tail], '/') == Join(segs, '/') + tail
  {
    var last := segs[|segs| - 1];
    if |segs| == 1 {
      assert segs[..0] + [last + tail] == [last + tail];
    } else {
      JoinConcat(segs[..|segs| - 1], [last + tail], '/');
      JoinConcat(segs[..|segs| - 1], [last], '/');
      assert segs[..|segs| - 1] + [last] == segs;
    }
  }

  /** Two hubs whose names are single path segments never share a body or metadata file. */
  lemma HubsNeverShareFiles(base: string, a: Locator, b: Locator)
    requires IsClean(base) && Proper(a.hub) && Proper(b.hub) && a.hub != b.hub
    ensures EntryPath(base, a).PathOk? && EntryPath(base, b).PathOk?
    ensures var fa, fb := EntryPath(base, a).file, EntryPath(base, b).file;
            {fa, MetadataPath(fa)} !! {fb, MetadataPath(fb)}
  {
    hide EntryPath, FileSegs, Segments, IsClean;
    CleanIsRooted(base);
    KeyIsFile(base, a);
    KeyIsFile(base, b);
    var fa, fb := EntryPath(base, a).file, EntryPath(base, b).file;
    var n := |Segments(base)|;
    assert Segments(fa)[n] == Segments(MetadataPath(fa))[n] == a.hub;
    assert Segments(fb)[n] == Segments(MetadataPath(fb))[n] == b.hub;
  }

  lemma HubRootSegments(base: string, hub: string)
    requires IsClean(base) && Proper(hub)
    ensures Segments(JoinPath(base, hub)) == Segments(base) + [hub]
  {
    assert Join([hub], '/') == hub;
    JoinedPath(base, [hub]);
  }

  /** Within one hub, one entry's metadata file is another's body file exactly when
      the second file name is the first one followed by `.meta`. */
  lemma MetadataClash(base: string, hub: string, p: string, q: string)
    requires Rooted(base) && hub != "" && JoinPath(base, hub) != "/"
    ensures EntryPath(base, Locator(hub, p)).PathOk? && EntryPath(base, Locator(hub, q)).PathOk?
    ensures MetadataPath(EntryPath(base, Locator(hub, q)).file) == EntryPath(base, Locator(hub, p)).file
            <==> FileSegs(p) == WithMeta(FileSegs(q))
  {
    hide EntryPath, JoinPath, FileSegs, Segments, IsClean, MetadataPath, WithMeta;
    EntryPathBelowHub(base, Locator(hub, p));
    EntryPathBelowHub(base, Locator(hub, q));
    var root := JoinPath(base, hub);
    var body, other := EntryPath(base, Locator(hub, p)).file, EntryPath(base, Locator(hub, q)).file;
    RootHasNoSegments(other);
    MetadataSegments(other);
    SegmentsRender(body);
    SegmentsRender(MetadataPath(other));
    MetaBehind(Segments(root), FileSegs(q));
    assert (Segments(root) + FileSegs(p))[|Segments(root)|..] == FileSegs(p);
    assert (Segments(root) + WithMeta(FileSegs(q)))[|Segments(root)|..] == WithMeta(FileSegs(q));
  }

  /** The metadata file of the locator path `q` lies at these segments. */
  ghost predicate IsMetadataOf(segs: Segs, q: string) {
    segs == WithMeta(FileSegs(q))
  }

  /** A body file doubles as some entry's metadata file exactly when its last segment
      is a proper name followed by `.meta`. */
  lemma BodyClashesWithMetadata(p: string)
    ensures var last := FileSegs(p)[|FileSegs(p)| - 1];
            (exists q: string :: IsMetadataOf(FileSegs(p), q))
            <==> HasSuffix(last, ".meta") && Proper(TrimSuffix(last, ".meta"))
  {
    var last := FileSegs(p)[|FileSegs(p)| - 1];
    if q: string :| IsMetadataOf(FileSegs(p), q) {
      MetadataName(FileSegs(p), q);
    }
    if HasSuffix(last, ".meta") && Proper(TrimSuffix(last, ".meta")) {
      var q := StripMeta(FileSegs(p));
      assert IsMetadataOf(FileSegs(p), q);
    }
  }

  lemma MetadataName(segs: Segs, q: string)
    requires IsMetadataOf(segs, q)
    ensures |segs| >= 1
    ensures HasSuffix(segs[|segs| - 1], ".meta") && Proper(TrimSuffix(segs[|segs| - 1], ".meta"))
  {
    var name := FileSegs(q)[|FileSegs(q)| - 1];
    LastWithMeta(FileSegs(q));
    SuffixOf(name, ".meta");
  }

  lemma LastWithMeta(segs: Segs)
    requires |segs| >= 1
    ensures |WithMeta(segs)| == |segs| && WithMeta(segs)[|segs| - 1] == segs[|segs| - 1] + ".meta"
  {
  }

  lemma StripMeta(rel: Segs) returns (q: string)
    requires |rel| >= 1 && AllProper(rel)
    requires HasSuffix(rel[|rel| - 1], ".meta") && Proper(TrimSuffix(rel[|rel| - 1], ".meta"))
    ensures rel == WithMeta(FileSegs(q))
  {
    var name := TrimSuffix(rel[|rel| - 1], ".meta");
    assert rel[|rel| - 1] == name + ".meta";
    var other := rel[..|rel| - 1] + [name];
    FileOfSegs(other);
    q := Render(other);
  }

  /** Any non-empty sequence of proper segments is the file of its own rendering. */
  lemma FileOfSegs(segs: Segs)
    requires |segs| >= 1 && AllProper(segs)
    ensures FileSegs(Render(segs)) == segs
  {
    RenderSegments(segs);
    CleanExtraSlash(Render(segs));
    CleanFixed(Render(segs));
  }

  // ---- Entries as files ----------------------------------------------------

  /** The place of an entry below the base directory: its hub, then its file segments. */
  type Key = Segs

  function KeyOf(loc: Locator): Key {
    [loc.hub] + FileSegs(loc.path)
  }

  lemma RootHasNoSegments(p: string)
    ensures Segments("/") == [] && (Segments(p) != [] ==> p != "/")
  {
  }

  lemma MetaBehind(root: Segs, segs: Segs)
    requires segs != []
    ensures WithMeta(root + segs) == root + WithMeta(segs)
  {
  }

  /** The file of a locator, when the hub directory is known by its segments. */
  lemma FileBelow(base: string, loc: Locator, root: Segs)
    requires Rooted(base) && loc.hub != "" && Segments(JoinPath(base, loc.hub)) == root && root != []
    ensures EntryPath(base, loc).PathOk?
    ensures IsClean(EntryPath(base, loc).file) && Segments(EntryPath(base, loc).file) == root + FileSegs(loc.path)
  {
    hide EntryPath, JoinPath, FileSegs, Segments, IsClean;
    RootHasNoSegments(JoinPath(base, loc.hub));
    EntryPathBelowHub(base, loc);
  }

  /** For a hub whose name is one path segment, the key is where the body file lies, and the key with
      `.meta` behind it where the metadata file lies. */
  lemma KeyIsFile(base: string, loc: Locator)
    requires IsClean(base) && Proper(loc.hub)
    ensures EntryPath(base, loc).PathOk? && IsClean(EntryPath(base, loc).file)
    ensures Segments(EntryPath(base, loc).file) == Segments(base) + KeyOf(loc)
    ensures Segments(MetadataPath(EntryPath(base, loc).file)) == Segments(base) + WithMeta(KeyOf(loc))
  {
    hide EntryPath, JoinPath, FileSegs, Segments, WithMeta, MetadataPath;
    HubRootSegments(base, loc.hub);
    CleanIsRooted(base);
    FileBelow(base, loc, Segments(base) + [loc.hub]);
    assert Segments(base) + [loc.hub] + FileSegs(loc.path) == Segments(base) + KeyOf(loc);
    var file := EntryPath(base, loc).file;
    RootHasNoSegments(file);
    MetadataSegments(file);
    MetaBehind(Segments(base), KeyOf(loc));
  }

  lemma CleanIsRooted(p: string)
    requires IsClean(p)
    ensures Rooted(p)
  {
  }

  /** Two locators of such hubs share their file exactly when they have the same key. */
  lemma SameKeySameFile(base: string, a: Locator, b: Locator)
    requires IsClean(base) && Proper(a.hub) && Proper(b.hub)
    ensures EntryPath(base, a) == EntryPath(base, b) <==> KeyOf(a) == KeyOf(b)
  {
    hide EntryPath, KeyOf, Segments, WithMeta, IsClean;
    CleanIsRooted(base);
    KeyIsFile(base, a);
    KeyIsFile(base, b);
    SegmentsRender(EntryPath(base, a).file);
    SegmentsRender(EntryPath(base, b).file);
    var root := Segments(base);
    assert (root + KeyOf(a))[|root|..] == KeyOf(a) && (root + KeyOf(b))[|root|..] == KeyOf(b);
  }

  /** Clean paths name one file exactly when hub and path agree, but for `/` and `/root`. */
  lemma OneKeyPerCleanPath(a: Locator, b: Locator)
    requires IsClean(a.path) && IsClean(b.path)
    ensures KeyOf(a) == KeyOf(b) <==>
            a.hub == b.hub && (a.path == b.path || (a.path == "/" && b.path == "/root") || (a.path == "/root" && b.path == "/"))
  {
    hide FileSegs;
    FileOfClean(a.path);
    FileOfClean(b.path);
    RootSegments();
    SegmentsRender(a.path);
    SegmentsRender(b.path);
    SegmentsRender("/root");
    SegmentsRender("/");
    assert KeyOf(a)[0] == a.hub && KeyOf(b)[0] == b.hub;
    assert KeyOf(a)[1..] == FileSegs(a.path) && KeyOf(b)[1..] == FileSegs(b.path);
    hide Segments, IsClean, Render;
  }

  lemma FileOfClean(p: string)
    requires IsClean(p)
    ensures FileSegs(p) == if p == "/" then ["root"] else Segments(p)
  {
    CleanExtraSlash(p);
    CleanFixed(p);
    SegmentsRender(p);
    assert Segments("/") == [];
  }

  lemma RootSegments()
    ensures Segments("/root") == ["root"] && IsClean("/root") && Segments("/") == []
  {
    RenderSegments(["root"]);
    assert Render(["root"]) == "/root";
  }

  /** A hub name with a slash reaches into another hub's directory: hub `x/y` and hub `x` share files. */
  lemma NestedHubsShareFiles(base: string, x: string, y: string, path: string)
    requires IsClean(base) && Proper(x) && Proper(y)
    ensures EntryPath(base, Locator(x + "/" + y, path)).PathOk?
    ensures EntryPath(base, Locator(x + "/" + y, path)) == EntryPath(base, Locator(x, Render([y] + FileSegs(path))))
  {
    var outer, inner := Locator(x, Render([y] + FileSegs(path))), Locator(x + "/" + y, path);
    hide EntryPath, JoinPath, FileSegs, Segments, IsClean, Render;
    FileOfSegs([y] + FileSegs(path));
    TwoSegments(x, y);
    HubRootSegments(base, x);
    JoinedPath(base, [x, y]);
    CleanIsRooted(base);
    FileBelow(base, outer, Segments(base) + [x]);
    FileBelow(base, inner, Segments(base) + [x, y]);
    assert Segments(base) + [x] + ([y] + FileSegs(path)) == Segments(base) + [x, y] + FileSegs(path);
    SegmentsRender(EntryPath(base, outer).file);
    SegmentsRender(EntryPath(base, inner).file);
  }

  lemma TwoSegments(x: string, y: string)
    ensures Join([x, y], '/') == x + "/" + y
  {
    assert [x, y][1..] == [y];
  }

  // ---- Which hubs share files ------------------------------------------------

  /** The directory of a hub, by its segments. */
  function HubSegs(base: string, hub: string): Segs
    requires Rooted(base)
  {
    Segments(JoinPath(base, hub))
  }

  ghost predicate ShareFile(base: string, h1: string, p: string, h2: string, q: string)
    requires Rooted(base)
  {
    EntryPath(base, Locator(h1, p)).PathOk? && EntryPath(base, Locator(h1, p)) == EntryPath(base, Locator(h2, q))
  }

  predicate OneInsideOther(r1: Segs, r2: Segs) {
    r1 <= r2 || r2 <= r1
  }

  lemma HubOfFile(base: string, loc: Locator)
    requires Rooted(base) && EntryPath(base, loc).PathOk?
    ensures loc.hub != "" && HubSegs(base, loc.hub) != []
  {
    EntryPathBelowHub(base, loc);
    SegmentsRender(JoinPath(base, loc.hub));
    assert Render([]) == "/";
    hide JoinPath;
  }

  lemma SharedMeansInside(r1: Segs, f1: Segs, r2: Segs, f2: Segs)
    requires r1 + f1 == r2 + f2
    ensures OneInsideOther(r1, r2)
  {
    assert (r1 + f1)[..|r1|] == r1 && (r2 + f2)[..|r2|] == r2;
    if |r1| <= |r2| {
      assert r1 == (r2 + f2)[..|r1|] == r2[..|r1|];
    } else {
      assert r2 == (r1 + f1)[..|r2|] == r1[..|r2|];
    }
  }

  lemma HubSegsProper(base: string, hub: string)
    requires Rooted(base)
    ensures AllProper(HubSegs(base, hub))
  {
    CleanSegments(base + "/" + hub);
  }

  /** A file of the inner hub is one of the outer hub, under a longer path. */
  lemma InnerFile(base: string, outer: string, inner: string) returns (p: string, q: string)
    requires Rooted(base) && outer != "" && inner != ""
    requires HubSegs(base, outer) != [] && HubSegs(base, outer) <= HubSegs(base, inner)
    ensures ShareFile(base, outer, p, inner, q)
  {
    hide EntryPath, JoinPath, FileSegs, Segments, IsClean, Render, Proper;
    var r1, r2 := HubSegs(base, outer), HubSegs(base, inner);
    HubSegsProper(base, inner);
    q := "";
    var extra := r2[|r1|..] + FileSegs(q);
    FileOfSegs(extra);
    p := Render(extra);
    FileBelow(base, Locator(outer, p), r1);
    FileBelow(base, Locator(inner, q), r2);
    assert r1 + extra == r2 + FileSegs(q);
    SegmentsRender(EntryPath(base, Locator(outer, p)).file);
    SegmentsRender(EntryPath(base, Locator(inner, q)).file);
  }

  /** Two hubs have a file in common exactly when the directory of one is, or lies inside, that of the
      other; the names and the base directory alone decide this. */
  lemma HubsShareExactly(base: string, h1: string, h2: string)
    requires Rooted(base) && h1 != "" && h2 != ""
    ensures (exists p, q :: ShareFile(base, h1, p, h2, q)) <==>
            HubSegs(base, h1) != [] && HubSegs(base, h2) != [] && OneInsideOther(HubSegs(base, h1), HubSegs(base, h2))
  {
    var r1, r2 := HubSegs(base, h1), HubSegs(base, h2);
    if p, q :| ShareFile(base, h1, p, h2, q) {
      HubOfFile(base, Locator(h1, p));
      HubOfFile(base, Locator(h2, q));
      hide EntryPath, JoinPath, FileSegs, Segments;
      FileBelow(base, Locator(h1, p), r1);
      FileBelow(base, Locator(h2, q), r2);
      SharedMeansInside(r1, FileSegs(p), r2, FileSegs(q));
    }
    hide EntryPath, HubSegs;
    if r1 != [] && r2 != [] {
      if r1 <= r2 {
        var p, q := InnerFile(base, h1, h2);
      } else if r2 <= r1 {
        var q, p := InnerFile(base, h2, h1);
        assert ShareFile(base, h1, p, h2, q);
      }
    }
  }

  lemma FilesOfHub(base: string, loc: Locator)
    requires Rooted(base) && loc.hub != "" && HubSegs(base, loc.hub) != []
    ensures EntryPath(base, loc).PathOk?
    ensures Segments(EntryPath(base, loc).file) == HubSegs(base, loc.hub) + FileSegs(loc.path)
    ensures Segments(MetadataPath(EntryPath(base, loc).file)) == HubSegs(base, loc.hub) + WithMeta(FileSegs(loc.path))
  {
    hide EntryPath, JoinPath, FileSegs, Segments, IsClean, MetadataPath, WithMeta;
    FileBelow(base, loc, HubSegs(base, loc.hub));
    var file := EntryPath(base, loc).file;
    RootHasNoSegments(file);
    MetadataSegments(file);
    MetaBehind(HubSegs(base, loc.hub), FileSegs(loc.path));
  }

  /** Hubs that are not inside each other share neither body nor metadata files. */
  lemma SeparateHubsShareNothing(base: string, a: Locator, b: Locator)
    requires Rooted(base) && a.hub != "" && b.hub != "" && HubSegs(base, a.hub) != [] && HubSegs(base, b.hub) != []
    requires !OneInsideOther(HubSegs(base, a.hub), HubSegs(base, b.hub))
    ensures EntryPath(base, a).PathOk? && EntryPath(base, b).PathOk?
    ensures var fa, fb := EntryPath(base, a).file, EntryPath(base, b).file;
            {fa, MetadataPath(fa)} !! {fb, MetadataPath(fb)}
  {
    hide EntryPath, HubSegs, FileSegs, Segments, MetadataPath, WithMeta, OneInsideOther;
    FilesOfHub(base, a);
    FilesOfHub(base, b);
    var ra, rb := HubSegs(base, a.hub), HubSegs(base, b.hub);
    forall x, y | x in {FileSegs(a.path), WithMeta(FileSegs(a.path))} && y in {FileSegs(b.path), WithMeta(FileSegs(b.path))}
      ensures ra + x != rb + y
    {
      if ra + x == rb + y {
        SharedMeansInside(ra, x, rb, y);
      }
    }
    var fa, fb := EntryPath(base, a).file, EntryPath(base, b).file;
    assert Segments(fa) != Segments(fb) && Segments(fa) != Segments(MetadataPath(fb));
    assert Segments(MetadataPath(fa)) != Segments(fb) && Segments(MetadataPath(fa)) != Segments(MetadataPath(fb));
  }

  /** For a plain base directory and hub names made of proper segments, that is the prefix order of the
      names' own segments. */
  lemma HubNamesDecide(base: string, n1: Segs, n2: Segs)
    requires IsClean(base) && n1 != [] && n2 != [] && AllProper(n1) && AllProper(n2)
    ensures HubSegs(base, Join(n1, '/')) != [] && HubSegs(base, Join(n2, '/')) != []
    ensures OneInsideOther(HubSegs(base, Join(n1, '/')), HubSegs(base, Join(n2, '/'))) <==> OneInsideOther(n1, n2)
  {
    JoinedPath(base, n1);
    JoinedPath(base, n2);
    hide JoinPath, Segments, Join;
    SamePrefix(Segments(base), n1, n2);
    SamePrefix(Segments(base), n2, n1);
  }

  lemma SamePrefix(b: Segs, x: Segs, y: Segs)
    ensures b + x <= b + y <==> x <= y
  {
    assert (b + x)[|b|..] == x && (b + y)[|b|..] == y;
    if b + x <= b + y {
      assert x == (b + x)[|b|..] == (b + y)[..|b + x|][|b|..] == y[..|x|];
    }
  }
}
