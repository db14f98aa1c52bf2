/** Go's `path.Clean` on rooted paths, as the stack machine it is, and the
    correspondence between clean path strings and sequences of proper segments. */
module GoPath {
  import opened Text

  type Segs = seq<string>

  predicate Proper(seg: string) {
    seg != "" && seg != "." && seg != ".." && '/' !in seg
  }

  predicate AllProper(segs: Segs) {
    forall i :: 0 <= i < |segs| ==> Proper(segs[i])
  }

  /** One path element processed: skipped, popped or pushed. */
  function Push(stack: Segs, seg: string): Segs {
    if seg == "" || seg == "." then stack
    else if seg == ".." then (if stack == [] then [] else stack[..|stack| - 1])
    else stack + [seg]
  }

  function Resolve(stack: Segs, segs: Segs): Segs
    decreases |segs|
  {
    if segs == [] then stack else Resolve(Push(stack, segs[0]), segs[1..])
  }

  function Render(segs: Segs): string {
    "/" + Join(segs, '/')
  }

  predicate Rooted(p: string) {
    "/" <= p
  }

  /** `path.Clean` for a path that starts with a slash. */
  function Clean(p: string): string
    requires Rooted(p)
  {
    Render(Resolve([], Split(p, '/')))
  }

  /** The elements of a clean path. */
  function Segments(p: string): Segs {
    if |p| <= 1 then [] else Split(p[1..], '/')
  }

  predicate IsClean(p: string) {
    Rooted(p) && AllProper(Segments(p))
  }

  lemma {:induction false} ResolveProper(stack: Segs, segs: Segs)
    requires AllProper(stack)
    requires forall i :: 0 <= i < |segs| ==> '/' !in segs[i]
    ensures AllProper(Resolve(stack, segs))
    decreases |segs|
  {
    if segs == [] {
    } else {
      ResolveProper(Push(stack, segs[0]), segs[1..]);
    }
  }

  lemma {:induction false} ResolvePushesProper(stack: Segs, segs: Segs)
    requires AllProper(segs)
    ensures Resolve(stack, segs) == stack + segs
    decreases |segs|
  {
    if segs != [] {
      assert Proper(segs[0]);
      ResolvePushesProper(stack + [segs[0]], segs[1..]);
      assert (stack + [segs[0]]) + segs[1..] == stack + segs;
    } else {
      assert stack + segs == stack;
    }
  }

  lemma {:induction false} ResolveConcat(stack: Segs, a: Segs, b: Segs)
    ensures Resolve(stack, a + b) == Resolve(Resolve(stack, a), b)
    decreases |a|
  {
    if a == [] {
      assert a + b == b;
    } else {
      assert (a + b)[0] == a[0] && (a + b)[1..] == a[1..] + b;
      ResolveConcat(Push(stack, a[0]), a[1..], b);
    }
  }

  /** Rendering is a bijection from sequences of proper segments to clean paths. */
  lemma RenderSegments(segs: Segs)
    requires AllProper(segs)
    ensures Segments(Render(segs)) == segs
    ensures IsClean(Render(segs))
  {
    if segs != [] {
      assert Proper(segs[0]);
      assert |Join(segs, '/')| > 0;
      assert Render(segs)[1..] == Join(segs, '/');
      SplitJoin(segs, '/');
    }
  }

  lemma SegmentsRender(p: string)
    requires IsClean(p)
    ensures Render(Segments(p)) == p
  {
    if |p| > 1 {
      JoinSplit(p[1..], '/');
      assert p == "/" + p[1..];
    } else {
      assert p == "/";
    }
  }

  lemma CleanSegments(p: string)
    requires Rooted(p)
    ensures IsClean(Clean(p))
    ensures Segments(Clean(p)) == Resolve([], Split(p, '/'))
  {
    ResolveProper([], Split(p, '/'));
    RenderSegments(Resolve([], Split(p, '/')));
  }

  /** A leading slash splits off as an empty element, which `Clean` skips. */
  lemma ResolveRooted(p: string)
    requires Rooted(p)
    ensures Resolve([], Split(p, '/')) == Resolve([], Split(p[1..], '/'))
  {
    assert p == "" + ['/'] + p[1..];
    SplitConcat("", '/', p[1..]);
    ResolveConcat([], [""], Split(p[1..], '/'));
    assert [""][0] == "" && [""][1..] == [];
    assert Resolve([], [""]) == Resolve(Push([], ""), []);
  }

  /** The fixed points of `Clean` are exactly the clean paths. */
  lemma CleanFixed(p: string)
    requires Rooted(p)
    ensures Clean(p) == p <==> IsClean(p)
  {
    CleanSegments(p);
    if IsClean(p) {
      ResolveRooted(p);
      if |p| > 1 {
        ResolvePushesProper([], Segments(p));
        assert [] + Segments(p) == Segments(p);
      } else {
        assert p[1..] == "";
        assert [""][1..] == [];
        assert Resolve([], [""]) == Resolve(Push([], ""), []);
      }
      SegmentsRender(p);
    }
  }

  lemma CleanIdempotent(p: string)
    requires Rooted(p)
    ensures Rooted(Clean(p)) && Clean(Clean(p)) == Clean(p)
  {
    CleanSegments(p);
    CleanFixed(Clean(p));
  }

  /** One more leading slash changes nothing. */
  lemma CleanExtraSlash(p: string)
    requires Rooted(p)
    ensures Clean("/" + p) == Clean(p)
  {
    ResolveRooted("/" + p);
    assert ("/" + p)[1..] == p;
  }

  /** Cleaning a clean path with more text behind it resolves that text from its end. */
  lemma CleanAppend(p: string, rest: string)
    requires IsClean(p)
    ensures Clean(p + "/" + rest) == Render(Resolve(Segments(p), Split(rest, '/')))
  {
    SplitConcat(p, '/', rest);
    ResolveConcat([], Split(p, '/'), Split(rest, '/'));
    CleanFixed(p);
    CleanSegments(p);
  }

  /** What one more element does to a cleaned path: nothing for an empty one or a dot, one segment less for two
      dots but never above the root, one more for any other. With the root, this determines `Clean`. */
  lemma CleanStep(p: string, seg: string)
    requires Rooted(p) && '/' !in seg
    ensures var segs := Segments(Clean(p));
            Segments(Clean(p + "/" + seg)) ==
            if seg in {"", "."} then segs
            else if seg == ".." then segs[..if segs == [] then 0 else |segs| - 1]
            else segs + [seg]
    ensures Clean("/") == "/"
  {
    var split := Split(p, '/');
    SplitConcat(p, '/', seg);
    SplitFree(seg, '/');
    ResolveConcat([], split, [seg]);
    CleanSegments(p);
    CleanSegments(p + "/" + seg);
    CleanFixed("/");
    OneElement(Resolve([], split), seg);
    hide Resolve;
  }

  lemma OneElement(stack: Segs, seg: string)
    ensures Resolve(stack, [seg]) == Push(stack, seg)
  {
    assert [seg][1..] == [];
    assert Resolve(Push(stack, seg), []) == Push(stack, seg);
  }

  /** Appending proper segments to a clean path is textual concatenation, except at the root. */
  lemma RenderConcat(a: Segs, b: Segs)
    requires a != [] && b != []
    ensures Render(a + b) == Render(a) + Render(b)
  {
    JoinConcat(a, b, '/');
  }

  /** Text between two slashes (or the ends) is a segment. */
  lemma SegmentBetween(a: string, seg: string, b: string)
    requires '/' !in seg
    ensures Split(a + "/" + seg + "/" + b, '/') == Split(a, '/') + [seg] + Split(b, '/')
    ensures Split(a + "/" + seg, '/') == Split(a, '/') + [seg]
  {
    SplitConcat(a + "/" + seg, '/', b);
    SplitConcat(a, '/', seg);
    SplitFree(seg, '/');
  }

  /** An occurrence of a text splits the whole around it. */
  lemma SplitAround(p: string, sub: string, i: nat)
    requires i + |sub| <= |p| && sub <= p[i..]
    ensures p == p[..i] + sub + p[i + |sub|..]
  {
    assert p[i..][..|sub|] == sub;
    assert p[i..i + |sub|] == sub;
    assert p == p[..i] + p[i..i + |sub|] + p[i + |sub|..];
  }

  lemma ContainedIsInner(p: string, seg: string) returns (k: nat)
    requires '/' !in seg && Contains(p, "/" + seg + "/")
    ensures 0 < k < |Split(p, '/')| - 1 && Split(p, '/')[k] == seg
  {
    var sub := "/" + seg + "/";
    var i := Index(p, sub);
    SplitAround(p, sub, i);
    var a, b := p[..i], p[i + |sub|..];
    assert a + sub + b == a + "/" + seg + "/" + b;
    SegmentBetween(a, seg, b);
    k := |Split(a, '/')|;
  }

  lemma InnerIsContained(p: string, seg: string, k: nat)
    requires 0 < k < |Split(p, '/')| - 1 && Split(p, '/')[k] == seg
    ensures Contains(p, "/" + seg + "/")
  {
    hide Split, Join, Contains;
    SegmentAt(p, k);
    var a, b := Join(Split(p, '/')[..k], '/'), Join(Split(p, '/')[k + 1..], '/');
    Assoc(a + "/", seg, "/");
    Assoc(a, "/", seg + "/");
    Assoc("/", seg, "/");
    ContainsMiddle(a, "/" + seg + "/", b);
  }

  /** A path contains `/seg/` exactly when `seg` is one of its inner segments. */
  lemma ContainsInnerSegment(p: string, seg: string)
    requires '/' !in seg
    ensures Contains(p, "/" + seg + "/") <==>
            exists k :: 0 < k < |Split(p, '/')| - 1 && Split(p, '/')[k] == seg
  {
    if Contains(p, "/" + seg + "/") {
      var k := ContainedIsInner(p, seg);
    }
    if k :| 0 < k < |Split(p, '/')| - 1 && Split(p, '/')[k] == seg {
      InnerIsContained(p, seg, k);
    }
  }

  /** A path falls apart around any of its inner segments. */
  lemma SegmentAt(p: string, k: nat)
    requires 0 < k < |Split(p, '/')| - 1
    ensures var segs := Split(p, '/');
            p == Join(segs[..k], '/') + "/" + segs[k] + "/" + Join(segs[k + 1..], '/')
  {
    var segs := Split(p, '/');
    JoinSplit(p, '/');
    assert segs == segs[..k] + ([segs[k]] + segs[k + 1..]);
    JoinConcat(segs[..k], [segs[k]] + segs[k + 1..], '/');
    JoinConcat([segs[k]], segs[k + 1..], '/');
  }

  lemma RenderThree(a: string, b: string, c: string)
    ensures Render([a, b, c]) == "/" + a + "/" + b + "/" + c
  {
    assert [a, b, c][1..] == [b, c] && [b, c][1..] == [c];
    assert Join([b, c], '/') == b + "/" + c;
    assert Render([a, b, c]) == "/" + (a + "/" + (b + "/" + c));
    Assoc("/", a + "/", b + "/" + c);
    Assoc("/", a, "/");
    Assoc("/" + a + "/", b + "/", c);
    Assoc("/" + a + "/", b, "/");
  }

  lemma CutSlash(a: string, b: string)
    requires '/' !in a
    ensures Cut(a + ("/" + b), '/') == (a, b, true)
  {
    Assoc(a, "/", b);
    CutAt(a, '/', b);
  }

  /** Dropping the first of several elements of a clean path leaves a clean path that is not the root. */
  lemma TailAfterCut(p: string, first: string, rest: string)
    requires IsClean(p) && p == "/" + first + "/" + rest && '/' !in first
    ensures IsClean("/" + rest) && "/" + rest != "/"
  {
    assert p[1..] == first + "/" + rest;
    SplitConcat(first, '/', rest);
    SplitFree(first, '/');
    var tail := Split(rest, '/');
    assert Segments(p) == [first] + tail;
    forall i | 0 <= i < |tail| ensures Proper(tail[i]) {
      assert Proper(Segments(p)[i + 1]);
    }
    assert Proper(tail[0]);
    assert ("/" + rest)[1..] == rest;
  }
}
