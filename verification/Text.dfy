/** The string operations of Go's `strings` package that the proxy relies on,
    over sequences of characters, with the laws the other modules use. */
module Text {

  predicate HasPrefix(s: string, p: string) {
    p <= s
  }

  predicate HasSuffix(s: string, x: string) {
    |x| <= |s| && s[|s| - |x|..] == x
  }

  function TrimPrefix(s: string, p: string): string {
    if p <= s then s[|p|..] else s
  }

  function TrimSuffix(s: string, x: string): string {
    if HasSuffix(s, x) then s[..|s| - |x|] else s
  }

  lemma Assoc(a: string, b: string, c: string)
    ensures a + b + c == a + (b + c)
  {
  }

  lemma SuffixOf(name: string, x: string)
    ensures HasSuffix(name + x, x) && TrimSuffix(name + x, x) == name
  {
  }

  /** The first position of `sub` in `s`, or -1. */
  function Index(s: string, sub: string): (i: int)
    ensures -1 <= i <= |s|
    ensures i >= 0 ==> sub <= s[i..]
  {
    if sub <= s then 0
    else if s == "" then -1
    else var r := Index(s[1..], sub); if r < 0 then -1 else r + 1
  }

  predicate Contains(s: string, sub: string) {
    Index(s, sub) >= 0
  }

  /** `Index` finds the first occurrence, and finds one whenever there is one. */
  lemma {:induction false} IndexIsFirst(s: string, sub: string, k: nat)
    requires k <= |s| && sub <= s[k..]
    ensures 0 <= Index(s, sub) <= k
  {
    if !(sub <= s) {
      assert s[k..] == s[1..][k - 1..];
      IndexIsFirst(s[1..], sub, k - 1);
    }
  }

  lemma {:induction false} IndexAt(s: string, sub: string, k: nat)
    requires k <= |s| && sub <= s[k..]
    requires forall j: nat :: j < k ==> !(sub <= s[j..])
    ensures Index(s, sub) == k
  {
    IndexIsFirst(s, sub, k);
    var i := Index(s, sub);
    assert sub <= s[i..];
  }

  lemma ContainsMiddle(a: string, sub: string, b: string)
    ensures Contains(a + sub + b, sub)
  {
    var s := a + sub + b;
    assert s[|a|..] == sub + b;
    IndexIsFirst(s, sub, |a|);
  }

  /** Cuts `s` at the first `c`: the text before, the text after, and whether `c` occurs. */
  function Cut(s: string, c: char): (r: (string, string, bool))
    ensures c !in r.0
    ensures r.2 ==> s == r.0 + [c] + r.1
    ensures !r.2 ==> s == r.0 && r.1 == ""
  {
    if s == "" then ("", "", false)
    else if s[0] == c then ("", s[1..], true)
    else var r := Cut(s[1..], c); ([s[0]] + r.0, r.1, r.2)
  }

  lemma {:induction false} CutAt(a: string, c: char, b: string)
    requires c !in a
    ensures Cut(a + [c] + b, c) == (a, b, true)
  {
    if a == "" {
      assert a + [c] + b == [c] + b;
    } else {
      var s := a + [c] + b;
      assert s[0] == a[0] && s[1..] == a[1..] + [c] + b;
      CutAt(a[1..], c, b);
      assert [a[0]] + a[1..] == a;
    }
  }

  lemma {:induction false} CutNone(a: string, c: char)
    requires c !in a
    ensures Cut(a, c) == (a, "", false)
  {
    if a == "" {
    } else {
      CutNone(a[1..], c);
    }
  }

  /** Cuts at the last `c`. */
  function CutLast(s: string, c: char): (r: (string, string, bool))
    ensures c !in r.1
    ensures r.2 ==> s == r.0 + [c] + r.1
    ensures !r.2 ==> c !in s
  {
    if s == "" then ("", "", false)
    else if s[|s| - 1] == c then (s[..|s| - 1], "", true)
    else
      var r := CutLast(s[..|s| - 1], c);
      if r.2 then (r.0, r.1 + [s[|s| - 1]], true) else ("", "", false)
  }

  lemma {:induction false} CutLastAt(a: string, c: char, b: string)
    requires c !in b
    ensures CutLast(a + [c] + b, c) == (a, b, true)
  {
    var s := a + [c] + b;
    if b == "" {
      assert s[..|s| - 1] == a;
    } else {
      assert s[..|s| - 1] == a + [c] + b[..|b| - 1];
      CutLastAt(a, c, b[..|b| - 1]);
      assert b[..|b| - 1] + [b[|b| - 1]] == b;
    }
  }

  /** `strings.Split` on a one-character separator: never empty, every piece free of the separator. */
  function Split(s: string, c: char): (r: seq<string>)
    ensures |r| >= 1
    ensures forall i :: 0 <= i < |r| ==> c !in r[i]
  {
    if s == "" then [""] else Glue(s[0], c, Split(s[1..], c))
  }

  /** One character put in front of an already split text. */
  function Glue(ch: char, c: char, rest: seq<string>): (r: seq<string>)
    requires |rest| >= 1
    ensures |r| >= 1
    ensures (forall i :: 0 <= i < |rest| ==> c !in rest[i]) ==> forall i :: 0 <= i < |r| ==> c !in r[i]
  {
    if ch == c then [""] + rest else [[ch] + rest[0]] + rest[1..]
  }

  lemma GlueConcat(ch: char, c: char, ra: seq<string>, rb: seq<string>)
    requires |ra| >= 1
    ensures Glue(ch, c, ra + rb) == Glue(ch, c, ra) + rb
  {
    assert (ra + rb)[0] == ra[0] && (ra + rb)[1..] == ra[1..] + rb;
  }

  function Join(parts: seq<string>, c: char): string {
    if |parts| == 0 then ""
    else if |parts| == 1 then parts[0]
    else parts[0] + [c] + Join(parts[1..], c)
  }

  lemma {:induction false} SplitFree(s: string, c: char)
    requires c !in s
    ensures Split(s, c) == [s]
  {
    if s == "" {
    } else {
      SplitFree(s[1..], c);
      assert s[0] != c && [s[0]] + s[1..] == s;
    }
  }

  /** Splitting distributes over the separator. */
  lemma {:induction false} SplitConcat(a: string, c: char, b: string)
    ensures Split(a + [c] + b, c) == Split(a, c) + Split(b, c)
  {
    var s := a + [c] + b;
    if a == "" {
      assert s == [c] + b;
      assert s[1..] == b;
    } else {
      assert s[0] == a[0] && s[1..] == a[1..] + [c] + b;
      SplitConcat(a[1..], c, b);
      GlueConcat(a[0], c, Split(a[1..], c), Split(b, c));
    }
  }

  /** The first piece of a split starts with any separator-free prefix. */
  lemma {:induction false} SplitHead(x: string, b: string, c: char)
    requires c !in x
    ensures Split(x + b, c) == [x + Split(b, c)[0]] + Split(b, c)[1..]
  {
    if x == "" {
      assert x + b == b;
      assert "" + Split(b, c)[0] == Split(b, c)[0];
    } else {
      assert (x + b)[1..] == x[1..] + b;
      SplitHead(x[1..], b, c);
      assert [x[0]] + (x[1..] + Split(b, c)[0]) == x + Split(b, c)[0];
    }
  }

  lemma {:induction false} JoinConcat(a: seq<string>, b: seq<string>, c: char)
    requires |a| >= 1 && |b| >= 1
    ensures Join(a + b, c) == Join(a, c) + [c] + Join(b, c)
  {
    if |a| == 1 {
      assert (a + b)[1..] == b;
    } else {
      assert (a + b)[1..] == a[1..] + b;
      JoinConcat(a[1..], b, c);
      assert a[0] + [c] + (Join(a[1..], c) + [c] + Join(b, c)) == Join(a, c) + [c] + Join(b, c);
    }
  }

  lemma {:induction false} JoinSplit(s: string, c: char)
    ensures Join(Split(s, c), c) == s
  {
    if s == "" {
    } else {
      JoinSplit(s[1..], c);
      var rest := Split(s[1..], c);
      if s[0] == c {
        JoinConcat([""], rest, c);
        assert Join([""], c) == "";
        assert "" + [c] + s[1..] == s;
      } else {
        var r := [[s[0]] + rest[0]] + rest[1..];
        assert r[1..] == rest[1..];
        assert s == [s[0]] + s[1..];
        if |rest| > 1 {
          assert [s[0]] + (rest[0] + [c] + Join(rest[1..], c)) == ([s[0]] + rest[0]) + [c] + Join(rest[1..], c);
        }
      }
    }
  }

  lemma {:induction false} SplitJoin(parts: seq<string>, c: char)
    requires |parts| >= 1
    requires forall i :: 0 <= i < |parts| ==> c !in parts[i]
    ensures Split(Join(parts, c), c) == parts
  {
    SplitFree(parts[0], c);
    if |parts| > 1 {
      SplitConcat(parts[0], c, Join(parts[1..], c));
      SplitJoin(parts[1..], c);
      assert [parts[0]] + parts[1..] == parts;
    } else {
      assert parts == [parts[0]];
    }
  }

  function TrimSlashes(s: string): string
    decreases |s|
  {
    if s != "" && s[0] == '/' then TrimSlashes(s[1..])
    else if s != "" && s[|s| - 1] == '/' then TrimSlashes(s[..|s| - 1])
    else s
  }

  /** Unicode white space, as `strings.TrimSpace` defines it. */
  predicate IsSpace(ch: char) {
    ch in {'\t', '\n', '\r', ' '} || ch as int in {0x0B, 0x0C, 0x85, 0xA0, 0x1680, 0x2028, 0x2029, 0x202F, 0x205F, 0x3000} ||
    0x2000 <= ch as int <= 0x200A
  }

  function TrimLeftSpace(s: string): string {
    if s != "" && IsSpace(s[0]) then TrimLeftSpace(s[1..]) else s
  }

  function TrimRightSpace(s: string): string {
    if s != "" && IsSpace(s[|s| - 1]) then TrimRightSpace(s[..|s| - 1]) else s
  }

  function TrimSpace(s: string): string {
    TrimRightSpace(TrimLeftSpace(s))
  }

  predicate NoEdgeSpace(s: string) {
    s != "" ==> !IsSpace(s[0]) && !IsSpace(s[|s| - 1])
  }

  lemma TrimSpaceIdentity(s: string)
    requires NoEdgeSpace(s)
    ensures TrimSpace(s) == s
  {
  }

  lemma {:induction false} TrimSpaceWithin(s: string)
    ensures forall c :: c in TrimSpace(s) ==> c in s
  {
    TrimLeftWithin(s);
    TrimRightWithin(TrimLeftSpace(s));
  }

  lemma {:induction false} TrimLeftWithin(s: string)
    ensures forall c :: c in TrimLeftSpace(s) ==> c in s
  {
    if s != "" && IsSpace(s[0]) {
      TrimLeftWithin(s[1..]);
    }
  }

  lemma {:induction false} TrimRightWithin(s: string)
    ensures forall c :: c in TrimRightSpace(s) ==> c in s
  {
    if s != "" && IsSpace(s[|s| - 1]) {
      TrimRightWithin(s[..|s| - 1]);
    }
  }

  /** Only ASCII letters change case in this model. */
  function LowerChar(ch: char): char {
    if 'A' <= ch <= 'Z' then (ch as int + 32) as char else ch
  }

  function ToLower(s: string): (r: string)
    ensures |r| == |s|
    ensures forall i :: 0 <= i < |s| ==> r[i] == LowerChar(s[i])
  {
    if s == "" then "" else [LowerChar(s[0])] + ToLower(s[1..])
  }

  lemma LowerFixed(s: string)
    requires forall i :: 0 <= i < |s| ==> LowerChar(s[i]) == s[i]
    ensures ToLower(s) == s
  {
  }

  predicate EqualFold(a: string, b: string) {
    ToLower(a) == ToLower(b)
  }
}
