/** Reading a `WWW-Authenticate` header: the Bearer challenge and its parameters. */
module Auth {
  import opened Text

  type Params = map<string, string>

  /** A parameter as a server writes it, with its value in quotes or without. */
  datatype Param = Param(key: string, value: string, quoted: bool)

  datatype Challenge = NoChallenge | Bearer(realm: string, service: string, scope: string)

  function TrimQuotesLeft(s: string): string {
    if s != "" && s[0] == '"' then TrimQuotesLeft(s[1..]) else s
  }

  function TrimQuotesRight(s: string): string {
    if s != "" && s[|s| - 1] == '"' then TrimQuotesRight(s[..|s| - 1]) else s
  }

  function TrimQuotes(s: string): string {
    TrimQuotesRight(TrimQuotesLeft(s))
  }

  /** The effect of one comma-separated part on the parameters read so far. */
  function AddPart(params: Params, part: string): Params {
    AddText(params, TrimSpace(part))
  }

  function AddText(params: Params, text: string): Params {
    var (key, value, found) := Cut(text, '=');
    if text == "" || !found then params
    else params[ToLower(TrimSpace(key)) := TrimQuotes(TrimSpace(value))]
  }

  function AddParts(params: Params, parts: seq<string>): Params
    decreases |parts|
  {
    if parts == [] then params else AddParts(AddPart(params, parts[0]), parts[1..])
  }

  function AuthParams(input: string): Params {
    AddParts(map[], Split(input, ','))
  }

  /** `parseAuthParams`. */
  method ParseAuthParams(input: string) returns (params: Params)
    ensures params == AuthParams(input)
  {
    params := map[];
    var parts := Split(input, ',');
    for i := 0 to |parts|
      invariant AddParts(params, parts[i..]) == AuthParams(input)
    {
      assert parts[i..][1..] == parts[i + 1..];
      var part := TrimSpace(parts[i]);
      if part == "" {
        continue;
      }
      var (key, value, found) := Cut(part, '=');
      if !found {
        continue;
      }
      params := params[ToLower(TrimSpace(key)) := TrimQuotes(TrimSpace(value))];
    }
  }

  function Get(params: Params, key: string): string {
    if key in params then params[key] else ""
  }

  const SCHEME := "bearer "

  /** The challenge in one header value, if it is a Bearer challenge with a realm. */
  function ChallengeOf(raw: string): Challenge {
    var text := TrimSpace(raw);
    if |text| < |SCHEME| || !HasPrefix(ToLower(text), SCHEME) then NoChallenge
    else
      var params := AuthParams(text[|SCHEME|..]);
      if Get(params, "realm") == "" then NoChallenge
      else Bearer(Get(params, "realm"), Get(params, "service"), Get(params, "scope"))
  }

  /** `parseBearerChallenge`: the first header value that holds a usable challenge wins. */
  method ParseBearerChallenge(values: seq<string>) returns (c: Challenge)
    ensures c == FirstChallenge(values)
    ensures c.NoChallenge? <==> forall i :: 0 <= i < |values| ==> ChallengeOf(values[i]).NoChallenge?
    ensures c.Bearer? ==> exists i :: 0 <= i < |values| && c == ChallengeOf(values[i]) &&
                            forall j :: 0 <= j < i ==> ChallengeOf(values[j]).NoChallenge?
  {
    for i := 0 to |values|
      invariant forall j :: 0 <= j < i ==> ChallengeOf(values[j]).NoChallenge?
      invariant FirstChallenge(values) == FirstChallenge(values[i..])
    {
      assert values[i..][0] == values[i] && values[i..][1..] == values[i + 1..];
      var raw := TrimSpace(values[i]);
      if raw == "" {
        continue;
      }
      LowerPrefix(raw, SCHEME);
      if !HasPrefix(ToLower(raw), SCHEME) {
        continue;
      }
      var params := ParseAuthParams(raw[|SCHEME|..]);
      if Get(params, "realm") == "" {
        continue;
      }
      return Bearer(Get(params, "realm"), Get(params, "service"), Get(params, "scope"));
    }
    return NoChallenge;
  }

  function FirstChallenge(values: seq<string>): Challenge {
    if values == [] then NoChallenge
    else if ChallengeOf(values[0]).Bearer? then ChallengeOf(values[0])
    else FirstChallenge(values[1..])
  }

  lemma LowerPrefix(s: string, p: string)
    ensures HasPrefix(ToLower(s), p) ==> |s| >= |p|
  {
  }

  // ---- Printing and reading back ------------------------------------------------

  function PrintParam(p: Param): string {
    p.key + "=" + ValueText(p)
  }

  function ValueText(p: Param): string {
    if p.quoted then "\"" + p.value + "\"" else p.value
  }

  /** The parameters of a challenge, as section 11.2 of RFC 9110 and section 3 of RFC 6750 write them. */
  function PrintParams(ps: seq<Param>): string {
    if |ps| == 0 then ""
    else if |ps| == 1 then PrintParam(ps[0])
    else PrintParam(ps[0]) + ", " + PrintParams(ps[1..])
  }

  predicate IsKey(key: string) {
    key != "" && NoEdgeSpace(key) && '=' !in key && ',' !in key
  }

  /** Values that survive the comma splitting and the trimming of quotes. Quoted edge spaces do. */
  predicate IsValue(value: string) {
    ',' !in value && (value != "" ==> value[0] != '"' && value[|value| - 1] != '"')
  }

  /** Without quotes, edge spaces do not. */
  predicate CanPrint(p: Param) {
    IsKey(p.key) && IsValue(p.value) && (p.quoted || NoEdgeSpace(p.value))
  }

  predicate Printable(ps: seq<Param>) {
    forall i :: 0 <= i < |ps| ==> CanPrint(ps[i])
  }

  /** Names differ in more than their case. */
  predicate DistinctKeys(ps: seq<Param>) {
    forall i, j :: 0 <= i < j < |ps| ==> ToLower(ps[i].key) != ToLower(ps[j].key)
  }

  /** The parameters written in order under their lower-cased names, a later one replacing an earlier one. */
  function Record(params: Params, ps: seq<Param>): Params
    decreases |ps|
  {
    if ps == [] then params else Record(params[ToLower(ps[0].key) := ps[0].value], ps[1..])
  }

  function KeySet(ps: seq<Param>): (r: set<string>)
    ensures forall i :: 0 <= i < |ps| ==> ToLower(ps[i].key) in r
  {
    if ps == [] then {} else {ToLower(ps[0].key)} + KeySet(ps[1..])
  }

  /** With distinct keys nothing is replaced: the map holds exactly the listed parameters. */
  lemma {:induction false} RecordKeys(params: Params, ps: seq<Param>)
    ensures Record(params, ps).Keys == params.Keys + KeySet(ps)
    decreases |ps|
  {
    if ps == [] {
    } else {
      RecordKeys(params[ToLower(ps[0].key) := ps[0].value], ps[1..]);
    }
  }

  lemma {:induction false} RecordKeeps(params: Params, ps: seq<Param>, key: string)
    requires key in params && forall i :: 0 <= i < |ps| ==> ToLower(ps[i].key) != key
    ensures key in Record(params, ps) && Record(params, ps)[key] == params[key]
    decreases |ps|
  {
    if ps == [] {
    } else {
      RecordKeeps(params[ToLower(ps[0].key) := ps[0].value], ps[1..], key);
    }
  }

  lemma {:induction false} RecordDistinct(params: Params, ps: seq<Param>, i: nat)
    requires DistinctKeys(ps) && i < |ps|
    ensures ToLower(ps[i].key) in Record(params, ps) && Record(params, ps)[ToLower(ps[i].key)] == ps[i].value
    decreases |ps|
  {
    hide ToLower;
    var next := params[ToLower(ps[0].key) := ps[0].value];
    assert forall j :: 0 <= j < |ps[1..]| ==> ps[1..][j] == ps[j + 1];
    if i == 0 {
      RecordKeeps(next, ps[1..], ToLower(ps[0].key));
    } else {
      RecordDistinct(next, ps[1..], i - 1);
    }
  }

  lemma QuotesTrimmed(v: string)
    requires v != "" ==> v[0] != '"' && v[|v| - 1] != '"'
    ensures TrimQuotes("\"" + v + "\"") == v && TrimQuotes(v) == v
  {
    var s := "\"" + v + "\"";
    assert s[1..] == v + "\"";
    if v == "" {
      assert TrimQuotesLeft(s) == TrimQuotesLeft("\"") == TrimQuotesLeft("") by { assert "\""[1..] == ""; }
    } else {
      var rest := v + "\"";
      assert rest[0] == v[0] && rest[|rest| - 1] == '"' && rest[..|v|] == v;
      assert TrimQuotesLeft(s) == TrimQuotesLeft(rest) == rest;
      assert TrimQuotesRight(rest) == TrimQuotesRight(v) == v;
    }
  }

  /** A printed parameter, with or without a space before it, is read as that parameter. */
  lemma PrintedPartAdds(params: Params, p: Param, lead: string)
    requires CanPrint(p) && lead in {"", " "}
    ensures AddPart(params, lead + PrintParam(p)) == params[ToLower(p.key) := p.value]
  {
    hide AddText, PrintParam, ToLower, TrimSpace;
    PrintedShape(p);
    LeadTrimmed(lead, PrintParam(p));
    PrintedTextAdds(params, p);
  }

  lemma PrintedTextAdds(params: Params, p: Param)
    requires CanPrint(p)
    ensures AddText(params, PrintParam(p)) == params[ToLower(p.key) := p.value]
  {
    hide ToLower, TrimSpace, Cut, TrimQuotes;
    PrintedShape(p);
    CutAt(p.key, '=', ValueText(p));
    TrimSpaceIdentity(p.key);
    TrimSpaceIdentity(ValueText(p));
    QuotesTrimmed(p.value);
  }

  lemma PrintedShape(p: Param)
    requires CanPrint(p)
    ensures PrintParam(p) == p.key + ['='] + ValueText(p)
    ensures NoEdgeSpace(PrintParam(p)) && NoEdgeSpace(ValueText(p)) && ',' !in PrintParam(p)
    ensures PrintParam(p) != ""
  {
    var text := PrintParam(p);
    assert text[0] == p.key[0];
    assert text[|text| - 1] == if ValueText(p) == "" then '=' else ValueText(p)[|ValueText(p)| - 1];
  }

  lemma LeadTrimmed(lead: string, t: string)
    requires lead in {"", " "} && NoEdgeSpace(t)
    ensures TrimSpace(lead + t) == t
  {
    TrimSpaceIdentity(t);
    if lead == " " {
      assert (" " + t)[1..] == t;
    } else {
      assert lead + t == t;
    }
  }

  lemma CommaSpace(a: string, b: string)
    ensures a + (", " + b) == a + [','] + (" " + b)
  {
    assert ", " + b == [','] + (" " + b);
  }

  /** Reading a printed challenge yields the printed parameters. */
  lemma {:induction false} ReadPrinted(params: Params, ps: seq<Param>, lead: string)
    requires Printable(ps) && |ps| >= 1 && lead in {"", " "}
    ensures AddParts(params, Split(lead + PrintParams(ps), ',')) == Record(params, ps)
    decreases |ps|
  {
    hide ToLower, AddPart, PrintParam;
    var first := lead + PrintParam(ps[0]);
    PrintedPartAdds(params, ps[0], lead);
    PrintedShape(ps[0]);
    SplitFree(first, ',');
    var next := params[ToLower(ps[0].key) := ps[0].value];
    if |ps| == 1 {
      assert [first][1..] == [] && ps[1..] == [];
      assert Record(next, []) == next && AddParts(next, []) == next;
    } else {
      var rest := " " + PrintParams(ps[1..]);
      Assoc(lead, PrintParam(ps[0]), ", " + PrintParams(ps[1..]));
      Assoc(PrintParam(ps[0]), ", ", PrintParams(ps[1..]));
      CommaSpace(first, PrintParams(ps[1..]));
      SplitConcat(first, ',', rest);
      assert ([first] + Split(rest, ','))[1..] == Split(rest, ',');
      assert forall i :: 0 <= i < |ps[1..]| ==> ps[1..][i] == ps[i + 1];
      ReadPrinted(next, ps[1..], " ");
    }
  }

  /** What is read back from a printed list: its parameters, later ones winning. */
  lemma ParsePrinted(ps: seq<Param>)
    requires Printable(ps)
    ensures AuthParams(PrintParams(ps)) == Record(map[], ps)
  {
    if |ps| >= 1 {
      assert "" + PrintParams(ps) == PrintParams(ps);
      ReadPrinted(map[], ps, "");
    } else {
      assert Split("", ',') == [""] && [""][1..] == [];
      assert AddPart(map[], "") == map[];
    }
  }

  /** Parsing inverts printing for any list of parameters with distinct keys. */
  lemma ParseInvertsPrint(ps: seq<Param>)
    requires Printable(ps) && DistinctKeys(ps)
    ensures AuthParams(PrintParams(ps)).Keys == KeySet(ps)
    ensures forall i :: 0 <= i < |ps| ==> AuthParams(PrintParams(ps))[ToLower(ps[i].key)] == ps[i].value
  {
    hide AuthParams, PrintParams, ToLower, Record, KeySet, Printable, DistinctKeys;
    ParsePrinted(ps);
    RecordKeys(map[], ps);
    forall i | 0 <= i < |ps| ensures Record(map[], ps)[ToLower(ps[i].key)] == ps[i].value {
      RecordDistinct(map[], ps, i);
    }
  }

  lemma {:induction false} PrintedEdges(ps: seq<Param>)
    requires Printable(ps) && |ps| >= 1
    ensures NoEdgeSpace(PrintParams(ps)) && PrintParams(ps) != ""
    decreases |ps|
  {
    PrintedShape(ps[0]);
    if |ps| > 1 {
      assert forall i :: 0 <= i < |ps[1..]| ==> ps[1..][i] == ps[i + 1];
      PrintedEdges(ps[1..]);
    }
  }

  /** A printed challenge is recognised with its three parameters, in whatever case its scheme is written and
      with any space behind it; without a realm it is none. */
  lemma PrintedChallenge(scheme: string, realm: string, service: string, scope: string)
    requires ToLower(scheme) == "bearer" && IsValue(realm) && IsValue(service) && IsValue(scope)
    ensures ChallengeOf(scheme + " " + PrintParams([Param("realm", realm, true), Param("service", service, true), Param("scope", scope, true)]))
         == if realm == "" then NoChallenge else Bearer(realm, service, scope)
  {
    hide ChallengeOf, PrintParams, AuthParams, ToLower, IsValue, Get;
    var ps := [Param("realm", realm, true), Param("service", service, true), Param("scope", scope, true)];
    ThreeDistinct(realm, service, scope);
    PrintedEdges(ps);
    ThreeParams(realm, service, scope);
    BearerText(scheme, PrintParams(ps));
  }

  lemma ThreeParams(realm: string, service: string, scope: string)
    requires IsValue(realm) && IsValue(service) && IsValue(scope)
    ensures var params := AuthParams(PrintParams([Param("realm", realm, true), Param("service", service, true), Param("scope", scope, true)]));
            Get(params, "realm") == realm && Get(params, "service") == service && Get(params, "scope") == scope
  {
    hide AuthParams, PrintParams, Get, IsValue, IsKey, ToLower;
    KnownKeys();
    var ps := [Param("realm", realm, true), Param("service", service, true), Param("scope", scope, true)];
    ThreeDistinct(realm, service, scope);
    PrintedParam(ps, 0);
    PrintedParam(ps, 1);
    PrintedParam(ps, 2);
  }

  lemma ThreeDistinct(realm: string, service: string, scope: string)
    requires IsValue(realm) && IsValue(service) && IsValue(scope)
    ensures var ps := [Param("realm", realm, true), Param("service", service, true), Param("scope", scope, true)];
            Printable(ps) && DistinctKeys(ps)
  {
    KnownKeys();
    hide IsKey, IsValue, ToLower;
    assert "realm"[0] == 'r' && "service"[0] == 's' && "service"[1] == 'e' && "scope"[0] == 's' && "scope"[1] == 'c';
  }

  lemma PrintedParam(ps: seq<Param>, i: nat)
    requires Printable(ps) && DistinctKeys(ps) && i < |ps|
    ensures Get(AuthParams(PrintParams(ps)), ToLower(ps[i].key)) == ps[i].value
  {
    ParsePrinted(ps);
    RecordDistinct(map[], ps, i);
  }

  lemma BearerText(scheme: string, s: string)
    requires ToLower(scheme) == "bearer" && NoEdgeSpace(s) && s != ""
    ensures var params := AuthParams(s);
            ChallengeOf(scheme + " " + s) == if Get(params, "realm") == "" then NoChallenge
                                             else Bearer(Get(params, "realm"), Get(params, "service"), Get(params, "scope"))
  {
    hide ToLower, TrimSpace, AuthParams, Get;
    BearerPrefix(scheme, s);
    TrimSpaceIdentity(scheme + " " + s);
  }

  lemma KnownKeys()
    ensures IsKey("realm") && IsKey("service") && IsKey("scope")
    ensures ToLower("realm") == "realm" && ToLower("service") == "service" && ToLower("scope") == "scope"
  {
    hide ToLower, IsKey;
    LettersAreKey("realm");
    LettersAreKey("service");
    LettersAreKey("scope");
  }

  lemma LettersAreKey(s: string)
    requires s != "" && forall i :: 0 <= i < |s| ==> 'a' <= s[i] <= 'z'
    ensures IsKey(s) && ToLower(s) == s
  {
    LowerFixed(s);
  }

  lemma BearerPrefix(scheme: string, s: string)
    requires ToLower(scheme) == "bearer" && NoEdgeSpace(s) && s != ""
    ensures var text := scheme + " " + s;
            HasPrefix(ToLower(text), SCHEME) && |text| >= |SCHEME| && text[|SCHEME|..] == s && NoEdgeSpace(text)
  {
    var text := scheme + " " + s;
    assert |scheme| == 6 && text[..6] == scheme;
    assert LowerChar(scheme[0]) == 'b' == SCHEME[0] && ToLower(text)[0] == 'b';
    assert forall i :: 0 <= i < 6 ==> ToLower(text)[i] == ToLower(scheme)[i];
    assert text[0] == scheme[0] && text[|text| - 1] == s[|s| - 1];
  }

  // ---- Which values survive ---------------------------------------------------

  lemma {:induction false} TrimQuotesClean(s: string)
    ensures forall c :: c in TrimQuotes(s) ==> c in s
    ensures TrimQuotes(s) != "" ==> TrimQuotes(s)[0] != '"' && TrimQuotes(s)[|TrimQuotes(s)| - 1] != '"'
  {
    TrimQuotesLeftClean(s);
    TrimQuotesRightClean(TrimQuotesLeft(s));
  }

  lemma {:induction false} TrimQuotesLeftClean(s: string)
    ensures forall c :: c in TrimQuotesLeft(s) ==> c in s
    ensures TrimQuotesLeft(s) != "" ==> TrimQuotesLeft(s)[0] != '"'
  {
    if s != "" && s[0] == '"' {
      TrimQuotesLeftClean(s[1..]);
    }
  }

  lemma {:induction false} TrimQuotesRightClean(s: string)
    ensures TrimQuotesRight(s) <= s
    ensures TrimQuotesRight(s) != "" ==> TrimQuotesRight(s)[|TrimQuotesRight(s)| - 1] != '"'
  {
    if s != "" && s[|s| - 1] == '"' {
      TrimQuotesRightClean(s[..|s| - 1]);
    }
  }

  lemma {:induction false} AddedValues(params: Params, parts: seq<string>)
    requires forall k :: k in params ==> IsValue(params[k])
    requires forall i :: 0 <= i < |parts| ==> ',' !in parts[i]
    ensures forall k :: k in AddParts(params, parts) ==> IsValue(AddParts(params, parts)[k])
    decreases |parts|
  {
    if parts == [] {
    } else {
      var text := TrimSpace(parts[0]);
      var (key, value, found) := Cut(text, '=');
      TrimSpaceWithin(parts[0]);
      TrimSpaceWithin(value);
      TrimQuotesClean(TrimSpace(value));
      AddedValues(AddPart(params, parts[0]), parts[1..]);
    }
  }

  lemma {:induction false} TrimmedShorter(s: string)
    ensures |TrimQuotesLeft(s)| <= |s| && |TrimQuotesRight(s)| <= |s|
  {
    TrimQuotesRightClean(s);
    if s != "" && s[0] == '"' {
      TrimmedShorter(s[1..]);
    }
  }

  /** The one parameter in a text without commas. */
  lemma OneParam(p: Param)
    requires IsKey(p.key) && ',' !in p.value
    ensures AuthParams(PrintParam(p)) == AddText(map[], TrimSpace(PrintParam(p)))
  {
    hide AddText, TrimSpace;
    SplitFree(PrintParam(p), ',');
    var parts := [PrintParam(p)];
    assert parts[1..] == [];
    assert AddParts(AddPart(map[], parts[0]), []) == AddPart(map[], parts[0]);
  }

  /** An edge space of an unquoted value is lost. */
  lemma EdgeSpaceLost(p: Param)
    requires IsKey(p.key) && ',' !in p.value && !p.quoted && !NoEdgeSpace(p.value)
    ensures AuthParams(PrintParam(p)) != map[ToLower(p.key) := p.value]
  {
    hide ToLower, TrimSpace, TrimQuotes, Cut;
    OneParam(p);
    EdgeText(p);
    var value := TrimSpace(Cut(TrimSpace(PrintParam(p)), '=').1);
    QuotesShorten(value);
    assert Get(map[ToLower(p.key) := p.value], ToLower(p.key)) == p.value;
  }

  lemma QuotesShorten(s: string)
    ensures |TrimQuotes(s)| <= |s|
  {
    TrimmedShorter(s);
    TrimmedShorter(TrimQuotesLeft(s));
  }

  lemma EdgeText(p: Param)
    requires IsKey(p.key) && !p.quoted && !NoEdgeSpace(p.value)
    ensures TrimSpace(PrintParam(p)) == p.key + "=" + TrimRightSpace(p.value)
    ensures Cut(TrimSpace(PrintParam(p)), '=') == (p.key, TrimRightSpace(p.value), true)
    ensures |TrimSpace(TrimRightSpace(p.value))| < |p.value|
  {
    var front, value := p.key + "=", p.value;
    assert front[0] == p.key[0];
    RightTrimmed(front, value);
    CutAt(p.key, '=', TrimRightSpace(value));
    SpacesShorten(value);
    SpacesShorten(TrimRightSpace(value));
    SpacesShorten(TrimLeftSpace(TrimRightSpace(value)));
  }

  lemma {:induction false} RightTrimmed(front: string, s: string)
    requires front != "" && !IsSpace(front[|front| - 1])
    ensures TrimRightSpace(front + s) == front + TrimRightSpace(s)
  {
    if s == "" {
      assert front + s == front;
    } else if IsSpace(s[|s| - 1]) {
      assert (front + s)[..|front + s| - 1] == front + s[..|s| - 1];
      RightTrimmed(front, s[..|s| - 1]);
    }
  }

  lemma {:induction false} SpacesShorten(s: string)
    ensures |TrimLeftSpace(s)| <= |s| && |TrimRightSpace(s)| <= |s|
    ensures s != "" && IsSpace(s[0]) ==> |TrimLeftSpace(s)| < |s|
    ensures s != "" && IsSpace(s[|s| - 1]) ==> |TrimRightSpace(s)| < |s|
    ensures s != "" && !IsSpace(s[|s| - 1]) ==> TrimRightSpace(s) == s
  {
    if s != "" {
      SpacesShorten(s[1..]);
      SpacesShorten(s[..|s| - 1]);
    }
  }

  /** A parameter is read back exactly when its value has no comma, no quote at either end and, without quotes
      around it, no space at either end. */
  lemma SurvivesExactly(p: Param)
    requires IsKey(p.key)
    ensures AuthParams(PrintParam(p)) == map[ToLower(p.key) := p.value] <==> CanPrint(p)
  {
    hide ToLower;
    AddedValues(map[], Split(PrintParam(p), ','));
    if AuthParams(PrintParam(p)) == map[ToLower(p.key) := p.value] {
      assert ToLower(p.key) in AuthParams(PrintParam(p));
      assert IsValue(p.value);
      if !p.quoted && !NoEdgeSpace(p.value) {
        EdgeSpaceLost(p);
      }
    }
    if CanPrint(p) {
      assert "" + PrintParams([p]) == PrintParam(p);
      ReadPrinted(map[], [p], "");
      assert [p][1..] == [];
      assert Record(map[], [p]) == Record(map[ToLower(p.key) := p.value], []);
    }
  }
}
