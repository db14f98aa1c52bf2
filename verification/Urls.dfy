/** The part of `net/url` that the rewriting hooks use: absolute URLs without user
    info and percent escapes, parsed from and printed to text. */
module Urls {
  import opened Text

  datatype Url = Url(scheme: string, host: string, path: string, rawQuery: string, fragment: string)

  datatype Parsed = ParseError | ParsedUrl(url: Url)

  datatype SchemeSplit = MissingScheme | SchemeSplit(scheme: string, rest: string)

  predicate IsLetter(c: char) {
    'a' <= c <= 'z' || 'A' <= c <= 'Z'
  }

  predicate IsDigit(c: char) {
    '0' <= c <= '9'
  }

  predicate IsControl(c: char) {
    c as int < 0x20 || c as int == 0x7F
  }

  /** Scans for the scheme from position `i`; every character before it may belong to one. */
  function ScanScheme(s: string, i: nat): SchemeSplit
    requires i <= |s|
    decreases |s| - i
  {
    if i == |s| then SchemeSplit("", s)
    else if IsLetter(s[i]) then ScanScheme(s, i + 1)
    else if IsDigit(s[i]) || s[i] in {'+', '-', '.'} then
      if i == 0 then SchemeSplit("", s) else ScanScheme(s, i + 1)
    else if s[i] == ':' then
      if i == 0 then MissingScheme else SchemeSplit(s[..i], s[i + 1..])
    else SchemeSplit("", s)
  }

  /** Characters that a host may hold unescaped. */
  predicate IsHostChar(c: char) {
    IsLetter(c) || IsDigit(c) || c as int >= 0x80 ||
    c in {'-', '_', '.', '~', '!', '$', '&', '\'', '(', ')', '*', '+', ',', ';', '=', ':', '[', ']', '<', '>', '"'}
  }

  /** A host, possibly with a numeric port; IPv6 literals are not modelled. */
  predicate IsHost(host: string) {
    (forall i :: 0 <= i < |host| ==> IsHostChar(host[i])) && '[' !in host &&
    (':' in host ==> forall i :: 0 <= i < |PortOf(host)| ==> IsDigit(PortOf(host)[i]))
  }

  /** The text after the last colon. */
  function PortOf(host: string): string {
    if host == "" || host[|host| - 1] == ':' then "" else PortOf(host[..|host| - 1]) + [host[|host| - 1]]
  }

  /** `url.Parse`. Texts with a percent sign or an `@` in the host are outside the model
      and count as unparseable. */
  function Parse(raw: string): Parsed {
    var (text, fragment, _) := Cut(raw, '#');
    if (exists i :: 0 <= i < |text| && IsControl(text[i])) || '%' in raw then ParseError
    else
      match ScanScheme(text, 0)
      case MissingScheme => ParseError
      case SchemeSplit(scheme, afterScheme) =>
        var (rest, query, _) := Cut(afterScheme, '?');
        ParseHierarchy(ToLower(scheme), rest, query, fragment)
  }

  /** Authority and path, once scheme, query and fragment are cut off. */
  function ParseHierarchy(scheme: string, rest: string, query: string, fragment: string): Parsed {
    if !HasPrefix(rest, "/") && scheme != "" then ParsedUrl(Url(scheme, "", "", query, fragment))
    else if !HasPrefix(rest, "/") && ':' in Cut(rest, '/').0 then ParseError
    else if HasPrefix(rest, "//") && (scheme != "" || !HasPrefix(rest, "///")) then
      var (host, path, slash) := Cut(rest[2..], '/');
      if IsHost(host) then ParsedUrl(Url(scheme, host, if slash then "/" + path else "", query, fragment))
      else ParseError
    else ParsedUrl(Url(scheme, "", rest, query, fragment))
  }

  function QueryText(rawQuery: string): string {
    if rawQuery != "" then "?" + rawQuery else ""
  }

  function FragmentText(fragment: string): string {
    if fragment != "" then "#" + fragment else ""
  }

  /** `URL.String` for a URL with a scheme and a host. */
  function Print(u: Url): string {
    u.scheme + "://" + u.host + u.path + QueryText(u.rawQuery) + FragmentText(u.fragment)
  }

  // ---- Printing and parsing are inverse ------------------------------------------

  predicate IsScheme(s: string) {
    s != "" && IsLetter(s[0]) && ToLower(s) == s &&
    forall i :: 0 <= i < |s| ==> IsLetter(s[i]) || IsDigit(s[i]) || s[i] in {'+', '-', '.'}
  }

  /** Path characters that `net/url` prints as they are. */
  predicate IsPathChar(c: char) {
    IsLetter(c) || IsDigit(c) || c in {'-', '_', '.', '~', '$', '&', '+', ',', '/', ':', ';', '=', '@'}
  }

  predicate IsPathText(path: string) {
    forall i :: 0 <= i < |path| ==> IsPathChar(path[i])
  }

  predicate IsQueryText(query: string) {
    forall i :: 0 <= i < |query| ==> query[i] != '#' && query[i] != '%' && !IsControl(query[i]) && !IsSpace(query[i])
  }

  predicate IsFragmentText(fragment: string) {
    forall i :: 0 <= i < |fragment| ==> IsPathChar(fragment[i])
  }

  /** An absolute URL made of characters that need no escaping. */
  predicate Plain(u: Url) {
    IsScheme(u.scheme) && u.host != "" && IsHost(u.host) && (forall c :: c in u.host ==> !IsSpace(c)) &&
    (u.path != "" ==> u.path[0] == '/') &&
    IsPathText(u.path) && IsQueryText(u.rawQuery) && IsFragmentText(u.fragment)
  }

  lemma {:induction false} SchemeScanned(scheme: string, rest: string, i: nat)
    requires IsScheme(scheme) && i <= |scheme|
    ensures ScanScheme(scheme + ":" + rest, i) == SchemeSplit(scheme, rest)
    decreases |scheme| - i
  {
    var s := scheme + ":" + rest;
    if i < |scheme| {
      assert s[i] == scheme[i];
      SchemeScanned(scheme, rest, i + 1);
    } else {
      assert s[i] == ':' && s[..i] == scheme && s[i + 1..] == rest;
    }
  }

  /** A text of the form front + optional marked tail is cut back into its parts. */
  lemma CutOptional(front: string, mark: char, tail: string)
    requires mark !in front
    ensures Cut(front + (if tail != "" then [mark] + tail else ""), mark).0 == front
    ensures Cut(front + (if tail != "" then [mark] + tail else ""), mark).1 == tail
  {
    if tail != "" {
      Assoc(front, [mark], tail);
      CutAt(front, mark, tail);
    } else {
      assert front + "" == front;
      CutNone(front, mark);
    }
  }

  /** The text between scheme and query. */
  function Hierarchy(u: Url): string {
    "//" + u.host + u.path
  }

  lemma HierarchyParsed(u: Url)
    requires Plain(u)
    ensures ParseHierarchy(u.scheme, Hierarchy(u), u.rawQuery, u.fragment) == ParsedUrl(u)
  {
    Assoc("//", u.host, u.path);
    assert Hierarchy(u)[2..] == u.host + u.path;
    AuthorityCut(u.host, u.path);
  }

  lemma AuthorityCut(host: string, path: string)
    requires IsHost(host) && (path != "" ==> path[0] == '/')
    ensures var (h, p, slash) := Cut(host + path, '/');
            h == host && (if slash then "/" + p else "") == path
  {
    HostHasNoSlash(host);
    if path != "" {
      assert path == ['/'] + path[1..];
      CutAt(host, '/', path[1..]);
      Assoc(host, ['/'], path[1..]);
    } else {
      assert host + "" == host;
      CutNone(host, '/');
    }
  }

  lemma HostHasNoSlash(host: string)
    requires IsHost(host)
    ensures '/' !in host && '?' !in host && '#' !in host && '%' !in host
    ensures forall i :: 0 <= i < |host| ==> !IsControl(host[i])
  {
  }

  lemma PathHasNoMarks(path: string)
    requires IsPathText(path)
    ensures '?' !in path && '#' !in path && '%' !in path
    ensures forall i :: 0 <= i < |path| ==> !IsControl(path[i])
  {
  }

  /** No query mark, fragment mark, escape or control character. */
  predicate Quiet(s: string) {
    '#' !in s && '%' !in s && forall i :: 0 <= i < |s| ==> !IsControl(s[i])
  }

  lemma QuietConcat(a: string, b: string)
    requires Quiet(a) && Quiet(b)
    ensures Quiet(a + b)
  {
  }

  lemma PartsQuiet(u: Url)
    requires Plain(u)
    ensures Quiet(u.scheme + ":") && Quiet(Hierarchy(u)) && '?' !in Hierarchy(u) && Quiet(QueryText(u.rawQuery))
  {
    HostHasNoSlash(u.host);
    PathHasNoMarks(u.path);
  }

  /** The text before the fragment. */
  function Front(u: Url): string {
    u.scheme + ":" + (Hierarchy(u) + QueryText(u.rawQuery))
  }

  lemma PrintFront(u: Url)
    ensures Print(u) == Front(u) + FragmentText(u.fragment)
  {
    assert u.scheme + "://" == u.scheme + ":" + "//";
    Assoc(u.scheme + ":", "//", u.host);
    Assoc(u.scheme + ":", "//" + u.host, u.path);
    Assoc(u.scheme + ":", Hierarchy(u), QueryText(u.rawQuery));
  }

  /** Parsing inverts printing on plain URLs. */
  lemma ParsePrint(u: Url)
    requires Plain(u)
    ensures Parse(Print(u)) == ParsedUrl(u)
  {
    PrintFront(u);
    PartsQuiet(u);
    var tail := Hierarchy(u) + QueryText(u.rawQuery);
    QuietConcat(Hierarchy(u), QueryText(u.rawQuery));
    QuietConcat(u.scheme + ":", tail);
    CutOptional(Front(u), '#', u.fragment);
    assert '%' !in FragmentText(u.fragment);
    SchemeScanned(u.scheme, tail, 0);
    CutOptional(Hierarchy(u), '?', u.rawQuery);
    HierarchyParsed(u);
    ParseParts(u, Print(u), tail);
  }

  lemma ParseParts(u: Url, raw: string, tail: string)
    requires Cut(raw, '#').0 == Front(u) && Cut(raw, '#').1 == u.fragment && '%' !in raw && Quiet(Front(u))
    requires ScanScheme(Front(u), 0) == SchemeSplit(u.scheme, tail)
    requires Cut(tail, '?').0 == Hierarchy(u) && Cut(tail, '?').1 == u.rawQuery
    requires ToLower(u.scheme) == u.scheme
    ensures Parse(raw) == ParseHierarchy(u.scheme, Hierarchy(u), u.rawQuery, u.fragment)
  {
  }

  /** A plain URL has no white space at its ends, so trimming leaves it alone. */
  lemma PrintTrimmed(u: Url)
    requires Plain(u)
    ensures TrimSpace(Print(u)) == Print(u) && Print(u) != ""
  {
    var front := u.scheme + "://" + u.host;
    var text := Print(u);
    assert text == front + u.path + QueryText(u.rawQuery) + FragmentText(u.fragment);
    assert text[0] == u.scheme[0];
    LastChar(u);
    TrimSpaceIdentity(text);
  }

  lemma LastChar(u: Url)
    requires Plain(u)
    ensures !IsSpace(Print(u)[|Print(u)| - 1])
  {
    var text := Print(u);
    if u.fragment != "" {
      assert text[|text| - 1] == u.fragment[|u.fragment| - 1];
    } else if u.rawQuery != "" {
      assert text[|text| - 1] == u.rawQuery[|u.rawQuery| - 1];
    } else if u.path != "" {
      assert text[|text| - 1] == u.path[|u.path| - 1];
    } else {
      assert text[|text| - 1] == u.host[|u.host| - 1];
    }
  }

  /** The host part that `net.SplitHostPort` finds, when it succeeds. */
  function HostOf(host: string): string {
    var (front, back, colon) := CutLast(host, ':');
    if !colon then host
    else if host[0] == '[' then
      var (inner, after, closed) := Cut(host[1..], ']');
      if closed && after == [':'] + back && ']' !in back && '[' !in host[1..] then inner else host
    else if ':' in front || '[' in host || ']' in host then host
    else front
  }

  /** A text without a character that `net.SplitHostPort` looks for. */
  predicate NoPortMark(s: string) {
    ':' !in s && '[' !in s && ']' !in s
  }

  /** A host name keeps itself, and loses a port. */
  lemma PortSplitOff(host: string, port: string)
    requires host != "" && NoPortMark(host) && NoPortMark(port)
    ensures HostOf(host + ":" + port) == host && HostOf(host) == host
  {
    var full := host + ":" + port;
    assert full == host + [':'] + port;
    CutLastAt(host, ':', port);
    assert !CutLast(host, ':').2;
    hide CutLast, Cut;
    assert host[0] in host && full[0] == host[0];
  }
}
