/** The registry that finds the hub of a request by its Host header. */
module Hubs {
  import opened Text
  import Urls

  /** A configured hub; `valid` says whether its module and its addresses resolve. */
  datatype Hub = Hub(name: string, domain: string, valid: bool)

  datatype Found = NoHub | Found(hub: Hub)

  // ---- Host names ----------------------------------------------------------------

  predicate IsNumber(s: string) {
    s != "" && forall i :: 0 <= i < |s| ==> '0' <= s[i] <= '9'
  }

  /** What `strconv.Atoi` takes: digits behind an optional sign. */
  predicate IsInteger(s: string) {
    IsNumber(s) || (s != "" && (s[0] == '+' || s[0] == '-') && IsNumber(s[1..]))
  }

  /** The host part: as `net.SplitHostPort` sees it, else what stands before a last colon and a number. */
  function HostPart(raw: string): string {
    if Urls.HostOf(raw) != raw then Urls.HostOf(raw)
    else
      var (front, back, colon) := CutLast(raw, ':');
      if colon && IsInteger(back) then front else raw
  }

  function NormalizeHost(raw: string): string {
    ToLower(TrimSuffix(HostPart(TrimSpace(raw)), "."))
  }

  // ---- The registry ------------------------------------------------------------------

  /** Domains are non-empty and pairwise different after normalisation, and every hub is valid. */
  ghost predicate Loadable(hubs: seq<Hub>) {
    (forall i :: 0 <= i < |hubs| ==> hubs[i].valid && NormalizeHost(hubs[i].domain) != "") &&
    (forall i, j :: 0 <= i < j < |hubs| ==> NormalizeHost(hubs[i].domain) != NormalizeHost(hubs[j].domain))
  }

  /** The map leads from every normalised domain to its hub, and nowhere else. */
  ghost predicate Indexes(routes: map<string, Hub>, ordered: seq<Hub>) {
    Loadable(ordered) &&
    (forall i :: 0 <= i < |ordered| ==>
       NormalizeHost(ordered[i].domain) in routes && routes[NormalizeHost(ordered[i].domain)] == ordered[i]) &&
    (forall d :: d in routes ==> d != "" && routes[d] in ordered && NormalizeHost(routes[d].domain) == d)
  }

  lemma IndexedIsLoadable(routes: map<string, Hub>, ordered: seq<Hub>)
    requires Indexes(routes, ordered)
    ensures Loadable(ordered)
  {
    hide Loadable;
  }

  lemma AddKeeps(routes: map<string, Hub>, ordered: seq<Hub>, hub: Hub)
    requires Indexes(routes, ordered) && hub.valid && NormalizeHost(hub.domain) != "" && NormalizeHost(hub.domain) !in routes
    ensures Indexes(routes[NormalizeHost(hub.domain) := hub], ordered + [hub])
  {
    hide NormalizeHost;
    var all := ordered + [hub];
    forall d | d in routes ensures routes[d] in all {
    }
    assert hub == all[|ordered|];
  }

  lemma Clash(routes: map<string, Hub>, ordered: seq<Hub>, hubs: seq<Hub>, i: nat, domain: string)
    requires i < |hubs| && ordered == hubs[..i] && Indexes(routes, ordered) && domain == NormalizeHost(hubs[i].domain)
    requires domain == "" || domain in routes || !hubs[i].valid
    ensures !Loadable(hubs)
  {
    if domain in routes {
      var j :| 0 <= j < i && ordered[j] == routes[domain];
      assert hubs[j] == ordered[j];
    }
  }

  class HubRegistry {
    var routes: map<string, Hub>
    var ordered: seq<Hub>

    ghost predicate Valid()
      reads this
    {
      Indexes(routes, ordered)
    }

    constructor ()
      ensures Valid() && ordered == []
    {
      routes, ordered := map[], [];
    }

    /** Registers the configured hubs in order; succeeds exactly when they fit together. */
    method Load(hubs: seq<Hub>) returns (ok: bool)
      requires Valid() && ordered == []
      modifies this
      ensures ok <==> Loadable(hubs)
      ensures ok ==> Valid() && ordered == hubs
    {
      hide NormalizeHost, Indexes, Loadable;
      for i := 0 to |hubs|
        invariant Valid() && ordered == hubs[..i]
      {
        var domain := NormalizeHost(hubs[i].domain);
        if domain == "" || domain in routes || !hubs[i].valid {
          Clash(routes, ordered, hubs, i, domain);
          return false;
        }
        assert hubs[..i + 1] == hubs[..i] + [hubs[i]];
        AddKeeps(routes, ordered, hubs[i]);
        routes := routes[domain := hubs[i]];
        ordered := ordered + [hubs[i]];
      }
      assert hubs[..|hubs|] == hubs;
      IndexedIsLoadable(routes, ordered);
      ok := true;
    }

    /** Finds a hub exactly when one has this host, and then the only one. */
    method Lookup(host: string) returns (r: Found)
      requires Valid()
      ensures r.Found? ==> r.hub in ordered && NormalizeHost(r.hub.domain) == NormalizeHost(host)
      ensures forall i :: 0 <= i < |ordered| && NormalizeHost(ordered[i].domain) == NormalizeHost(host) ==> r == Found(ordered[i])
    {
      var domain := NormalizeHost(host);
      if domain == "" || domain !in routes {
        return NoHub;
      }
      r := Found(routes[domain]);
    }
  }

  /** A host name: no port, no brackets, no space. */
  predicate DottedHost(host: string) {
    host != "" && forall ch :: ch in host ==> ch !in {':', '[', ']'} && !IsSpace(ch)
  }

  /** A host name without a final dot. */
  predicate PlainHost(host: string) {
    DottedHost(host) && host[|host| - 1] != '.'
  }

  /** A request reaches a hub whatever the case of its host name, with any port and with a final dot. */
  lemma HostIgnoresCaseAndPort(host: string, domain: string, port: string)
    requires PlainHost(host) && PlainHost(domain) && EqualFold(host, domain) && IsNumber(port)
    ensures NormalizeHost(host + ":" + port) == NormalizeHost(domain) == NormalizeHost(host)
    ensures NormalizeHost(host + ".") == NormalizeHost(host + "." + ":" + port) == NormalizeHost(domain)
  {
    hide NormalizeHost, PlainHost;
    PlainNormal(host);
    PlainNormal(domain);
    DotDropped(host);
    PortDropped(host, port);
    DottedPortDropped(host, port);
  }

  lemma DotDropped(host: string)
    requires PlainHost(host)
    ensures DottedHost(host + ".") && NormalizeHost(host + ".") == ToLower(host)
  {
    var dotted := host + ".";
    assert DottedHost(dotted);
    HostKept(dotted);
    DotCut(host);
    hide ToLower, HostPart, TrimSuffix;
  }

  lemma DotCut(host: string)
    ensures TrimSuffix(host + ".", ".") == host
  {
    assert (host + ".")[|host|..] == "." && (host + ".")[..|host|] == host;
  }

  lemma HostKept(host: string)
    requires DottedHost(host)
    ensures TrimSpace(host) == host && HostPart(host) == host
  {
    TrimSpaceIdentity(host);
    assert ':' !in host && !CutLast(host, ':').2;
  }

  lemma DottedPortDropped(host: string, port: string)
    requires PlainHost(host) && IsNumber(port)
    ensures NormalizeHost(host + "." + ":" + port) == ToLower(host)
  {
    hide ToLower, TrimSpace, Urls.HostOf, CutLast, IsSpace, TrimSuffix;
    DotDropped(host);
    DotCut(host);
    PortedEdges(host + ".", port);
    Urls.PortSplitOff(host + ".", port);
    assert |host + "." + ":" + port| > |host + "."|;
  }

  lemma PlainNormal(host: string)
    requires PlainHost(host)
    ensures NormalizeHost(host) == ToLower(host)
  {
    TrimSpaceIdentity(host);
    assert ':' !in host && !CutLast(host, ':').2;
    hide ToLower;
  }

  lemma PortedEdges(host: string, port: string)
    requires DottedHost(host) && IsNumber(port)
    ensures TrimSpace(host + ":" + port) == host + ":" + port
  {
    var full := host + ":" + port;
    assert full[0] == host[0] && full[|full| - 1] == port[|port| - 1];
    hide TrimSpace;
    TrimSpaceIdentity(full);
  }

  lemma PortDropped(host: string, port: string)
    requires PlainHost(host) && IsNumber(port)
    ensures NormalizeHost(host + ":" + port) == ToLower(host)
  {
    hide ToLower, TrimSpace, Urls.HostOf, CutLast, IsSpace;
    PortedEdges(host, port);
    Urls.PortSplitOff(host, port);
    assert |host + ":" + port| > |host|;
  }

  /** Space around a host does not matter. */
  lemma HostIgnoresSpace(host: string, before: string, behind: string)
    requires host != "" && NoEdgeSpace(host)
    requires (forall ch :: ch in before ==> IsSpace(ch)) && (forall ch :: ch in behind ==> IsSpace(ch))
    ensures NormalizeHost(before + host + behind) == NormalizeHost(host)
  {
    hide HostPart, ToLower, TrimSuffix, IsSpace;
    SpaceTrimmed(before, host, behind);
    TrimSpaceIdentity(host);
  }

  lemma SpaceTrimmed(before: string, host: string, behind: string)
    requires host != "" && NoEdgeSpace(host)
    requires (forall ch :: ch in before ==> IsSpace(ch)) && (forall ch :: ch in behind ==> IsSpace(ch))
    ensures TrimSpace(before + host + behind) == host
  {
    hide IsSpace;
    assert before + host + behind == before + (host + behind);
    LeftTrimmed(before, host + behind);
    RightTrimmed(host, behind);
  }

  lemma {:induction false} LeftTrimmed(before: string, rest: string)
    requires rest != "" && !IsSpace(rest[0]) && forall ch :: ch in before ==> IsSpace(ch)
    ensures TrimLeftSpace(before + rest) == rest
  {
    hide IsSpace;
    if before == "" {
      assert before + rest == rest;
    } else {
      assert (before + rest)[0] == before[0] && (before + rest)[1..] == before[1..] + rest;
      LeftTrimmed(before[1..], rest);
    }
  }

  lemma {:induction false} RightTrimmed(rest: string, behind: string)
    requires rest != "" && !IsSpace(rest[|rest| - 1]) && forall ch :: ch in behind ==> IsSpace(ch)
    ensures TrimRightSpace(rest + behind) == rest
  {
    hide IsSpace;
    if behind == "" {
      assert rest + behind == rest;
    } else {
      var n := |behind| - 1;
      assert (rest + behind)[|rest + behind| - 1] == behind[n] && (rest + behind)[..|rest + behind| - 1] == rest + behind[..n];
      RightTrimmed(rest, behind[..n]);
    }
  }

  /** What stands behind the last of several colons is a port exactly when it is an integer. So an IPv6 address
      without brackets loses a last group of digits, and keeps one with letters. */
  lemma ManyColons(front: string, port: string)
    requires ':' in front && ':' !in port && NoEdgeSpace(front + ":" + port) && front[0] != '['
    ensures NormalizeHost(front + ":" + port) == ToLower(TrimSuffix(if IsInteger(port) then front else front + ":" + port, "."))
  {
    var raw := front + ":" + port;
    hide ToLower, TrimSuffix, IsInteger, TrimSpace, NoEdgeSpace;
    TrimSpaceIdentity(raw);
    assert raw == front + [':'] + port;
    CutLastAt(front, ':', port);
    assert raw[0] == front[0];
  }
}
