/** Revalidation asks the path that the stored body came from, for query-free Docker requests,
    exactly when the metadata of every placed body fits it. */
module TrueSource {
  import opened CacheKeys
  import opened Proxy
  import opened ProxyRuns
  import opened Provenance
  import Docker

  /** The entry's effective path is empty or the fallback of its own locator, and names `source`. */
  ghost predicate TrueTo(host: string, loc: Locator, entry: Entry, source: Target) {
    if entry.effective == "" then source == Target(loc.path, "")
    else Docker.ManifestFallback(host, loc.path) == Docker.FallbackTo(entry.effective) && source == Target(entry.effective, "")
  }

  // ---- Which address a request asks ------------------------------------------------

  /** All requests of the log but those of a fetch go to this address. */
  ghost predicate ChecksGoTo(wire: seq<Exchange>, target: Target) {
    forall i :: 0 <= i < |wire| && wire[i].sent.purpose != Fetch ==> wire[i].sent.target == target
  }

  lemma DecideAsks(w: World, env: Env, route: Route, req: Request, entry: Entry)
    requires w.wire == []
    ensures ChecksGoTo(Decide(w, env, route, req, entry).w.wire, RevalidateTarget(req, entry))
  {
    hide AskWithAuth;
    var sent := HeadOf(w, req, entry, Revalidate);
    AskWithAuthAttempts(w, env, route, sent);
    var reply := AskWithAuth(w, env, route, sent);
    forall i | 0 <= i < |reply.w.wire| ensures reply.w.wire[i].sent.target == sent.target {
      assert reply.w.wire[i].sent.(auth := Configured) == sent;
    }
  }

  lemma FetchAsks(w: World, env: Env, route: Route, req: Request, target: Target)
    requires ChecksGoTo(w.wire, target)
    ensures ChecksGoTo(FetchAndStream(w, env, route, req).w.wire, target)
  {
    hide FetchUpstream, ConsumeUpstream, Docker.ManifestFallback;
    FetchIsLogged(w, env, route, req);
    var f := FetchUpstream(w, env, route, req);
    if f.answer.Got? {
      ConsumeKeepsWork(f.w, env, req, ApplyRewrite(env.rewrite, f.answer.response), f.effective);
    }
  }

  /** Every revalidation of a request, also the one after a HEAD from the cache, asks one address:
      the entry's effective path, or the request's own. */
  lemma RequestAsks(w: World, env: Env, route: Route, req: Request)
    ensures var wire := Handle(w, env, route, req).w.wire;
            if FileOf(req) in w.store then ChecksGoTo(wire, RevalidateTarget(req, w.store[FileOf(req)]))
            else forall i :: 0 <= i < |wire| ==> wire[i].sent.purpose == Fetch
  {
    hide Decide, FetchAndStream;
    var start := w.(wire := [], tokens := 0);
    match Lookup(start, env, req)
    case None =>
      FetchOnly(start, env, route, req);
    case Some(entry) =>
      DecideAsks(start, env, route, req, entry);
      FetchAsks(Decide(start, env, route, req, entry).w, env, route, req, RevalidateTarget(req, entry));
  }

  lemma FetchOnly(w: World, env: Env, route: Route, req: Request)
    requires w.wire == []
    ensures var wire := FetchAndStream(w, env, route, req).w.wire; forall i :: 0 <= i < |wire| ==> wire[i].sent.purpose == Fetch
  {
    hide FetchUpstream, ConsumeUpstream, Docker.ManifestFallback;
    FetchIsLogged(w, env, route, req);
    var f := FetchUpstream(w, env, route, req);
    if f.answer.Got? {
      ConsumeKeepsWork(f.w, env, req, ApplyRewrite(env.rewrite, f.answer.response), f.effective);
    }
  }

  // ---- When a placed body keeps its source ------------------------------------------

  /** A Put went through, or what is left of the old metadata happens to name the same address. */
  predicate MetadataFits(w: World, env: Env, route: Route, req: Request) {
    var f := FetchUpstream(w, env, route, req);
    f.answer.Got? &&
    (PutReach(env, ApplyRewrite(env.rewrite, f.answer.response)).Done? || OldEffective(w, env, FileOf(req)) == f.effective)
  }

  lemma PlacedEntry(w: World, env: Env, route: Route, req: Request)
    requires PlacesBody(w, env, route, req)
    ensures var c, f := FetchAndStream(w, env, route, req).w, FetchUpstream(w, env, route, req);
            FileOf(req) in c.store && c.wire == f.w.wire && f.w.store == w.store &&
            c.store[FileOf(req)].effective ==
            if PutReach(env, ApplyRewrite(env.rewrite, f.answer.response)).Done? then f.effective else OldEffective(w, env, FileOf(req))
  {
    hide FetchUpstream, Docker.ManifestFallback, RevalidateSource, KeyOf;
    FetchIsLogged(w, env, route, req);
  }

  /** A body that a query-free Docker fetch puts in place names its own source exactly when the Put went
      through or the old metadata fits by chance. */
  lemma SourceKeptExactly(w: World, env: Env, route: Route, req: Request)
    requires req.target == Target(req.loc.path, "") && PlacesBody(w, env, route, req)
    ensures var c := FetchAndStream(w, env, route, req).w;
            FileOf(req) in c.store && c.wire != [] &&
            (TrueTo(route.upstreamHost, req.loc, c.store[FileOf(req)], LastExchange(c).sent.target) <==>
             MetadataFits(w, env, route, req))
  {
    hide FetchUpstream, FetchAndStream, Docker.ManifestFallback, KeyOf;
    FetchIsLogged(w, env, route, req);
    PlacedEntry(w, env, route, req);
    Docker.NoFallbackToItself(route.upstreamHost, req.loc.path);
  }

  lemma UnplacedKeeps(w: World, env: Env, route: Route, req: Request)
    requires !PlacesBody(w, env, route, req)
    ensures FetchAndStream(w, env, route, req).w.store == w.store
  {
    hide FetchUpstream, Docker.ManifestFallback, RevalidateSource, KeyOf;
    FetchIsLogged(w, env, route, req);
  }

  // ---- Runs ---------------------------------------------------------------------------

  /** Requests for the file of a locator are query-free Docker requests for this locator and host. */
  predicate DockerRequest(e: Event, loc: Locator, host: string) {
    e.Serve? && FileOf(e.req) == KeyOf(loc) ==>
      e.req.loc == loc && e.req.target == Target(loc.path, "") && e.route.upstreamHost == host
  }

  /** If the event puts a body in place, its metadata fits. */
  predicate KeepsSource(w: World, e: Event) {
    e.Serve? && Places(w, e.env, e.route, e.req) ==>
      MetadataFits(BeforeFetch(w, e.env, e.route, e.req), e.env, e.route, e.req)
  }

  /** An event that changes a stored entry puts a body in place, and the entry names its source exactly
      when the metadata fits. */
  lemma EventSource(w: World, e: Event, loc: Locator, host: string)
    requires DockerRequest(e, loc, host)
    ensures var w', file := After(w, e), KeyOf(loc);
            SameAt(w, w', file) || file !in w'.store ||
            (w'.wire != [] && (TrueTo(host, loc, w'.store[file], LastExchange(w').sent.target) <==> KeepsSource(w, e)))
  {
    hide Handle, FetchAndStream, BeforeFetch, StoredBy, NotFoundSeen, KeyOf, MetadataFits, TrueTo, PlacesBody;
    EventProvenance(w, e, KeyOf(loc));
    if e.Serve? && FileOf(e.req) == KeyOf(loc) {
      var before := BeforeFetch(w, e.env, e.route, e.req);
      Stages(w, e.env, e.route, e.req);
      BeforeFetchRemoves(w, e.env, e.route, e.req);
      if Places(w, e.env, e.route, e.req) {
        SourceKeptExactly(before, e.env, e.route, e.req);
      } else if !Handle(w, e.env, e.route, e.req).served.FromCache? {
        UnplacedKeeps(before, e.env, e.route, e.req);
      }
    }
  }

  lemma BeforeFetchRemoves(w: World, env: Env, route: Route, req: Request)
    ensures var before := BeforeFetch(w, env, route, req);
            SameAt(w, before, FileOf(req)) || FileOf(req) !in before.store
  {
    hide Decide, KeyOf;
    var start := Start(w);
    if Lookup(start, env, req).Some? {
      DecideEffect(start, env, route, req, w.store[FileOf(req)]);
    }
  }

  predicate DockerRun(events: seq<Event>, loc: Locator, host: string) {
    forall i :: 0 <= i < |events| ==> DockerRequest(events[i], loc, host)
  }

  /** In every run of query-free Docker requests, the entry of a locator names the address that brought
      its body, the last one that the storing event asked, exactly when that event's metadata fits. */
  lemma {:induction false} SourceOfEntry(events: seq<Event>, loc: Locator, host: string) returns (i: nat)
    requires DockerRun(events, loc, host) && KeyOf(loc) in Run(EMPTY, events).store
    ensures i < |events| && StoredAt(events, i, KeyOf(loc), Run(EMPTY, events).store[KeyOf(loc)])
    ensures Run(EMPTY, events[..i + 1]).wire != [] &&
            (TrueTo(host, loc, Run(EMPTY, events).store[KeyOf(loc)], LastExchange(Run(EMPTY, events[..i + 1])).sent.target) <==>
             KeepsSource(Run(EMPTY, events[..i]), events[i]))
  {
    hide After, StoredBy, NotFoundSeen, KeyOf, KeepsSource, DockerRequest, TrueTo;
    var n := |events| - 1;
    var before := Run(EMPTY, events[..n]);
    assert events[..n + 1] == events;
    EventProvenance(before, events[n], KeyOf(loc));
    EventSource(before, events[n], loc, host);
    if SameAt(before, Run(EMPTY, events), KeyOf(loc)) {
      i := SourceOfEntry(events[..n], loc, host);
      assert events[..n][..i + 1] == events[..i + 1] && events[..n][..i] == events[..i];
    } else {
      i := n;
    }
  }

  /** In every such run, if the metadata fits at the event that stored the entry, the effective path is
      empty or exactly the fallback of the entry's own path, and every revalidation HEAD of the next request
      goes to the address whose 200 to that event's client GET brought the stored body: whatever upstream
      says about other paths by then. */
  lemma RevalidationAsksTheSource(events: seq<Event>, loc: Locator, host: string, next: Event) returns (i: nat)
    requires DockerRun(events, loc, host) && KeyOf(loc) in Run(EMPTY, events).store
    requires next.Serve? && next.req.loc == loc && DockerRequest(next, loc, host)
    ensures i < |events| && StoredAt(events, i, KeyOf(loc), Run(EMPTY, events).store[KeyOf(loc)])
    ensures Run(EMPTY, events[..i + 1]).wire != []
    ensures KeepsSource(Run(EMPTY, events[..i]), events[i]) ==>
              var w := Run(EMPTY, events);
              var entry := w.store[KeyOf(loc)];
              (entry.effective == "" || Docker.ManifestFallback(host, loc.path) == Docker.FallbackTo(entry.effective)) &&
              ChecksGoTo(After(w, next).wire, LastExchange(Run(EMPTY, events[..i + 1])).sent.target)
  {
    i := SourceOfEntry(events, loc, host);
    var w := Run(EMPTY, events);
    RequestAsks(w, next.env, next.route, next.req);
    hide Handle, Docker.ManifestFallback, Run, StoredAt, KeyOf, DockerRun, KeepsSource;
  }

  /** With a torn Put the claim fails: the body of the fallback is stored without its path. */
  lemma TornPutLosesTheSource(route: Route, req: Request, fallback: string) returns (env: Env)
    requires req.verb == GET && req.policy.allowStore && !route.hasCredentials
    requires Docker.ManifestFallback(route.upstreamHost, req.target.path) == Docker.FallbackTo(fallback)
    ensures env.put == AtMetadata
    ensures var w := Handle(EMPTY, env, route, req).w;
            FileOf(req) in w.store && w.store[FileOf(req)].effective == "" && w.wire != [] &&
            LastExchange(w).sent.target == req.target.(path := fallback)
  {
    hide Docker.ManifestFallback, KeyOf;
    env := Env(0, true, [Status(404), Status(200)], [], NoHook, false, AtMetadata, 0, "", true);
  }
}
