/** What a request says to upstream and what the client gets for it, read off its log and the state
    before it: which requests are made, what each carries, and when the cache answers. */
module RequestLaws {
  import opened Text
  import opened CacheKeys
  import opened Proxy
  import opened ProxyRuns
  import Docker

  // ---- Fetching -----------------------------------------------------------------

  /** A fetch asks a second address exactly when the answer of the first, after its authentication retry, is
      a 404 and the path has a fallback. Otherwise that answer stands, without an effective path. */
  lemma FetchAsksExactly(w: World, env: Env, route: Route, req: Request)
    ensures var own := Sent(Fetch, req.verb, req.target, req.ifNoneMatch, Configured);
            var first := AskWithAuth(w, env, route, own);
            var fallback := Docker.ManifestFallback(route.upstreamHost, req.target.path);
            var again := first.answer.Got? && first.answer.response.status == 404 && fallback.FallbackTo?;
            var f := FetchUpstream(w, env, route, req);
            (again <==> AsksElsewhere(f.w.wire, |w.wire|, req.target)) &&
            (!again ==> f == Fetched(first.w, first.answer, "")) &&
            (again ==>
               var second := AskWithAuth(first.w, env, route, own.(target := Target(fallback.path, req.target.query)));
               f == Fetched(second.w, second.answer,
                            if second.answer.Got? && second.answer.response.status == 200 then fallback.path else ""))
  {
    hide AskWithAuth, Docker.ManifestFallback;
    var own := Sent(Fetch, req.verb, req.target, req.ifNoneMatch, Configured);
    var first := AskWithAuth(w, env, route, own);
    AskWithAuthAttempts(w, env, route, own);
    var fallback := Docker.ManifestFallback(route.upstreamHost, req.target.path);
    if fallback.FallbackTo? {
      Docker.NoFallbackToItself(route.upstreamHost, req.target.path);
      var other := own.(target := Target(fallback.path, req.target.query));
      var second := AskWithAuth(first.w, env, route, other);
      AskWithAuthAttempts(first.w, env, route, other);
      assert second.w.wire[|second.w.wire| - 1].sent.(auth := Configured) == other;
    }
  }

  /** Some exchange from index `n` on goes to another address. */
  ghost predicate AsksElsewhere(wire: seq<Exchange>, n: nat, target: Target) {
    exists i :: n <= i < |wire| && wire[i].sent.target != target
  }

  // ---- Revalidating ---------------------------------------------------------------

  /** The HEAD that revalidates an entry: to the address its body came from, naming the validator remembered
      for the locator or, when there is none, whatever the client's own header names. */
  predicate AsksAbout(sent: Sent, etags: map<Locator, string>, req: Request, entry: Entry) {
    sent.verb == HEAD && sent.target == (if entry.effective == "" then req.target else Target(entry.effective, "")) &&
    if req.loc in etags && etags[req.loc] != "" then sent.ifNoneMatch == etags[req.loc] else sent.ifNoneMatch == req.ifNoneMatch
  }

  /** The request finds an entry that it has to revalidate first. */
  predicate Checks(w: World, env: Env, route: Route, req: Request) {
    req.policy.allowCache && env.readable && FileOf(req) in w.store && req.policy.requireRevalidate && route.validates &&
    !(route.ttl > 0 && env.now < w.store[FileOf(req)].modTime + route.ttl)
  }

  /** The answer to that HEAD, after its authentication retry. */
  function CheckAnswer(w: World, env: Env, route: Route, req: Request): Answer
    requires FileOf(req) in w.store
  {
    AskWithAuth(Start(w), env, route, HeadOf(w, req, w.store[FileOf(req)], Revalidate)).answer
  }

  /** A 304, or a 200 that tells something about the resource and is not newer than the entry. */
  predicate Confirms(answer: Answer, entry: Entry) {
    answer.Got? &&
    (answer.response.status == 304 ||
     (answer.response.status == 200 &&
      match answer.response.modified
      case Some(time) => time <= entry.modTime
      case None => (answer.response.digest != "" || answer.response.etag != "") && answer.at <= entry.modTime))
  }

  /** The cache answers exactly when the policy allows caching, the store has the file, and the policy asks for
      no revalidation, the entry is within its TTL, or upstream confirms it; and it answers with that entry. */
  lemma ServedExactly(w: World, env: Env, route: Route, req: Request)
    ensures var c := Handle(w, env, route, req);
            (c.served.FromCache? <==>
               req.policy.allowCache && env.readable && FileOf(req) in w.store &&
               (!req.policy.requireRevalidate ||
                (route.ttl > 0 && env.now < w.store[FileOf(req)].modTime + route.ttl) ||
                (route.validates && Confirms(CheckAnswer(w, env, route, req), w.store[FileOf(req)])))) &&
            (c.served.FromCache? ==> c.served.entry == w.store[FileOf(req)])
  {
    hide AskWithAuth, FetchAndStream, ServeCache, KeyOf;
    FetchIsUpstream(BeforeFetch(w, env, route, req), env, route, req);
  }

  /** What a revalidation leaves behind: an entry goes, with its validator, after a 404 only; a 200 is
      remembered by its digest or, without one, its etag; everything else leaves store and validators alone. */
  lemma RevalidationLeaves(w: World, env: Env, route: Route, req: Request)
    ensures var before := BeforeFetch(w, env, route, req);
            var status := if Checks(w, env, route, req) && CheckAnswer(w, env, route, req).Got?
                          then CheckAnswer(w, env, route, req).response.status else 0;
            before.store == (if status == 404 && env.removes then w.store - {FileOf(req)} else w.store) &&
            before.etags == (if status == 404 then w.etags - {req.loc}
                             else if status == 200 then Learned(w.etags, req.loc, CheckAnswer(w, env, route, req).response)
                             else w.etags)
  {
    hide AskWithAuth, KeyOf;
    if Checks(w, env, route, req) {
      AskWithAuthAttempts(Start(w), env, route, HeadOf(w, req, w.store[FileOf(req)], Revalidate));
    }
  }

  /** The validators after a response for a locator. */
  function Learned(etags: map<Locator, string>, loc: Locator, r: Response): map<Locator, string> {
    if r.digest != "" then etags[loc := r.digest] else if r.etag != "" then etags[loc := r.etag] else etags
  }

  // ---- The log of a request ---------------------------------------------------------

  /** A fetch passes on the client's own method, query and condition, to its path or the fallback of it. */
  predicate IsFetch(sent: Sent, route: Route, req: Request) {
    sent.purpose == Fetch && sent.verb == req.verb && sent.ifNoneMatch == req.ifNoneMatch && sent.target.query == req.target.query &&
    (sent.target.path == req.target.path ||
     Docker.ManifestFallback(route.upstreamHost, req.target.path) == Docker.FallbackTo(sent.target.path))
  }

  lemma AttemptsOf(w: World, env: Env, route: Route, sent: Sent)
    requires sent.auth == Configured
    ensures var wire := AskWithAuth(w, env, route, sent).w.wire;
            w.wire < wire &&
            forall i :: |w.wire| <= i < |wire| ==>
              wire[i].sent.purpose == sent.purpose && wire[i].sent.verb == sent.verb &&
              wire[i].sent.target == sent.target && wire[i].sent.ifNoneMatch == sent.ifNoneMatch
  {
    AskWithAuthAttempts(w, env, route, sent);
    hide AskWithAuth;
    var wire := AskWithAuth(w, env, route, sent).w.wire;
    forall i | |w.wire| <= i < |wire|
      ensures wire[i].sent.purpose == sent.purpose && wire[i].sent.verb == sent.verb &&
              wire[i].sent.target == sent.target && wire[i].sent.ifNoneMatch == sent.ifNoneMatch
    {
      assert wire[i].sent.(auth := Configured) == sent;
    }
  }

  lemma FetchLog(w: World, env: Env, route: Route, req: Request)
    ensures var wire := FetchAndStream(w, env, route, req).w.wire;
            w.wire < wire && forall i :: |w.wire| <= i < |wire| ==> IsFetch(wire[i].sent, route, req)
  {
    hide AskWithAuth, Docker.ManifestFallback, ConsumeUpstream;
    var own := FetchOf(req, req.target.path);
    AttemptsOf(w, env, route, own);
    var first := AskWithAuth(w, env, route, own);
    var fallback := Docker.ManifestFallback(route.upstreamHost, req.target.path);
    if fallback.FallbackTo? {
      AttemptsOf(first.w, env, route, FetchOf(req, fallback.path));
    }
    var f := FetchUpstream(w, env, route, req);
    if f.answer.Got? {
      ConsumeKeepsWork(f.w, env, req, ApplyRewrite(env.rewrite, f.answer.response), f.effective);
    }
  }

  lemma CheckLog(w: World, env: Env, route: Route, req: Request)
    ensures var before := BeforeFetch(w, env, route, req);
            (before.wire != [] <==> Checks(w, env, route, req)) &&
            forall i :: 0 <= i < |before.wire| ==>
              before.wire[i].sent.purpose == Revalidate && FileOf(req) in w.store &&
              AsksAbout(before.wire[i].sent, w.etags, req, w.store[FileOf(req)])
  {
    hide AskWithAuth, KeyOf;
    if Checks(w, env, route, req) {
      AttemptsOf(Start(w), env, route, HeadOf(w, req, w.store[FileOf(req)], Revalidate));
    }
  }

  /** The log of a request, exchange by exchange: HEADs that revalidate come first, exactly when there is an
      entry to revalidate; then a hit makes one more HEAD, exactly for a client's HEAD whose cache policy allows
      and wants it, and everything else at least one fetch. */
  lemma RequestLog(w: World, env: Env, route: Route, req: Request)
    ensures var c, checks := Handle(w, env, route, req), |BeforeFetch(w, env, route, req).wire|;
            (checks > 0 <==> Checks(w, env, route, req)) && checks <= |c.w.wire| &&
            (forall i :: 0 <= i < checks ==>
               c.w.wire[i].sent.purpose == Revalidate && FileOf(req) in w.store &&
               AsksAbout(c.w.wire[i].sent, w.etags, req, w.store[FileOf(req)])) &&
            (!c.served.FromCache? ==>
               |c.w.wire| > checks && forall i :: checks <= i < |c.w.wire| ==> IsFetch(c.w.wire[i].sent, route, req)) &&
            (c.served.FromCache? ==>
               |c.w.wire| == checks +
                 (if req.verb == HEAD && (req.headPolicy.None? || req.headPolicy.value == Docker.Policy(true, true, true)) then 1 else 0) &&
               (|c.w.wire| > checks ==> c.w.wire[checks].sent.purpose == HeadCheck && c.w.wire[checks].sent.auth == Configured &&
                                        AsksAbout(c.w.wire[checks].sent, c.w.etags, req, c.served.entry)))
  {
    CheckLog(w, env, route, req);
    Stages(w, env, route, req);
    FetchLog(BeforeFetch(w, env, route, req), env, route, req);
    ServedExactly(w, env, route, req);
    hide FetchAndStream, KeyOf, Confirms, IsFetch, BeforeFetch, CheckAnswer, Handle;
    var c, before := Handle(w, env, route, req), BeforeFetch(w, env, route, req);
    HitStage(w, env, route, req);
  }

  lemma HitStage(w: World, env: Env, route: Route, req: Request)
    ensures var c := Handle(w, env, route, req);
            c.served.FromCache? ==> c.w == ServeCache(BeforeFetch(w, env, route, req), env, req, c.served.entry)
  {
    hide FetchAndStream, Decide, ServeCache, KeyOf;
    FetchIsUpstream(BeforeFetch(w, env, route, req), env, route, req);
  }

  /** Under a policy that forbids caching, all that a request says is its fetch, whatever is stored. */
  lemma ForbiddenIsFetched(w: World, env: Env, route: Route, req: Request)
    requires !req.policy.allowCache
    ensures var c := Handle(w, env, route, req);
            !c.served.FromCache? && c.w.wire != [] && forall i :: 0 <= i < |c.w.wire| ==> IsFetch(c.w.wire[i].sent, route, req)
  {
    hide Handle, IsFetch, CheckAnswer, Confirms;
    ServedExactly(w, env, route, req);
    RequestLog(w, env, route, req);
  }

  // ---- The method of a request --------------------------------------------------------

  /** `determineCachePolicy`: only GET and HEAD may be cached. */
  function BasePolicy(verb: Verb): Docker.Policy {
    if verb == GET || verb == HEAD then Docker.Policy(true, true, false) else Docker.Policy(false, false, false)
  }

  /** `determineCachePolicyWithHook`: what a hook returns takes the place of the base policy. */
  function PolicyOf(verb: Verb, hook: Option<Docker.Policy -> Docker.Policy>): Docker.Policy {
    if hook.None? then BasePolicy(verb) else hook.value(BasePolicy(verb))
  }

  /** The hook of Docker hubs does not look at the policy it is given. */
  function DockerHook(path: string): Option<Docker.Policy -> Docker.Policy> {
    Some((current: Docker.Policy) => Docker.CachePolicy(path))
  }

  /** In a hub without such a hook a request that is neither GET nor HEAD always goes upstream and is never
      stored. */
  lemma WritesGoUpstream(w: World, env: Env, route: Route, req: Request)
    requires req.verb == Other && req.policy == PolicyOf(req.verb, None)
    ensures var c := Handle(w, env, route, req);
            !c.served.FromCache? && c.w.wire != [] && c.w.store == w.store && c.w.etags == w.etags &&
            forall i :: 0 <= i < |c.w.wire| ==> IsFetch(c.w.wire[i].sent, route, req)
  {
    ForbiddenIsFetched(w, env, route, req);
    hide FetchUpstream, IsFetch, Docker.ManifestFallback;
    FetchIsLogged(Start(w), env, route, req);
  }

  /** In a Docker hub it is answered like a GET: for a path that is named by digest and stored, from the cache,
      without a word to upstream. */
  lemma DockerWriteIsServed(w: World, env: Env, route: Route, req: Request)
    requires req.verb == Other && req.policy == PolicyOf(req.verb, DockerHook(req.loc.path))
    requires env.readable && FileOf(req) in w.store
    ensures var c, segs := Handle(w, env, route, req), Split(req.loc.path, '/');
            var refused := req.loc.path in {"/v2", "v2", "/v2/"} || Docker.SegmentStarts(segs, "_catalog");
            var digested := Docker.PairStarts(segs, "blobs", "sha256:") || Docker.PairStarts(segs, "manifests", "sha256:");
            (refused ==> !c.served.FromCache?) &&
            (!refused && digested ==> c.served == FromCache(w.store[FileOf(req)]) && c.w.wire == [])
  {
    Docker.PolicyExactly(req.loc.path);
    hide Docker.CachePolicy, Docker.SegmentStarts, Docker.PairStarts, Split, Handle, IsFetch, CheckAnswer, Confirms, FileOf;
    ServedExactly(w, env, route, req);
    RequestLog(w, env, route, req);
  }
}
