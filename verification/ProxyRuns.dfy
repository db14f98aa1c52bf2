/** What one request does to the handler's state, for any behaviour of upstream: how many
    requests it makes, to whom, and what it may change. */
module ProxyRuns {
  import opened CacheKeys
  import opened Proxy
  import Auth
  import Docker

  // ---- What an exchange with one retry adds --------------------------------------

  /** The new exchanges are attempts of `sent`, and the answer is that of the last one. */
  ghost predicate Attempts(w: World, reply: Reply, sent: Sent) {
    reply.w.store == w.store && reply.w.etags == w.etags && w.wire < reply.w.wire &&
    (forall i :: |w.wire| <= i < |reply.w.wire| ==> reply.w.wire[i].sent.(auth := Configured) == sent) &&
    (reply.answer.Got? ==> reply.w.wire[|reply.w.wire| - 1].answer == reply.answer)
  }

  lemma AskWithAuthAttempts(w: World, env: Env, route: Route, sent: Sent)
    requires sent.auth == Configured
    ensures Attempts(w, AskWithAuth(w, env, route, sent), sent)
  {
    hide Auth.FirstChallenge;
  }

  lemma AskWithAuthWork(w: World, env: Env, route: Route, sent: Sent)
    ensures var r := AskWithAuth(w, env, route, sent).w;
            |r.wire| <= |w.wire| + (if route.hasCredentials then 2 else 1) &&
            r.tokens <= w.tokens + (if route.hasCredentials then 1 else 0)
  {
    hide Auth.FirstChallenge;
  }

  /** The token service lets this request through. */
  predicate TokenGranted(w: World, env: Env) {
    w.tokens < |env.tokens| && env.tokens[w.tokens].Granted?
  }

  /** The `i`-th answer that upstream gives during a request. */
  function AnswerAt(env: Env, i: nat): Answer {
    if i < |env.answers| then env.answers[i] else Lost
  }

  /** There is a second attempt exactly when credentials are configured, the first answer was 401 or 429, and
      a Bearer challenge in it, if any, was met with a token; then, and only then, it carries that token. A
      challenge that is not met loses the request; without a second attempt the first answer stands. */
  lemma RetryExactly(w: World, env: Env, route: Route, sent: Sent)
    ensures var first, second := AnswerAt(env, |w.wire|), AnswerAt(env, |w.wire| + 1);
            var denied := first.Got? && first.response.status in {401, 429} && route.hasCredentials;
            var bearer := denied && Auth.FirstChallenge(first.response.challenges).Bearer?;
            var twice := denied && (bearer ==> TokenGranted(w, env));
            var asked := bearer && !(w.tokens < |env.tokens| && env.tokens[w.tokens].BadRealm?);
            var reply := AskWithAuth(w, env, route, sent);
            reply.answer == (if twice then second else if denied then Lost else first) &&
            reply.w.wire == w.wire + [Exchange(sent, first)] +
                            (if twice then [Exchange(if bearer then sent.(auth := Token) else sent, second)] else []) &&
            reply.w.tokens == w.tokens + (if asked then 1 else 0) &&
            reply.w.store == w.store && reply.w.etags == w.etags
  {
    hide Auth.FirstChallenge;
  }

  // ---- Bounded work ------------------------------------------------------------------

  lemma FetchWork(w: World, env: Env, route: Route, req: Request)
    ensures var r := FetchAndStream(w, env, route, req).w;
            |r.wire| <= |w.wire| + (if route.hasCredentials then 4 else 2) &&
            r.tokens <= w.tokens + (if route.hasCredentials then 2 else 0)
  {
    hide AskWithAuth, Docker.ManifestFallback, ApplyRewrite;
    AskWithAuthWork(w, env, route, FetchOf(req, req.target.path));
    var first := AskWithAuth(w, env, route, FetchOf(req, req.target.path));
    var fallback := Docker.ManifestFallback(route.upstreamHost, req.target.path);
    if fallback.FallbackTo? {
      AskWithAuthWork(first.w, env, route, FetchOf(req, fallback.path));
    }
  }

  lemma DecideWork(w: World, env: Env, route: Route, req: Request, entry: Entry)
    ensures var r := Decide(w, env, route, req, entry).w;
            |r.wire| <= |w.wire| + (if route.hasCredentials then 2 else 1) &&
            r.tokens <= w.tokens + (if route.hasCredentials then 1 else 0)
  {
    hide AskWithAuth;
    AskWithAuthWork(w, env, route, HeadOf(w, req, entry, Revalidate));
  }

  /** Whatever upstream answers, one client request leads to at most six upstream and three token
      requests with credentials, and to at most three upstream requests without. */
  lemma BoundedWork(w: World, env: Env, route: Route, req: Request)
    ensures var r := Handle(w, env, route, req).w;
            |r.wire| <= (if route.hasCredentials then 6 else 3) && r.tokens <= (if route.hasCredentials then 3 else 0)
  {
    hide FetchAndStream, Decide;
    var start := w.(wire := [], tokens := 0);
    match Lookup(start, env, req)
    case None =>
      FetchWork(start, env, route, req);
    case Some(entry) =>
      DecideWork(start, env, route, req, entry);
      FetchWork(Decide(start, env, route, req, entry).w, env, route, req);
  }

  function Denied(challenges: seq<string>): Answer {
    Got(Response(401, "", "", None, challenges, [], false), 0)
  }

  function Status(status: int): Answer {
    Got(Response(status, "", "", None, [], [], false), 0)
  }

  /** Both bounds are reached: a stale manifest whose every request is first denied. */
  lemma WorkBoundIsTight(w: World, route: Route, req: Request, challenges: seq<string>) returns (env: Env)
    requires route.hasCredentials && route.ttl == 0 && route.validates && req.policy == Docker.Policy(true, true, true)
    requires FileOf(req) in w.store && Auth.FirstChallenge(challenges).Bearer?
    requires Docker.ManifestFallback(route.upstreamHost, req.target.path).FallbackTo?
    ensures var r := Handle(w, env, route, req).w; |r.wire| == 6 && r.tokens == 3
  {
    hide Auth.FirstChallenge, Docker.ManifestFallback, ConsumeUpstream, KeyOf;
    var no := Denied(challenges);
    env := Env(0, true, [no, Status(500), no, Status(404), no, Status(200)], [Granted, Granted, Granted], NoHook, false, Done, 0, "", true);
    var start, entry := w.(wire := [], tokens := 0), w.store[FileOf(req)];
    var judged := IsCacheFresh(start, env, route, req, entry);
    assert |judged.w.wire| == 2 && judged.w.tokens == 1 && judged.verdict.Stale?;
    var first := AskWithAuth(judged.w, env, route, FetchOf(req, req.target.path));
    assert |first.w.wire| == 4 && first.w.tokens == 2 && first.answer == Status(404);
    var fetched := RetryFallback(first.w, env, route, req, first.answer);
    assert |fetched.w.wire| == 6 && fetched.w.tokens == 3 && fetched.answer == Status(200);
    ConsumeKeepsWork(fetched.w, env, req, fetched.answer.response, fetched.effective);
    hide AskWithAuth, RetryFallback, IsCacheFresh;
  }

  lemma ConsumeKeepsWork(w: World, env: Env, req: Request, r: Response, effective: string)
    ensures var c := ConsumeUpstream(w, env, req, r, effective).w; c.wire == w.wire && c.tokens == w.tokens
  {
  }

  // ---- The stages of a request ---------------------------------------------------------

  function Start(w: World): World {
    w.(wire := [], tokens := 0)
  }

  /** The state in which a request that does not serve from the cache goes to fetch. */
  function BeforeFetch(w: World, env: Env, route: Route, req: Request): World {
    if Lookup(Start(w), env, req).Some? then Decide(Start(w), env, route, req, w.store[FileOf(req)]).w else Start(w)
  }

  /** The fetch ends in a 200 whose body a Put puts in place, whole or torn. */
  predicate PlacesBody(w: World, env: Env, route: Route, req: Request) {
    var answer := FetchUpstream(w, env, route, req).answer;
    answer.Got? && answer.response.status == 200 && req.policy.allowStore && req.verb == GET &&
    !PutReach(env, ApplyRewrite(env.rewrite, answer.response)).BeforeRename?
  }

  /** The request goes to fetch and gets a body in place. */
  predicate Places(w: World, env: Env, route: Route, req: Request) {
    !Handle(w, env, route, req).served.FromCache? && PlacesBody(BeforeFetch(w, env, route, req), env, route, req)
  }

  lemma FetchIsUpstream(w: World, env: Env, route: Route, req: Request)
    ensures var served := FetchAndStream(w, env, route, req).served;
            !served.FromCache? && (PlacesBody(w, env, route, req) ==> served.FromUpstream?)
  {
    hide FetchUpstream, KeyOf;
  }

  lemma ServeCacheKeeps(w: World, env: Env, req: Request, entry: Entry)
    ensures var c := ServeCache(w, env, req, entry); w.wire <= c.wire && c.store == w.store && c.etags == w.etags
  {
  }

  /** A request is either served from the cache, or it is the fetch from `BeforeFetch`. */
  lemma Stages(w: World, env: Env, route: Route, req: Request)
    ensures var c, before := Handle(w, env, route, req), BeforeFetch(w, env, route, req);
            if c.served.FromCache? then c.w.store == before.store && c.w.etags == before.etags
            else c == FetchAndStream(before, env, route, req)
  {
    hide FetchAndStream, Decide, KeyOf;
    FetchIsUpstream(BeforeFetch(w, env, route, req), env, route, req);
  }

  // ---- What a request may change -------------------------------------------------------

  /** The last exchange of a request, whose answer is what a fetch went on with. */
  function LastExchange(w: World): Exchange
    requires w.wire != []
  {
    w.wire[|w.wire| - 1]
  }

  lemma FallbackNotEmpty(host: string, path: string)
    ensures Docker.ManifestFallback(host, path).FallbackTo? ==> Docker.ManifestFallback(host, path).path != ""
  {
  }

  /** A fetch changes nothing but the log; a 200 came from the request's own path, or from its
      fallback when the effective path says so. */
  ghost predicate FetchLogged(w: World, route: Route, req: Request, f: Fetched) {
    f.w.store == w.store && f.w.etags == w.etags && w.wire < f.w.wire &&
    (forall i :: |w.wire| <= i < |f.w.wire| ==> f.w.wire[i].sent.purpose == Fetch && f.w.wire[i].sent.verb == req.verb) &&
    (f.answer.Got? ==> LastExchange(f.w).answer == f.answer) &&
    (f.answer.Got? && f.answer.response.status == 200 ==>
       LastExchange(f.w).sent.target == RevalidateSource(req, f.effective)) &&
    (f.effective != "" ==> Docker.ManifestFallback(route.upstreamHost, req.target.path) == Docker.FallbackTo(f.effective))
  }

  function RevalidateSource(req: Request, effective: string): Target {
    if effective == "" then req.target else req.target.(path := effective)
  }

  lemma FetchIsLogged(w: World, env: Env, route: Route, req: Request)
    ensures FetchLogged(w, route, req, FetchUpstream(w, env, route, req))
  {
    hide AskWithAuth, Docker.ManifestFallback;
    FallbackNotEmpty(route.upstreamHost, req.target.path);
    var sent := FetchOf(req, req.target.path);
    AskWithAuthAttempts(w, env, route, sent);
    var first := AskWithAuth(w, env, route, sent);
    var fallback := Docker.ManifestFallback(route.upstreamHost, req.target.path);
    if fallback.FallbackTo? {
      AskWithAuthAttempts(first.w, env, route, FetchOf(req, fallback.path));
    }
  }

  /** An entry was put there by this request: a GET under a policy that allows storing, whose last
      exchange brought a 200. */
  ghost predicate StoredBy(w': World, env: Env, req: Request, entry: Entry) {
    req.verb == GET && req.policy.allowStore && w'.wire != [] && LastExchange(w').answer.Got? &&
    var r := LastExchange(w').answer.response;
    LastExchange(w').sent.purpose == Fetch && LastExchange(w').sent.verb == GET && r.status == 200 &&
    !ApplyRewrite(env.rewrite, r).cut && entry.body == ApplyRewrite(env.rewrite, r).body
  }

  /** The body that should be stored: the rewritten one, or the original if rewriting failed. */
  function Intended(rewrite: Rewrite, r: Response): Bytes {
    if rewrite.Rewritten? then rewrite.body else r.body
  }
}
