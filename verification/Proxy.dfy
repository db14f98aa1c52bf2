/** The request handler: cache lookup, revalidation with a remembered validator, fetch with one
    authentication retry and one registry.k8s.io fallback, and the write to the store.

    The spec functions thread a `World` through one request; the class does the same to its
    fields. Upstream, the token service, the hooks and every fault are chosen by `Env`. */
module Proxy {
  import opened CacheKeys
  import Auth
  import Docker

  type Bytes = seq<bv8>

  datatype Option<T> = None | Some(value: T)

  datatype Verb = GET | HEAD | Other

  /** An upstream address, as far as the handler chooses it. */
  datatype Target = Target(path: string, query: string)

  datatype Authorization = Configured | Token

  datatype Purpose = Revalidate | Fetch | HeadCheck

  datatype Sent = Sent(purpose: Purpose, verb: Verb, target: Target, ifNoneMatch: string, auth: Authorization)

  /** `body` is what reading the response yields before its end or, when `cut`, before an error. */
  datatype Response = Response(status: int, digest: string, etag: string, modified: Option<int>,
                               challenges: seq<string>, body: Bytes, cut: bool)

  datatype Answer = Got(response: Response, at: int) | Lost

  datatype Exchange = Exchange(sent: Sent, answer: Answer)

  datatype TokenAnswer = Granted | Refused | BadRealm

  datatype Entry = Entry(body: Bytes, modTime: int, effective: string)

  datatype Route = Route(hasCredentials: bool, upstreamHost: string, ttl: int, validates: bool)

  /** The response rewrite of a hook. The hooks of this repository return the status unchanged. */
  datatype Rewrite = NoHook | Rewritten(digest: string, etag: string, modified: Option<int>, body: Bytes) | RewriteFails

  /** A normalised request: `loc` is its locator, `policy` its cache policy, and `headPolicy` what a
      cache policy hook says when a HEAD is answered from the cache. */
  datatype Request = Request(verb: Verb, loc: Locator, target: Target, policy: Docker.Policy,
                             headPolicy: Option<Docker.Policy>, ifNoneMatch: string)

  /** How a Put ends: well, before the body is in place, or after that at the time or the metadata. */
  datatype PutEnd = Done | BeforeRename | AtTime | AtMetadata

  /** What the environment decides during one request. `orphan` is the effective path of a metadata
      file without a body, which a Put that fails late leaves in force. */
  datatype Env = Env(now: int, readable: bool, answers: seq<Answer>, tokens: seq<TokenAnswer>, rewrite: Rewrite,
                     clientGone: bool, put: PutEnd, putAt: int, orphan: string, removes: bool)

  /** The file of a request's locator. Entries live in files, remembered validators under locators. */
  function FileOf(req: Request): Key {
    KeyOf(req.loc)
  }

  /** The handler's state, and what it has exchanged during the current request. */
  datatype World = World(store: map<Key, Entry>, etags: map<Locator, string>, wire: seq<Exchange>, tokens: nat)

  datatype Reply = Reply(w: World, answer: Answer)

  datatype Verdict = Fresh | Stale | Unknown

  datatype Served = FromCache(entry: Entry) | FromUpstream(response: Response, stored: bool) | BadGateway

  // ---- Exchanges --------------------------------------------------------------

  function NextAnswer(w: World, env: Env): Answer {
    if |w.wire| < |env.answers| then env.answers[|w.wire|] else Lost
  }

  function Ask(w: World, env: Env, sent: Sent): Reply {
    Reply(w.(wire := w.wire + [Exchange(sent, NextAnswer(w, env))]), NextAnswer(w, env))
  }

  function ShouldRetryAuth(route: Route, status: int): bool {
    route.hasCredentials && (status == 401 || status == 429)
  }

  datatype TokenReply = TokenReply(w: World, granted: bool)

  function FetchToken(w: World, env: Env): TokenReply {
    var answer := if w.tokens < |env.tokens| then env.tokens[w.tokens] else Refused;
    TokenReply(if answer.BadRealm? then w else w.(tokens := w.tokens + 1), answer.Granted?)
  }

  /** The second attempt after an authentication failure: with a token when the answer carries a
      Bearer challenge, with the configured credentials otherwise. */
  function RetryAuth(w: World, env: Env, route: Route, sent: Sent, answer: Answer): Reply {
    if answer.Lost? || !ShouldRetryAuth(route, answer.response.status) then Reply(w, answer)
    else match Auth.FirstChallenge(answer.response.challenges)
         case NoChallenge => Ask(w, env, sent)
         case Bearer(_, _, _) =>
           var token := FetchToken(w, env);
           if token.granted then Ask(token.w, env, sent.(auth := Token)) else Reply(token.w, Lost)
  }

  function AskWithAuth(w: World, env: Env, route: Route, sent: Sent): Reply {
    var first := Ask(w, env, sent);
    RetryAuth(first.w, env, route, sent, first.answer)
  }

  // ---- Revalidation -------------------------------------------------------------

  function CachedETag(w: World, loc: Locator): string {
    if loc in w.etags then w.etags[loc] else ""
  }

  /** `Docker-Content-Digest`, else `Etag`. */
  function Validator(r: Response): string {
    if r.digest != "" then r.digest else r.etag
  }

  function RememberETag(w: World, loc: Locator, r: Response): World {
    if Validator(r) == "" then w else w.(etags := w.etags[loc := Validator(r)])
  }

  function ForgetETag(w: World, loc: Locator): World {
    w.(etags := w.etags - {loc})
  }

  /** Last-Modified, or the clock. */
  function ModTime(r: Response, clock: int): int {
    if r.modified.Some? then r.modified.value else clock
  }

  function RevalidateTarget(req: Request, entry: Entry): Target {
    if entry.effective == "" then req.target else Target(entry.effective, "")
  }

  /** The remembered validator takes the place of a conditional header of the client. */
  function Condition(w: World, req: Request): string {
    if CachedETag(w, req.loc) != "" then CachedETag(w, req.loc) else req.ifNoneMatch
  }

  function HeadOf(w: World, req: Request, entry: Entry, purpose: Purpose): Sent {
    Sent(purpose, HEAD, RevalidateTarget(req, entry), Condition(w, req), Configured)
  }

  datatype Judged = Judged(w: World, verdict: Verdict)

  function Judge(w: World, env: Env, req: Request, entry: Entry, answer: Answer): Judged {
    if answer.Lost? then Judged(w, Unknown)
    else
      var r := answer.response;
      if r.status == 304 then Judged(w, Fresh)
      else if r.status == 200 then
        if r.etag == "" && r.digest == "" && r.modified.None? then Judged(w, Stale)
        else Judged(RememberETag(w, req.loc, r), if ModTime(r, answer.at) > entry.modTime then Stale else Fresh)
      else if r.status == 404 then
        Judged(ForgetETag(if env.removes then w.(store := w.store - {FileOf(req)}) else w, req.loc), Stale)
      else Judged(w, Stale)
  }

  function IsCacheFresh(w: World, env: Env, route: Route, req: Request, entry: Entry): Judged {
    var reply := AskWithAuth(w, env, route, HeadOf(w, req, entry, Revalidate));
    Judge(reply.w, env, req, entry, reply.answer)
  }

  function ShouldBypassValidation(route: Route, entry: Entry, now: int): bool {
    route.ttl > 0 && now < entry.modTime + route.ttl
  }

  // ---- Serving from the cache ---------------------------------------------------

  function ChecksHead(req: Request): bool {
    req.headPolicy.None? ||
    (req.headPolicy.value.allowCache && req.headPolicy.value.allowStore && req.headPolicy.value.requireRevalidate)
  }

  /** A HEAD served from the cache may be checked upstream, but the answer is not looked at. */
  function ServeCache(w: World, env: Env, req: Request, entry: Entry): World {
    if req.verb == HEAD && ChecksHead(req) then Ask(w, env, HeadOf(w, req, entry, HeadCheck)).w else w
  }

  // ---- Fetching -------------------------------------------------------------------

  datatype Fetched = Fetched(w: World, answer: Answer, effective: string)

  function FetchOf(req: Request, path: string): Sent {
    Sent(Fetch, req.verb, req.target.(path := path), req.ifNoneMatch, Configured)
  }

  /** After a 404, registry.k8s.io manifests are asked for once more under the doubled name. */
  function RetryFallback(w: World, env: Env, route: Route, req: Request, answer: Answer): Fetched {
    if answer.Lost? || answer.response.status != 404 then Fetched(w, answer, "")
    else match Docker.ManifestFallback(route.upstreamHost, req.target.path)
         case NoFallback => Fetched(w, answer, "")
         case FallbackTo(path) =>
           var reply := AskWithAuth(w, env, route, FetchOf(req, path));
           Fetched(reply.w, reply.answer,
                   if reply.answer.Got? && reply.answer.response.status == 200 then path else "")
  }

  function FetchUpstream(w: World, env: Env, route: Route, req: Request): Fetched {
    var reply := AskWithAuth(w, env, route, FetchOf(req, req.target.path));
    RetryFallback(reply.w, env, route, req, reply.answer)
  }

  /** The hook reads the whole body first. If that fails, the response goes on with an empty body;
      if the hook itself fails, with the original one. */
  function ApplyRewrite(rewrite: Rewrite, r: Response): Response {
    match rewrite
    case NoHook => r
    case RewriteFails => if r.cut then r.(body := [], cut := false) else r
    case Rewritten(digest, etag, modified, body) =>
      if r.cut then r.(body := [], cut := false)
      else r.(digest := digest, etag := etag, modified := modified, body := body)
  }

  datatype Consumed = Consumed(w: World, served: Served)

  /** How far a Put of this response gets. A body that cannot be read or sent to its end never
      reaches the rename. */
  function PutReach(env: Env, r: Response): PutEnd {
    if r.cut || env.clientGone then BeforeRename else env.put
  }

  function OldEffective(w: World, env: Env, file: Key): string {
    if file in w.store then w.store[file].effective else env.orphan
  }

  function CacheAndStream(w: World, env: Env, req: Request, r: Response, effective: string): Consumed {
    var modTime := ModTime(r, env.putAt);
    match PutReach(env, r)
    case BeforeRename => Consumed(w, FromUpstream(r, false))
    case AtTime =>
      Consumed(w.(store := w.store[FileOf(req) := Entry(r.body, env.putAt, OldEffective(w, env, FileOf(req)))]), FromUpstream(r, false))
    case AtMetadata =>
      Consumed(w.(store := w.store[FileOf(req) := Entry(r.body, modTime, OldEffective(w, env, FileOf(req)))]), FromUpstream(r, false))
    case Done =>
      Consumed(RememberETag(w.(store := w.store[FileOf(req) := Entry(r.body, modTime, effective)]), req.loc, r),
               FromUpstream(r, true))
  }

  function ConsumeUpstream(w: World, env: Env, req: Request, r: Response, effective: string): Consumed {
    if req.policy.allowStore && r.status == 200 && req.verb == GET then CacheAndStream(w, env, req, r, effective)
    else Consumed(w, FromUpstream(r, false))
  }

  function FetchAndStream(w: World, env: Env, route: Route, req: Request): Consumed {
    var fetched := FetchUpstream(w, env, route, req);
    if fetched.answer.Lost? then Consumed(fetched.w, BadGateway)
    else ConsumeUpstream(fetched.w, env, req, ApplyRewrite(env.rewrite, fetched.answer.response), fetched.effective)
  }

  // ---- The handler ------------------------------------------------------------------

  /** The entry that the lookup finds. */
  function Lookup(w: World, env: Env, req: Request): Option<Entry> {
    if req.policy.allowCache && env.readable && FileOf(req) in w.store then Some(w.store[FileOf(req)]) else None
  }

  /** Whether a found entry may be served, after revalidation where the policy asks for it. */
  function Decide(w: World, env: Env, route: Route, req: Request, entry: Entry): Judged {
    if !req.policy.requireRevalidate || ShouldBypassValidation(route, entry, env.now) then Judged(w, Fresh)
    else if route.validates then IsCacheFresh(w, env, route, req, entry)
    else Judged(w, Stale)
  }

  function Handle(w0: World, env: Env, route: Route, req: Request): Consumed {
    var w := w0.(wire := [], tokens := 0);
    match Lookup(w, env, req)
    case None => FetchAndStream(w, env, route, req)
    case Some(entry) =>
      var judged := Decide(w, env, route, req, entry);
      if judged.verdict.Fresh? then Consumed(ServeCache(judged.w, env, req, entry), FromCache(entry))
      else FetchAndStream(judged.w, env, route, req)
  }

  // ---- The handler object ---------------------------------------------------------------

  /** The handler as the source has it: an object whose methods change the store and the validator
      map step by step. Each method does to the fields what its function does to a `World`. */
  class Handler {
    var store: map<Key, Entry>
    var etags: map<Locator, string>
    var wire: seq<Exchange>
    var tokens: nat

    constructor ()
      ensures State() == World(map[], map[], [], 0)
    {
      store, etags, wire, tokens := map[], map[], [], 0;
    }

    function State(): World
      reads this
    {
      World(store, etags, wire, tokens)
    }

    method DoRequest(env: Env, sent: Sent) returns (answer: Answer)
      modifies `wire
      ensures Reply(State(), answer) == Ask(old(State()), env, sent)
    {
      answer := if |wire| < |env.answers| then env.answers[|wire|] else Lost;
      wire := wire + [Exchange(sent, answer)];
    }

    method FetchBearerToken(env: Env) returns (granted: bool)
      modifies `tokens
      ensures TokenReply(State(), granted) == FetchToken(old(State()), env)
    {
      var answer := if tokens < |env.tokens| then env.tokens[tokens] else Refused;
      if answer.BadRealm? {
        return false;
      }
      tokens := tokens + 1;
      granted := answer.Granted?;
    }

    method RetryOnAuthFailure(env: Env, route: Route, sent: Sent, first: Answer) returns (answer: Answer)
      modifies `wire, `tokens
      ensures Reply(State(), answer) == RetryAuth(old(State()), env, route, sent, first)
    {
      if first.Lost? || !ShouldRetryAuth(route, first.response.status) {
        return first;
      }
      var challenge := Auth.ParseBearerChallenge(first.response.challenges);
      if challenge.Bearer? {
        var granted := FetchBearerToken(env);
        if !granted {
          return Lost;
        }
        answer := DoRequest(env, sent.(auth := Token));
      } else {
        answer := DoRequest(env, sent);
      }
    }

    method StoreETag(loc: Locator, r: Response)
      modifies `etags
      ensures State() == RememberETag(old(State()), loc, r)
    {
      var tag := r.digest;
      if tag == "" {
        tag := r.etag;
      }
      if tag == "" {
        return;
      }
      etags := etags[loc := tag];
    }

    method DeleteETag(loc: Locator)
      modifies `etags
      ensures State() == ForgetETag(old(State()), loc)
    {
      etags := etags - {loc};
    }

    method Revalidate(env: Env, route: Route, req: Request, entry: Entry) returns (verdict: Verdict)
      modifies this
      ensures Judged(State(), verdict) == IsCacheFresh(old(State()), env, route, req, entry)
    {
      var sent := HeadOf(State(), req, entry, Purpose.Revalidate);
      var answer := DoRequest(env, sent);
      answer := RetryOnAuthFailure(env, route, sent, answer);
      if answer.Lost? {
        return Unknown;
      }
      var r := answer.response;
      if r.status == 304 {
        return Fresh;
      } else if r.status == 200 {
        if r.etag == "" && r.digest == "" && r.modified.None? {
          return Stale;
        }
        StoreETag(req.loc, r);
        return if ModTime(r, answer.at) > entry.modTime then Stale else Fresh;
      } else if r.status == 404 {
        if env.removes {
          store := store - {FileOf(req)};
        }
        DeleteETag(req.loc);
      }
      verdict := Stale;
    }

    method ServeCached(env: Env, req: Request, entry: Entry)
      modifies `wire
      ensures State() == ServeCache(old(State()), env, req, entry)
    {
      if req.verb == HEAD && ChecksHead(req) {
        var _ := DoRequest(env, HeadOf(State(), req, entry, HeadCheck));
      }
    }

    method RetryManifestFallback(env: Env, route: Route, req: Request, first: Answer)
      returns (answer: Answer, effective: string)
      modifies `wire, `tokens
      ensures Fetched(State(), answer, effective) == RetryFallback(old(State()), env, route, req, first)
    {
      if first.Lost? || first.response.status != 404 {
        return first, "";
      }
      var fallback := Docker.ManifestFallback(route.upstreamHost, req.target.path);
      if fallback.NoFallback? {
        return first, "";
      }
      answer := DoRequest(env, FetchOf(req, fallback.path));
      answer := RetryOnAuthFailure(env, route, FetchOf(req, fallback.path), answer);
      effective := if answer.Got? && answer.response.status == 200 then fallback.path else "";
    }

    method StoreAndStream(env: Env, req: Request, r: Response, effective: string) returns (served: Served)
      modifies `store, `etags
      ensures Consumed(State(), served) == CacheAndStream(old(State()), env, req, r, effective)
    {
      hide KeyOf;
      var left := if FileOf(req) in store then store[FileOf(req)].effective else env.orphan;
      var reach := PutReach(env, r);
      if reach.BeforeRename? {
        return FromUpstream(r, false);
      }
      store := store[FileOf(req) := Entry(r.body, env.putAt, left)];
      if reach.AtTime? {
        return FromUpstream(r, false);
      }
      store := store[FileOf(req) := store[FileOf(req)].(modTime := ModTime(r, env.putAt))];
      if reach.AtMetadata? {
        return FromUpstream(r, false);
      }
      store := store[FileOf(req) := store[FileOf(req)].(effective := effective)];
      StoreETag(req.loc, r);
      served := FromUpstream(r, true);
    }

    method StreamUpstream(env: Env, route: Route, req: Request) returns (served: Served)
      modifies this
      ensures Consumed(State(), served) == FetchAndStream(old(State()), env, route, req)
    {
      var sent := FetchOf(req, req.target.path);
      var answer := DoRequest(env, sent);
      answer := RetryOnAuthFailure(env, route, sent, answer);
      var effective;
      answer, effective := RetryManifestFallback(env, route, req, answer);
      if answer.Lost? {
        return BadGateway;
      }
      var r := ApplyRewrite(env.rewrite, answer.response);
      if req.policy.allowStore && r.status == 200 && req.verb == GET {
        served := StoreAndStream(env, req, r, effective);
      } else {
        served := FromUpstream(r, false);
      }
    }

    method Serve(env: Env, route: Route, req: Request) returns (served: Served)
      modifies this
      ensures Consumed(State(), served) == Handle(old(State()), env, route, req)
    {
      wire, tokens := [], 0;
      var cached := None;
      if req.policy.allowCache && env.readable && FileOf(req) in store {
        cached := Some(store[FileOf(req)]);
      }
      if cached.Some? {
        var entry := cached.value;
        var serve := true;
        if req.policy.requireRevalidate && !ShouldBypassValidation(route, entry, env.now) {
          if route.validates {
            var verdict := Revalidate(env, route, req, entry);
            serve := verdict.Fresh?;
          } else {
            serve := false;
          }
        }
        if serve {
          ServeCached(env, req, entry);
          return FromCache(entry);
        }
      }
      served := StreamUpstream(env, route, req);
    }

    /** A restart loses the validators and keeps the disk. */
    method Restart()
      modifies this
      ensures State() == Restarted(old(State()))
    {
      etags, wire, tokens := map[], [], 0;
    }
  }

  function Restarted(w: World): World {
    World(w.store, map[], [], 0)
  }
}
