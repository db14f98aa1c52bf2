/** Bounded staleness: what a cache hit under revalidation can be, in runs against an upstream
    whose versions have unique validators and strictly increasing Last-Modified times. */
module Staleness {
  import opened CacheKeys
  import opened Proxy
  import opened ProxyRuns
  import opened Provenance
  import opened RequestLaws
  import Docker

  // ---- Versions -----------------------------------------------------------------

  /** A version of one resource: `body` is what the cache should hold of it (after the route's
      rewrite), and it is current from `since` until the next version is. */
  datatype Version = Version(tag: string, modified: int, since: int, body: Bytes)

  ghost predicate History(hist: seq<Version>) {
    (forall i :: 0 <= i < |hist| ==> hist[i].tag != "" && hist[i].modified <= hist[i].since) &&
    (forall i, j :: 0 <= i < j < |hist| ==>
       hist[i].tag != hist[j].tag && hist[i].modified < hist[j].modified && hist[i].since < hist[j].since)
  }

  /** The version that is current at a time, or -1 before the first. */
  function CurrentAt(hist: seq<Version>, t: int): (c: int)
    ensures -1 <= c < |hist|
    ensures c >= 0 ==> hist[c].since <= t
  {
    if hist == [] then -1
    else if hist[|hist| - 1].since <= t then |hist| - 1
    else CurrentAt(hist[..|hist| - 1], t)
  }

  function OfTag(hist: seq<Version>, tag: string): (i: int)
    ensures -1 <= i < |hist|
    ensures i >= 0 ==> hist[i].tag == tag
    ensures i < 0 ==> forall j :: 0 <= j < |hist| ==> hist[j].tag != tag
  {
    if hist == [] then -1
    else if hist[|hist| - 1].tag == tag then |hist| - 1
    else OfTag(hist[..|hist| - 1], tag)
  }

  function OfTime(hist: seq<Version>, modified: int): (i: int)
    ensures -1 <= i < |hist|
    ensures i >= 0 ==> hist[i].modified == modified
    ensures i < 0 ==> forall j :: 0 <= j < |hist| ==> hist[j].modified != modified
  {
    if hist == [] then -1
    else if hist[|hist| - 1].modified == modified then |hist| - 1
    else OfTime(hist[..|hist| - 1], modified)
  }

  lemma {:induction false} CurrentGrows(hist: seq<Version>, s: int, t: int)
    requires s <= t
    ensures CurrentAt(hist, s) <= CurrentAt(hist, t)
  {
    if hist == [] {
    } else {
      CurrentGrows(hist[..|hist| - 1], s, t);
    }
  }

  // ---- Premises on one request ----------------------------------------------------

  /** The validator by which upstream names the version it sends: the digest or, without one, the etag. */
  function TagOf(r: Response): string {
    if r.digest != "" then r.digest else r.etag
  }

  /** Upstream tells the truth about the version that is current when it answers: a 200 carries its
      validator and time, and a 304 only answers a request that names its validator. */
  ghost predicate Honest(hist: seq<Version>, x: Exchange) {
    x.answer.Got? ==>
      var r, c := x.answer.response, CurrentAt(hist, x.answer.at);
      (r.status == 200 ==> c >= 0 && TagOf(r) == hist[c].tag && r.modified == Some(hist[c].modified)) &&
      (r.status == 304 ==> c >= 0 && x.sent.ifNoneMatch == hist[c].tag)
  }

  /** The rewrite keeps the time, keeps or drops the validator, and a body read to its end is that
      of the version. */
  ghost predicate HonestBody(hist: seq<Version>, env: Env, x: Exchange) {
    x.sent.verb == GET && x.answer.Got? && x.answer.response.status == 200 ==>
      var r, c := ApplyRewrite(env.rewrite, x.answer.response), CurrentAt(hist, x.answer.at);
      c >= 0 && r.modified == Some(hist[c].modified) && (TagOf(r) == hist[c].tag || TagOf(r) == "") &&
      (r.cut || r.body == hist[c].body)
  }

  ghost predicate Timely(wire: seq<Exchange>, lo: int, hi: int) {
    (forall i :: 0 <= i < |wire| && wire[i].answer.Got? ==> lo <= wire[i].answer.at <= hi) &&
    (forall i, j :: 0 <= i < j < |wire| && wire[i].answer.Got? && wire[j].answer.Got? ==> wire[i].answer.at <= wire[j].answer.at)
  }

  /** The premises on the exchanges of a request. */
  ghost predicate Truthful(hist: seq<Version>, env: Env, wire: seq<Exchange>, lo: int, hi: int) {
    lo <= hi && Timely(wire, lo, hi) && forall i :: 0 <= i < |wire| ==> Honest(hist, wire[i]) && HonestBody(hist, env, wire[i])
  }

  // ---- The invariant ------------------------------------------------------------------

  /** The stored entry and the remembered validator are those of versions known by time `t`. */
  ghost predicate Known(hist: seq<Version>, w: World, k: Locator, t: int) {
    (KeyOf(k) in w.store ==>
       var v := OfTime(hist, w.store[KeyOf(k)].modTime);
       0 <= v <= CurrentAt(hist, t) && w.store[KeyOf(k)].body == hist[v].body) &&
    (k in w.etags ==> 0 <= OfTag(hist, w.etags[k]) <= CurrentAt(hist, t))
  }

  /** The version that the remembered validator names is no newer than the stored one. */
  ghost predicate NotAhead(hist: seq<Version>, w: World, k: Locator) {
    KeyOf(k) in w.store && k in w.etags ==> OfTag(hist, w.etags[k]) <= OfTime(hist, w.store[KeyOf(k)].modTime)
  }

  lemma {:induction false} KnownLater(hist: seq<Version>, w: World, k: Locator, s: int, t: int)
    requires Known(hist, w, k, s) && s <= t
    ensures Known(hist, w, k, t)
  {
    CurrentGrows(hist, s, t);
  }

  // ---- Revalidation ---------------------------------------------------------------------

  /** A HEAD was answered "200, newer". */
  predicate SawNewer(w: World, env: Env, route: Route, req: Request, entry: Entry) {
    var answer := AskWithAuth(w, env, route, HeadOf(w, req, entry, Revalidate)).answer;
    answer.Got? && answer.response.status == 200 && ModTime(answer.response, answer.at) > entry.modTime
  }

  /** The HEAD carried the client's own condition, and its 304 is about another version than the stored one. */
  predicate Misled(hist: seq<Version>, w: World, req: Request, entry: Entry, answer: Answer) {
    answer.Got? && answer.response.status == 304 && req.loc !in w.etags &&
    OfTag(hist, req.ifNoneMatch) != OfTime(hist, entry.modTime)
  }

  /** What judging an honest answer tells, whatever condition the client sends: an entry judged fresh is the
      version current at the answer, exactly unless the answer is a 304 about a version that only the client
      named; the validator gets ahead exactly when the answer was "200, newer". */
  lemma {:induction false} JudgeTells(hist: seq<Version>, w: World, env: Env, req: Request, entry: Entry, x: Exchange, t: int)
    requires History(hist) && FileOf(req) in w.store && w.store[FileOf(req)] == entry
    requires Known(hist, w, req.loc, t) && NotAhead(hist, w, req.loc)
    requires Honest(hist, x) && AsksAbout(x.sent, w.etags, req, entry) && (x.answer.Got? ==> t <= x.answer.at)
    ensures var j := Judge(w, env, req, entry, x.answer);
            (j.verdict.Fresh? ==> x.answer.Got?) &&
            (j.verdict.Fresh? ==>
               (OfTime(hist, entry.modTime) == CurrentAt(hist, x.answer.at) <==> !Misled(hist, w, req, entry, x.answer))) &&
            (x.answer.Got? ==> Known(hist, j.w, req.loc, x.answer.at)) && (x.answer.Lost? ==> j.w == w) &&
            (FileOf(req) in j.w.store ==> j.w.store[FileOf(req)] == entry) &&
            (NotAhead(hist, j.w, req.loc) <==>
               !(x.answer.Got? && x.answer.response.status == 200 && ModTime(x.answer.response, x.answer.at) > entry.modTime))
  {
    hide KeyOf, CurrentAt, OfTag, OfTime;
    if x.answer.Got? {
      CurrentGrows(hist, t, x.answer.at);
    }
  }

  /** The client sends no condition of its own, or a remembered validator takes its place. */
  predicate OwnCondition(w: World, req: Request) {
    req.ifNoneMatch == "" || req.loc in w.etags
  }

  lemma {:induction false} NotMisled(hist: seq<Version>, w: World, req: Request, entry: Entry, x: Exchange)
    ensures History(hist) && OwnCondition(w, req) && Honest(hist, x) && AsksAbout(x.sent, w.etags, req, entry) ==>
              !Misled(hist, w, req, entry, x.answer)
  {
    hide CurrentAt, OfTag, OfTime;
  }

  /** The time of an answer, or `lo` when there is none. */
  function TimeOf(answer: Answer, lo: int): int {
    if answer.Got? then answer.at else lo
  }

  /** When the revalidation of a request was answered. */
  function AnsweredAt(w: World, env: Env, route: Route, req: Request, entry: Entry, lo: int): int {
    TimeOf(AskWithAuth(w, env, route, HeadOf(w, req, entry, Revalidate)).answer, lo)
  }

  /** All answers from index `n` on came at `t` or later. */
  ghost predicate NoneBefore(wire: seq<Exchange>, n: nat, t: int) {
    forall i :: n <= i < |wire| && wire[i].answer.Got? ==> t <= wire[i].answer.at
  }

  lemma {:induction false} AnswerInTime(hist: seq<Version>, env: Env, part: seq<Exchange>, wire: seq<Exchange>,
                                        answer: Answer, lo: int, hi: int)
    requires part <= wire && part != [] && (answer.Got? ==> part[|part| - 1].answer == answer)
    requires Truthful(hist, env, wire, lo, hi)
    ensures lo <= TimeOf(answer, lo) <= hi && NoneBefore(wire, |part|, TimeOf(answer, lo))
    ensures answer.Got? ==> Honest(hist, part[|part| - 1])
  {
    var last := |part| - 1;
    assert wire[last] == part[last];
    hide Honest, HonestBody;
  }

  lemma {:induction false} RevalidationTells(hist: seq<Version>, w: World, env: Env, route: Route, req: Request, entry: Entry,
                                             wire: seq<Exchange>, lo: int, hi: int)
    requires History(hist) && FileOf(req) in w.store && w.store[FileOf(req)] == entry && w.wire == []
    requires Known(hist, w, req.loc, lo) && NotAhead(hist, w, req.loc)
    requires IsCacheFresh(w, env, route, req, entry).w.wire <= wire && Truthful(hist, env, wire, lo, hi)
    ensures var j, t := IsCacheFresh(w, env, route, req, entry), AnsweredAt(w, env, route, req, entry, lo);
            (j.verdict.Fresh? && OwnCondition(w, req) ==> exists i :: CurrentThen(hist, wire, i, OfTime(hist, entry.modTime))) &&
            lo <= t <= hi && NoneBefore(wire, |j.w.wire|, t) && Known(hist, j.w, req.loc, t) &&
            (FileOf(req) in j.w.store ==> j.w.store[FileOf(req)] == entry) &&
            (NotAhead(hist, j.w, req.loc) <==> !SawNewer(w, env, route, req, entry))
  {
    hide AskWithAuth, Known, NotAhead, History, Truthful, Judge, CurrentThen, NoneBefore;
    var sent := HeadOf(w, req, entry, Revalidate);
    AskWithAuthAttempts(w, env, route, sent);
    var reply := AskWithAuth(w, env, route, sent);
    var j := IsCacheFresh(w, env, route, req, entry);
    JudgeKeepsWire(reply.w, env, req, entry, reply.answer);
    AnswerInTime(hist, env, reply.w.wire, wire, reply.answer, lo, hi);
    var last := |reply.w.wire| - 1;
    var x := Exchange(reply.w.wire[last].sent, reply.answer);
    AfterAttempts(hist, w, reply.w, req.loc, lo);
    if reply.answer.Lost? {
      LostIsHonest(hist, x);
    }
    JudgeTells(hist, reply.w, env, req, entry, x, lo);
    if j.verdict.Fresh? && OwnCondition(w, req) {
      NotMisled(hist, reply.w, req, entry, x);
      assert wire[last] == reply.w.wire[last];
      FoundCurrent(hist, wire, last, OfTime(hist, entry.modTime));
    }
  }

  lemma {:induction false} LostIsHonest(hist: seq<Version>, x: Exchange)
    requires x.answer.Lost?
    ensures Honest(hist, x)
  {
  }

  lemma {:induction false} FoundCurrent(hist: seq<Version>, wire: seq<Exchange>, i: nat, v: int)
    requires i < |wire| && wire[i].answer.Got? && CurrentAt(hist, wire[i].answer.at) == v
    ensures exists i :: CurrentThen(hist, wire, i, v)
  {
    assert CurrentThen(hist, wire, i, v);
  }

  lemma {:induction false} JudgeKeepsWire(w: World, env: Env, req: Request, entry: Entry, answer: Answer)
    ensures Judge(w, env, req, entry, answer).w.wire == w.wire
    ensures answer.Lost? ==> Judge(w, env, req, entry, answer) == Judged(w, Unknown)
  {
  }

  /** The exchange was answered while this version was current. */
  ghost predicate CurrentThen(hist: seq<Version>, wire: seq<Exchange>, i: nat, v: int) {
    i < |wire| && wire[i].answer.Got? && CurrentAt(hist, wire[i].answer.at) == v
  }

  lemma {:induction false} AfterAttempts(hist: seq<Version>, w: World, w': World, k: Locator, t: int)
    requires w'.store == w.store && w'.etags == w.etags && Known(hist, w, k, t) && NotAhead(hist, w, k)
    ensures Known(hist, w', k, t) && NotAhead(hist, w', k)
  {
  }

  // ---- Fetching ----------------------------------------------------------------------------

  lemma {:induction false} ConsumeTells(hist: seq<Version>, w: World, env: Env, req: Request, x: Exchange, effective: string)
    requires History(hist) && x.answer.Got? && x.sent.verb == req.verb && HonestBody(hist, env, x) && !env.put.AtTime?
    requires Known(hist, w, req.loc, x.answer.at)
    ensures var r := ApplyRewrite(env.rewrite, x.answer.response);
            var c := ConsumeUpstream(w, env, req, r, effective).w;
            if r.status == 200 && req.policy.allowStore && req.verb == GET && !PutReach(env, r).BeforeRename?
            then Known(hist, c, req.loc, x.answer.at) && NotAhead(hist, c, req.loc)
            else c.store == w.store && c.etags == w.etags
  {
    hide KeyOf, CurrentAt, OfTag, OfTime;
    var r := ApplyRewrite(env.rewrite, x.answer.response);
    assert r.status == x.answer.response.status;
    hide ApplyRewrite;
  }

  lemma {:induction false} FetchTells(hist: seq<Version>, w: World, env: Env, route: Route, req: Request,
                                      wire: seq<Exchange>, t: int, lo: int, hi: int)
    requires History(hist) && !env.put.AtTime? && t <= hi
    requires FetchAndStream(w, env, route, req).w.wire == wire && Truthful(hist, env, wire, lo, hi)
    requires Known(hist, w, req.loc, t) && NoneBefore(wire, |w.wire|, t)
    ensures var c := FetchAndStream(w, env, route, req).w;
            Known(hist, c, req.loc, hi) &&
            (if PlacesBody(w, env, route, req) then NotAhead(hist, c, req.loc) else c.store == w.store && c.etags == w.etags)
  {
    hide FetchUpstream, Known, NotAhead, History, Docker.ManifestFallback, RevalidateSource, Honest, HonestBody;
    FetchIsLogged(w, env, route, req);
    var f := FetchUpstream(w, env, route, req);
    if f.answer.Got? {
      var r := ApplyRewrite(env.rewrite, f.answer.response);
      assert r.status == f.answer.response.status;
      ConsumeKeepsWork(f.w, env, req, r, f.effective);
      var last := |f.w.wire| - 1;
      assert wire == f.w.wire && wire[last].answer == f.answer && wire[last].sent.verb == req.verb;
      SameKnown(hist, w, f.w, req.loc, t);
      KnownLater(hist, f.w, req.loc, t, f.answer.at);
      ConsumeTells(hist, f.w, env, req, wire[last], f.effective);
      var c := FetchAndStream(w, env, route, req).w;
      if !PlacesBody(w, env, route, req) {
        SameKnown(hist, f.w, c, req.loc, f.answer.at);
      }
      KnownLater(hist, c, req.loc, f.answer.at, hi);
    } else {
      SameKnown(hist, w, f.w, req.loc, t);
      KnownLater(hist, f.w, req.loc, t, hi);
    }
  }

  lemma {:induction false} SameKnown(hist: seq<Version>, w: World, w': World, k: Locator, t: int)
    requires w'.store == w.store && w'.etags == w.etags && Known(hist, w, k, t)
    ensures Known(hist, w', k, t)
  {
  }

  // ---- One request -------------------------------------------------------------------------

  /** The request revalidates its entry. */
  predicate Revalidates(w: World, env: Env, route: Route, req: Request) {
    Lookup(Start(w), env, req).Some? && req.policy.requireRevalidate && route.validates &&
    !ShouldBypassValidation(route, w.store[FileOf(req)], env.now)
  }

  /** The revalidation was answered "200, newer". */
  predicate Newer(w: World, env: Env, route: Route, req: Request) {
    Revalidates(w, env, route, req) && SawNewer(Start(w), env, route, req, w.store[FileOf(req)])
  }

  /** An honest upstream; the client may send any condition. */
  ghost predicate HonestRequest(hist: seq<Version>, w: World, env: Env, route: Route, req: Request, lo: int, hi: int) {
    lo <= env.now && Truthful(hist, env, Handle(w, env, route, req).w.wire, env.now, hi)
  }

  /** The premises on a request: that, and no Put that fails between its rename and its time. */
  ghost predicate Premises(hist: seq<Version>, w: World, env: Env, route: Route, req: Request, lo: int, hi: int) {
    HonestRequest(hist, w, env, route, req, lo, hi) && !env.put.AtTime?
  }

  /** A miss, or a hit that goes to fetch without asking. */
  lemma {:induction false} FetchOnlyTells(hist: seq<Version>, w: World, env: Env, route: Route, req: Request, lo: int, hi: int)
    requires History(hist) && Known(hist, w, req.loc, lo) && NotAhead(hist, w, req.loc) && w.wire == []
    requires lo <= env.now && !env.put.AtTime? && Truthful(hist, env, FetchAndStream(w, env, route, req).w.wire, env.now, hi)
    ensures var c := FetchAndStream(w, env, route, req).w; Known(hist, c, req.loc, hi) && NotAhead(hist, c, req.loc)
  {
    var wire := FetchAndStream(w, env, route, req).w.wire;
    assert NoneBefore(wire, 0, env.now);
    hide Truthful, FetchAndStream, PlacesBody, History, Known;
    KnownLater(hist, w, req.loc, lo, env.now);
    KnownUntil(hist, wire, env, env.now, hi);
    FetchTells(hist, w, env, route, req, wire, env.now, env.now, hi);
  }

  lemma {:induction false} FetchExtends(w: World, env: Env, route: Route, req: Request)
    ensures w.wire <= FetchAndStream(w, env, route, req).w.wire
  {
    hide Docker.ManifestFallback;
    FetchEffect(w, env, route, req);
  }

  /** A request that revalidates: afterwards everything is known, and the validator is ahead exactly
      when the answer was "200, newer" and the new version did not get stored. */
  lemma {:induction false} RevalidatedTells(hist: seq<Version>, w: World, env: Env, route: Route, req: Request, lo: int, hi: int)
    requires History(hist) && Known(hist, w, req.loc, lo) && NotAhead(hist, w, req.loc)
    requires Premises(hist, w, env, route, req, lo, hi) && Revalidates(w, env, route, req)
    ensures var c := Handle(w, env, route, req);
            Known(hist, c.w, req.loc, hi) &&
            (NotAhead(hist, c.w, req.loc) <==> (Newer(w, env, route, req) ==> Places(w, env, route, req))) &&
            (c.served.FromCache? && OwnCondition(w, req) ==>
               exists i :: CurrentThen(hist, c.w.wire, i, OfTime(hist, c.served.entry.modTime)))
  {
    hide IsCacheFresh, FetchAndStream, ServeCache, Known, NotAhead, History, SawNewer, PlacesBody, CurrentThen,
         Truthful, NoneBefore, AnsweredAt;
    var start, entry := Start(w), w.store[FileOf(req)];
    var j := IsCacheFresh(start, env, route, req, entry);
    var c := Handle(w, env, route, req);
    assert j == Decide(start, env, route, req, entry) && j.w == BeforeFetch(w, env, route, req);
    ServeCacheKeeps(j.w, env, req, entry);
    FetchExtends(j.w, env, route, req);
    SameKnown(hist, w, start, req.loc, lo);
    KnownLater(hist, start, req.loc, lo, env.now);
    SameAhead(hist, w, start, req.loc);
    RevalidationTells(hist, start, env, route, req, entry, c.w.wire, env.now, hi);
    var t := AnsweredAt(start, env, route, req, entry, env.now);
    if j.verdict.Fresh? {
      KnownLater(hist, j.w, req.loc, t, hi);
      SameKnown(hist, j.w, c.w, req.loc, hi);
      SameAhead(hist, j.w, c.w, req.loc);
      FreshIsNotNewer(start, env, route, req, entry);
    } else {
      FetchTells(hist, j.w, env, route, req, c.w.wire, t, env.now, hi);
      if !PlacesBody(j.w, env, route, req) {
        SameAhead(hist, j.w, c.w, req.loc);
      }
      FetchIsUpstream(j.w, env, route, req);
    }
  }

  lemma {:induction false} SameAhead(hist: seq<Version>, w: World, w': World, k: Locator)
    requires w'.store == w.store && w'.etags == w.etags
    ensures NotAhead(hist, w', k) <==> NotAhead(hist, w, k)
  {
  }

  lemma {:induction false} FreshIsNotNewer(w: World, env: Env, route: Route, req: Request, entry: Entry)
    requires IsCacheFresh(w, env, route, req, entry).verdict.Fresh?
    ensures !SawNewer(w, env, route, req, entry)
  {
    hide AskWithAuth;
  }

  /** What every request keeps, and exactly when the validator gets ahead of the stored version. */
  lemma {:induction false} RequestTells(hist: seq<Version>, w: World, env: Env, route: Route, req: Request, lo: int, hi: int)
    requires History(hist) && Known(hist, w, req.loc, lo) && NotAhead(hist, w, req.loc)
    requires Premises(hist, w, env, route, req, lo, hi)
    ensures var c := Handle(w, env, route, req);
            Known(hist, c.w, req.loc, hi) &&
            (NotAhead(hist, c.w, req.loc) <==> (Newer(w, env, route, req) ==> Places(w, env, route, req)))
  {
    hide IsCacheFresh, FetchAndStream, ServeCache, Known, NotAhead, History, SawNewer, PlacesBody, Truthful;
    if Revalidates(w, env, route, req) {
      RevalidatedTells(hist, w, env, route, req, lo, hi);
    } else {
      var start, c := Start(w), Handle(w, env, route, req);
      SameKnown(hist, w, start, req.loc, lo);
      SameAhead(hist, w, start, req.loc);
      FetchIsUpstream(BeforeFetch(w, env, route, req), env, route, req);
      if c.served.FromCache? {
        ServeCacheKeeps(start, env, req, c.served.entry);
        KnownUntil(hist, c.w.wire, env, env.now, hi);
        SameKnown(hist, w, c.w, req.loc, lo);
        KnownLater(hist, c.w, req.loc, lo, hi);
        SameAhead(hist, w, c.w, req.loc);
      } else {
        FetchOnlyTells(hist, start, env, route, req, lo, hi);
      }
    }
  }

  lemma {:induction false} KnownUntil(hist: seq<Version>, wire: seq<Exchange>, env: Env, lo: int, hi: int)
    requires Truthful(hist, env, wire, lo, hi)
    ensures lo <= hi
  {
  }

  /** The entry is this version, which was current within the last `ttl` before `now`. */
  ghost predicate RecentVersion(hist: seq<Version>, entry: Entry, v: int, now: int, ttl: int) {
    0 <= v < |hist| && entry.modTime == hist[v].modified && entry.body == hist[v].body &&
    hist[v].since <= now && now - ttl < hist[v].since
  }

  /** A hit on a path that asks for revalidation is either a version that became current within the
      last TTL or, unless it goes by the client's own condition, one that was current when the HEAD of this very
      request was answered. */
  lemma {:induction false} HitTells(hist: seq<Version>, w: World, env: Env, route: Route, req: Request, lo: int, hi: int)
    requires History(hist) && Known(hist, w, req.loc, lo) && NotAhead(hist, w, req.loc)
    requires Premises(hist, w, env, route, req, lo, hi) && req.policy.requireRevalidate
    requires Handle(w, env, route, req).served.FromCache?
    ensures var c := Handle(w, env, route, req);
            var v := OfTime(hist, c.served.entry.modTime);
            0 <= v < |hist| && c.served.entry.modTime == hist[v].modified && c.served.entry.body == hist[v].body &&
            (if ShouldBypassValidation(route, c.served.entry, env.now)
             then RecentVersion(hist, c.served.entry, v, env.now, route.ttl)
             else OwnCondition(w, req) ==> exists i :: CurrentThen(hist, c.w.wire, i, v))
  {
    hide FetchAndStream, ServeCache, NotAhead, Truthful, IsCacheFresh, CurrentThen, CurrentAt, OfTag, KeyOf;
    FetchIsUpstream(BeforeFetch(w, env, route, req), env, route, req);
    var c := Handle(w, env, route, req);
    if Revalidates(w, env, route, req) {
      hide Handle;
      RevalidatedTells(hist, w, env, route, req, lo, hi);
    }
  }

  // ---- Runs -----------------------------------------------------------------------------------

  /** The premises on an event, for one locator: no other locator has its file, requests for other files are
      free, and a "200, newer" HEAD is followed by a successful refetch. `lo` and `hi` bound the time. */
  ghost predicate EventOk(hist: seq<Version>, k: Locator, w: World, e: Event, lo: int, hi: int) {
    lo <= hi &&
    (e.Serve? && FileOf(e.req) == KeyOf(k) ==>
       e.req.loc == k && Premises(hist, w, e.env, e.route, e.req, lo, hi) &&
       (Newer(w, e.env, e.route, e.req) ==> Places(w, e.env, e.route, e.req)))
  }

  /** Requests do not overlap: event i runs between ends[i] and ends[i + 1]. */
  ghost predicate RunOk(hist: seq<Version>, k: Locator, events: seq<Event>, ends: seq<int>) {
    |ends| == |events| + 1 &&
    forall i :: 0 <= i < |events| ==> EventOk(hist, k, Run(EMPTY, events[..i]), events[i], ends[i], ends[i + 1])
  }

  lemma {:induction false} OtherTag(w: World, w': World, loc: Locator, k: Locator)
    requires OthersSame(w, w', loc) && KeyOf(loc) != KeyOf(k)
    ensures SameAt(w, w', KeyOf(k)) && (k in w'.etags <==> k in w.etags) && (k in w.etags ==> w'.etags[k] == w.etags[k])
  {
    hide KeyOf;
    OtherSame(w, w', loc, KeyOf(k));
    assert k in w.etags <==> k in w.etags - {loc};
    assert k in w'.etags <==> k in w'.etags - {loc};
    assert k in w.etags ==> (w.etags - {loc})[k] == w.etags[k];
    assert k in w'.etags ==> (w'.etags - {loc})[k] == w'.etags[k];
  }

  lemma {:induction false} EventKeeps(hist: seq<Version>, k: Locator, w: World, e: Event, lo: int, hi: int)
    requires History(hist) && Known(hist, w, k, lo) && NotAhead(hist, w, k) && EventOk(hist, k, w, e, lo, hi)
    ensures Known(hist, After(w, e), k, hi) && NotAhead(hist, After(w, e), k)
  {
    hide Handle, Premises, Newer, Places, History, KeyOf;
    if e.Serve? && FileOf(e.req) == KeyOf(k) {
      hide Known, NotAhead;
      RequestTells(hist, w, e.env, e.route, e.req, lo, hi);
    } else {
      KnownLater(hist, w, k, lo, hi);
      if e.Serve? {
        hide StoredBy, NotFoundSeen;
        RequestProvenance(w, e.env, e.route, e.req);
        OtherTag(w, After(w, e), e.req.loc, k);
      }
    }
  }

  lemma {:induction false} RunKeeps(hist: seq<Version>, k: Locator, events: seq<Event>, ends: seq<int>)
    requires History(hist) && RunOk(hist, k, events, ends)
    ensures Known(hist, Run(EMPTY, events), k, ends[|events|]) && NotAhead(hist, Run(EMPTY, events), k)
  {
    hide EventOk, After, History;
    if events == [] {
    } else {
      var n := |events| - 1;
      forall i | 0 <= i < n ensures EventOk(hist, k, Run(EMPTY, events[..n][..i]), events[..n][i], ends[..n + 1][i], ends[..n + 1][i + 1]) {
        assert events[..n][..i] == events[..i];
      }
      RunKeeps(hist, k, events[..n], ends[..n + 1]);
      hide Known, NotAhead;
      EventKeeps(hist, k, Run(EMPTY, events[..n]), events[n], ends[n], ends[n + 1]);
    }
  }

  /** Bounded staleness over whole runs: after any run that meets the premises, restarts and requests
      for other locators included, a cache hit under revalidation is a version of upstream that became
      current within the last TTL, or that was current when this request's HEAD was answered. Only the second
      half asks something of the client's condition, and only of this last request. */
  lemma {:induction false} BoundedStaleness(hist: seq<Version>, k: Locator, events: seq<Event>, ends: seq<int>,
                         env: Env, route: Route, req: Request, hi: int)
    requires History(hist) && RunOk(hist, k, events, ends) && req.loc == k && req.policy.requireRevalidate
    requires Premises(hist, Run(EMPTY, events), env, route, req, ends[|events|], hi)
    requires Handle(Run(EMPTY, events), env, route, req).served.FromCache?
    ensures var c := Handle(Run(EMPTY, events), env, route, req);
            var v := OfTime(hist, c.served.entry.modTime);
            0 <= v < |hist| && c.served.entry.modTime == hist[v].modified && c.served.entry.body == hist[v].body &&
            (if ShouldBypassValidation(route, c.served.entry, env.now)
             then RecentVersion(hist, c.served.entry, v, env.now, route.ttl)
             else OwnCondition(Run(EMPTY, events), req) ==> exists i :: CurrentThen(hist, c.w.wire, i, v))
  {
    RunKeeps(hist, k, events, ends);
    hide RunOk, Handle, Premises, Run, History, Known, NotAhead, ShouldBypassValidation, RecentVersion, CurrentThen;
    HitTells(hist, Run(EMPTY, events), env, route, req, ends[|events|], hi);
  }

  // ---- Why the refetch must succeed ------------------------------------------------------------

  /** A version as upstream serves it at time `t`. */
  function Full(v: Version, t: int): Answer {
    Got(Response(200, "", v.tag, Some(v.modified), [], v.body, false), t)
  }

  function Unchanged(t: int): Answer {
    Got(Response(304, "", "", None, [], [], false), t)
  }

  function Replies(answers: seq<Answer>, t: int): Env {
    Env(t, true, answers, [], NoHook, false, Done, t, "", true)
  }

  lemma {:induction false} CurrentOfTwo(v0: Version, v1: Version, t: int)
    ensures CurrentAt([v0, v1], t) == if v1.since <= t then 1 else if v0.since <= t then 0 else -1
  {
    assert [v0, v1][..1] == [v0];
    assert [v0][..0] == [];
  }

  /** The first GET stores the version and its validator. */
  lemma {:induction false} FirstGet(v0: Version, route: Route, req: Request, t: int)
    requires req.policy == Docker.Policy(true, true, true) && req.ifNoneMatch == "" && req.verb == GET
    requires !route.hasCredentials && v0.tag != ""
    ensures var c := Handle(EMPTY, Replies([Full(v0, t)], t), route, req).w;
            c.store == map[FileOf(req) := Entry(v0.body, v0.modified, "")] && c.etags == map[req.loc := v0.tag] &&
            |c.wire| == 1 && c.wire[0].answer == Full(v0, t) && c.wire[0].sent.verb == GET
  {
    hide Docker.ManifestFallback, KeyOf;
  }

  /** A client HEAD that meets a newer version remembers its validator and stores nothing. */
  lemma {:induction false} HeadMeetsNewer(w: World, v0: Version, v1: Version, route: Route, req: Request, t: int)
    requires FileOf(req) in w.store && w.store[FileOf(req)] == Entry(v0.body, v0.modified, "") && v0.modified < v1.modified
    requires req.policy == Docker.Policy(true, true, true) && req.ifNoneMatch == "" && req.verb == HEAD
    requires !route.hasCredentials && route.validates && route.ttl == 0 && v1.tag != ""
    ensures var c := Handle(w, Replies([Full(v1, t), Full(v1, t)], t), route, req);
            c.w.store == w.store && c.w.etags == w.etags[req.loc := v1.tag] && |c.w.wire| == 2 &&
            (forall i :: 0 <= i < 2 ==> c.w.wire[i].answer == Full(v1, t) && c.w.wire[i].sent.verb == HEAD)
  {
    hide Docker.ManifestFallback, KeyOf;
    var env, start, entry := Replies([Full(v1, t), Full(v1, t)], t), Start(w), w.store[FileOf(req)];
    var j := Decide(start, env, route, req, entry);
    assert j.verdict.Stale? && |j.w.wire| == 1 && j.w.store == w.store && j.w.etags == w.etags[req.loc := v1.tag];
    assert j.w.wire[0].answer == Full(v1, t) && j.w.wire[0].sent.verb == HEAD;
  }

  /** The next HEAD names that validator, is answered 304, and the old version is served. */
  lemma {:induction false} OldIsServed(w: World, v0: Version, v1: Version, route: Route, req: Request, t: int)
    requires FileOf(req) in w.store && w.store[FileOf(req)] == Entry(v0.body, v0.modified, "")
    requires req.loc in w.etags && w.etags[req.loc] == v1.tag && v1.tag != ""
    requires req.policy == Docker.Policy(true, true, true) && req.ifNoneMatch == "" && req.verb == GET
    requires !route.hasCredentials && route.validates && route.ttl == 0
    ensures var c := Handle(w, Replies([Unchanged(t)], t), route, req);
            c.served == FromCache(Entry(v0.body, v0.modified, "")) && |c.w.wire| == 1 &&
            c.w.wire[0].answer == Unchanged(t) && c.w.wire[0].sent.ifNoneMatch == v1.tag
  {
    hide FetchAndStream;
  }

  /** Three requests: a GET while `v0` is current, a client HEAD and another GET while `v1` is. */
  function HeadBetween(v0: Version, v1: Version, route: Route, req: Request, t0: int, t: int): (events: seq<Event>)
    ensures |events| == 3 && events[0].Serve? && events[1].Serve? && events[2].Serve?
  {
    [Serve(Replies([Full(v0, t0)], t0), route, req),
     Serve(Replies([Full(v1, t), Full(v1, t)], t), route, req.(verb := HEAD)),
     Serve(Replies([Unchanged(t)], t), route, req)]
  }

  lemma {:induction false} RunOfTwo(a: Event, b: Event)
    ensures Run(EMPTY, [a]) == After(EMPTY, a) && Run(EMPTY, [a, b]) == After(After(EMPTY, a), b)
  {
    assert [a][..0] == [] && [a, b][..1] == [a];
    assert Run(EMPTY, []) == EMPTY;
    hide After;
  }

  /** What the three requests exchange, and how the last one is served. */
  lemma {:induction false} HeadBetweenWires(v0: Version, v1: Version, route: Route, req: Request, t0: int, t: int)
    requires v0.modified < v1.modified && v0.tag != "" && v1.tag != ""
    requires req.policy == Docker.Policy(true, true, true) && req.ifNoneMatch == "" && req.verb == GET
    requires !route.hasCredentials && route.validates && route.ttl == 0
    ensures var events := HeadBetween(v0, v1, route, req, t0, t);
            var w1 := After(EMPTY, events[0]);
            var w2 := After(w1, events[1]);
            (forall i :: 0 <= i < |w1.wire| ==> w1.wire[i].answer == Full(v0, t0)) &&
            (forall i :: 0 <= i < |w2.wire| ==> w2.wire[i].answer == Full(v1, t)) &&
            |After(w2, events[2]).wire| == 1 && After(w2, events[2]).wire[0].answer == Unchanged(t) &&
            After(w2, events[2]).wire[0].sent.ifNoneMatch == v1.tag &&
            Handle(w2, events[2].env, route, req).served == FromCache(Entry(v0.body, v0.modified, ""))
  {
    var events := HeadBetween(v0, v1, route, req, t0, t);
    hide Handle, KeyOf;
    FirstGet(v0, route, req, t0);
    var w1 := After(EMPTY, events[0]);
    HeadMeetsNewer(w1, v0, v1, route, events[1].req, t);
    OldIsServed(After(w1, events[1]), v0, v1, route, req, t);
  }

  /** Without that premise the bound fails: after a client HEAD that meets a newer version, an honest
      upstream's 304 makes the handler serve the old version while the new one is current. */
  lemma {:induction false} HeadThenStale(v0: Version, v1: Version, route: Route, req: Request, t0: int, t: int)
    requires History([v0, v1]) && v0.since <= t0 < v1.since <= t
    requires req.policy == Docker.Policy(true, true, true) && req.ifNoneMatch == "" && req.verb == GET
    requires !route.hasCredentials && route.validates && route.ttl == 0
    ensures var hist, events := [v0, v1], HeadBetween(v0, v1, route, req, t0, t);
            (forall i :: 0 <= i < 3 ==> PremisesOf(hist, Run(EMPTY, events[..i]), events[i], t0, t)) &&
            Handle(Run(EMPTY, events[..2]), events[2].env, route, req).served == FromCache(Entry(v0.body, v0.modified, "")) &&
            CurrentAt(hist, t) == 1
  {
    hide Handle, CurrentAt, Run, KeyOf, After, PremisesOf, HeadBetween;
    var hist, events := [v0, v1], HeadBetween(v0, v1, route, req, t0, t);
    assert hist[0] == v0 && hist[1] == v1;
    CurrentOfTwo(v0, v1, t);
    HeadBetweenWires(v0, v1, route, req, t0, t);
    HeadBetweenTruthful(v0, v1, route, req, t0, t);
    RunOfTwo(events[0], events[1]);
    NoRun();
    hide History;
    assert events[..0] == [] && events[..1] == [events[0]] && events[..2] == [events[0], events[1]];
  }

  lemma {:induction false} HeadBetweenTruthful(v0: Version, v1: Version, route: Route, req: Request, t0: int, t: int)
    requires History([v0, v1]) && v0.since <= t0 < v1.since <= t
    requires req.policy == Docker.Policy(true, true, true) && req.ifNoneMatch == "" && req.verb == GET
    requires !route.hasCredentials && route.validates && route.ttl == 0
    ensures var hist, events := [v0, v1], HeadBetween(v0, v1, route, req, t0, t);
            var w1 := After(EMPTY, events[0]);
            var w2 := After(w1, events[1]);
            PremisesOf(hist, EMPTY, events[0], t0, t) && PremisesOf(hist, w1, events[1], t0, t) &&
            PremisesOf(hist, w2, events[2], t0, t)
  {
    var hist, events := [v0, v1], HeadBetween(v0, v1, route, req, t0, t);
    assert hist[0] == v0 && hist[1] == v1;
    CurrentOfTwo(v0, v1, t0);
    CurrentOfTwo(v0, v1, t);
    HeadBetweenWires(v0, v1, route, req, t0, t);
    hide Handle, CurrentAt, KeyOf, Truthful, History;
    var w1 := After(EMPTY, events[0]);
    var w2 := After(w1, events[1]);
    AllFull(hist, events[0].env, w1.wire, v0, 0, t0, t0, t);
    AllFull(hist, events[1].env, w2.wire, v1, 1, t, t0, t);
    OneUnchanged(hist, events[2].env, After(w2, events[2]).wire, t);
  }

  // ---- Why a client's condition must not stand alone ------------------------------------------

  /** What an honest upstream whose version is `v` answers to a HEAD or GET that names this validator. */
  function AnswerTo(v: Version, condition: string, t: int): Answer {
    if condition == v.tag then Unchanged(t) else Full(v, t)
  }

  /** A request that names another validator, or none, over a stored `v0` without a remembered validator. */
  lemma {:induction false} BorrowedJudged(w: World, v0: Version, v1: Version, route: Route, req: Request, t: int)
    requires w.store == map[FileOf(req) := Entry(v0.body, v0.modified, "")] && w.etags == map[] && v0.modified < v1.modified
    requires req.policy == Docker.Policy(true, true, true) && req.verb == GET && v1.tag != ""
    requires !route.hasCredentials && route.validates && route.ttl == 0
    ensures var answer := AnswerTo(v1, req.ifNoneMatch, t);
            var c := Handle(w, Replies([answer, answer], t), route, req);
            (c.served.FromCache? <==> req.ifNoneMatch == v1.tag) && (c.served.FromCache? ==> c.served.entry.body == v0.body) &&
            |c.w.wire| > 0 && c.w.wire[0].sent.purpose == Revalidate &&
            forall i :: 0 <= i < |c.w.wire| ==> c.w.wire[i].answer == answer && c.w.wire[i].sent.ifNoneMatch == req.ifNoneMatch
  {
    hide Docker.ManifestFallback, KeyOf, CacheAndStream;
    var answer := AnswerTo(v1, req.ifNoneMatch, t);
    var env, start, entry := Replies([answer, answer], t), Start(w), w.store[FileOf(req)];
    var j := Decide(start, env, route, req, entry);
    assert |j.w.wire| == 1 && j.w.wire[0].answer == answer && (j.verdict.Fresh? <==> req.ifNoneMatch == v1.tag);
    FetchIsUpstream(j.w, env, route, req);
    FetchLog(j.w, env, route, req);
    FetchedAgain(j.w, env, route, req, answer);
    hide Decide, FetchAndStream;
  }

  /** All answers of a log are the honest one of the current version to the condition that was sent. */
  lemma {:induction false} AnswersHonest(hist: seq<Version>, env: Env, wire: seq<Exchange>, v: Version, c: nat, condition: string, at: int, hi: int)
    requires c < |hist| && hist[c] == v && CurrentAt(hist, at) == c && at <= hi && env.rewrite == NoHook
    requires forall i :: 0 <= i < |wire| ==> wire[i].answer == AnswerTo(v, condition, at) && wire[i].sent.ifNoneMatch == condition
    ensures Truthful(hist, env, wire, at, hi)
  {
    hide CurrentAt;
  }

  /** A client that names the newer version to a handler without a remembered validator makes an honest 304
      confirm the old one: a GET of `v0`, a restart, and a GET once `v1` is current, answered honestly
      throughout, is served `v0` exactly when it names the validator of `v1`. */
  lemma {:induction false} BorrowedThenStale(v0: Version, v1: Version, route: Route, req: Request, t0: int, t: int)
    requires History([v0, v1]) && v0.since <= t0 < v1.since <= t
    requires req.policy == Docker.Policy(true, true, true) && req.verb == GET
    requires !route.hasCredentials && route.validates && route.ttl == 0
    ensures var hist, plain, first := [v0, v1], req.(ifNoneMatch := ""), Replies([Full(v0, t0)], t0);
            var answer := AnswerTo(v1, req.ifNoneMatch, t);
            var next, w := Replies([answer, answer], t), Run(EMPTY, [Serve(first, route, plain), Restart]);
            HonestRequest(hist, EMPTY, first, route, plain, t0, t) && HonestRequest(hist, w, next, route, req, t0, t) &&
            CurrentAt(hist, t) == 1 && (Handle(w, next, route, req).served.FromCache? <==> req.ifNoneMatch == v1.tag) &&
            (req.ifNoneMatch == v1.tag ==> Handle(w, next, route, req).served.entry.body == v0.body)
  {
    hide Handle, CurrentAt, Run, KeyOf, Truthful;
    var hist, plain, first := [v0, v1], req.(ifNoneMatch := ""), Replies([Full(v0, t0)], t0);
    var answer := AnswerTo(v1, req.ifNoneMatch, t);
    var next, w := Replies([answer, answer], t), Run(EMPTY, [Serve(first, route, plain), Restart]);
    assert hist[0] == v0 && hist[1] == v1;
    CurrentOfTwo(v0, v1, t0);
    CurrentOfTwo(v0, v1, t);
    FirstGet(v0, route, plain, t0);
    RunOfTwo(Serve(first, route, plain), Restart);
    BorrowedJudged(w, v0, v1, route, req, t);
    AllFull(hist, first, Handle(EMPTY, first, route, plain).w.wire, v0, 0, t0, t0, t);
    AnswersHonest(hist, next, Handle(w, next, route, req).w.wire, v1, 1, req.ifNoneMatch, t, t);
  }

  // ---- Why no Put may be torn before its time -------------------------------------------------

  /** A GET whose Put fails between the rename and the time leaves the time of the copy. */
  lemma {:induction false} TornGet(v0: Version, route: Route, req: Request, t0: int)
    requires req.policy == Docker.Policy(true, true, true) && req.ifNoneMatch == "" && req.verb == GET && !route.hasCredentials
    ensures var w := Handle(EMPTY, Replies([Full(v0, t0)], t0).(put := AtTime), route, req).w;
            w.store == map[FileOf(req) := Entry(v0.body, t0, "")] && w.etags == map[] &&
            |w.wire| == 1 && w.wire[0].answer == Full(v0, t0)
  {
    hide Docker.ManifestFallback, KeyOf;
  }

  /** That time decides at the next HEAD: an answer with the newer version is taken for "not newer" exactly
      when it was last modified no later than the copy was made. */
  lemma {:induction false} TornEntryJudged(w: World, v0: Version, v1: Version, route: Route, req: Request, t0: int, t: int)
    requires w.store == map[FileOf(req) := Entry(v0.body, t0, "")] && w.etags == map[]
    requires req.policy == Docker.Policy(true, true, true) && req.ifNoneMatch == "" && req.verb == GET
    requires !route.hasCredentials && route.validates && route.ttl == 0 && v1.tag != ""
    ensures var c := Handle(w, Replies([Full(v1, t), Full(v1, t)], t), route, req);
            (c.served.FromCache? <==> v1.modified <= t0) && (c.served.FromCache? ==> c.served.entry.body == v0.body) &&
            (forall i :: 0 <= i < |c.w.wire| ==> c.w.wire[i].answer == Full(v1, t))
  {
    hide Docker.ManifestFallback, KeyOf, CacheAndStream;
    var env, start, entry := Replies([Full(v1, t), Full(v1, t)], t), Start(w), w.store[FileOf(req)];
    var j := Decide(start, env, route, req, entry);
    assert |j.w.wire| == 1 && j.w.wire[0].answer == Full(v1, t) && (j.verdict.Fresh? <==> v1.modified <= t0);
    FetchIsUpstream(j.w, env, route, req);
    FetchedAgain(j.w, env, route, req, Full(v1, t));
    hide Decide, FetchAndStream;
  }

  lemma {:induction false} FetchedAgain(w: World, env: Env, route: Route, req: Request, answer: Answer)
    requires |w.wire| == 1 && w.wire[0].answer == answer && env.answers == [answer, answer] && !route.hasCredentials
    requires answer.Got? && answer.response.status != 404
    ensures var wire := FetchAndStream(w, env, route, req).w.wire; forall i :: 0 <= i < |wire| ==> wire[i].answer == answer
  {
    hide Docker.ManifestFallback, KeyOf, ConsumeUpstream;
    var f := FetchUpstream(w, env, route, req);
    assert |f.w.wire| == 2 && f.answer == answer;
    ConsumeKeepsWork(f.w, env, req, ApplyRewrite(env.rewrite, f.answer.response), f.effective);
    hide FetchUpstream;
  }

  /** Without that premise the bound fails too: an honest upstream, a GET whose Put is torn at its time, and
      the next GET serves the old version while the new one is current, exactly when the new one was last
      modified before the copy. */
  lemma {:induction false} TornTimeThenStale(v0: Version, v1: Version, route: Route, req: Request, t0: int, t: int)
    requires History([v0, v1]) && v0.since <= t0 < v1.since <= t
    requires req.policy == Docker.Policy(true, true, true) && req.ifNoneMatch == "" && req.verb == GET
    requires !route.hasCredentials && route.validates && route.ttl == 0
    ensures var hist, torn, next := [v0, v1], Replies([Full(v0, t0)], t0).(put := AtTime), Replies([Full(v1, t), Full(v1, t)], t);
            var w := Run(EMPTY, [Serve(torn, route, req)]);
            HonestRequest(hist, EMPTY, torn, route, req, t0, t) && HonestRequest(hist, w, next, route, req, t0, t) &&
            CurrentAt(hist, t) == 1 && (Handle(w, next, route, req).served.FromCache? <==> v1.modified <= t0) &&
            (v1.modified <= t0 ==> Handle(w, next, route, req).served.entry.body == v0.body)
  {
    hide Handle, CurrentAt, Run, KeyOf, After, Truthful;
    var hist, torn, next := [v0, v1], Replies([Full(v0, t0)], t0).(put := AtTime), Replies([Full(v1, t), Full(v1, t)], t);
    assert hist[0] == v0 && hist[1] == v1;
    CurrentOfTwo(v0, v1, t0);
    CurrentOfTwo(v0, v1, t);
    TornGet(v0, route, req, t0);
    RunOfOne(Serve(torn, route, req));
    var w := Run(EMPTY, [Serve(torn, route, req)]);
    TornEntryJudged(w, v0, v1, route, req, t0, t);
    AllFull(hist, torn, w.wire, v0, 0, t0, t0, t);
    AllFull(hist, next, Handle(w, next, route, req).w.wire, v1, 1, t, t0, t);
  }

  lemma {:induction false} RunOfOne(e: Event)
    requires e.Serve?
    ensures Run(EMPTY, [e]) == Handle(EMPTY, e.env, e.route, e.req).w
  {
    RunOfTwo(e, e);
    hide Run, Handle;
  }

  lemma {:induction false} NoRun()
    ensures Run(EMPTY, []) == EMPTY
  {
  }

  lemma {:induction false} AllFull(hist: seq<Version>, env: Env, wire: seq<Exchange>, v: Version, c: nat, at: int, lo: int, hi: int)
    requires c < |hist| && hist[c] == v && CurrentAt(hist, at) == c && lo <= at <= hi && env.now == at
    requires forall i :: 0 <= i < |wire| ==> wire[i].answer == Full(v, at)
    requires env.rewrite == NoHook
    ensures Truthful(hist, env, wire, at, hi)
  {
    hide CurrentAt;
  }

  lemma {:induction false} OneUnchanged(hist: seq<Version>, env: Env, wire: seq<Exchange>, at: int)
    requires |hist| == 2 && CurrentAt(hist, at) == 1
    requires |wire| == 1 && wire[0].answer == Unchanged(at) && wire[0].sent.ifNoneMatch == hist[1].tag
    ensures Truthful(hist, env, wire, at, at)
  {
    hide CurrentAt;
  }

  ghost predicate PremisesOf(hist: seq<Version>, w: World, e: Event, lo: int, hi: int) {
    e.Serve? && Premises(hist, w, e.env, e.route, e.req, lo, hi)
  }
}
