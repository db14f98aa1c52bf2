/** Where stored bodies come from and how they go, over whole runs against an arbitrary
    upstream, with failures allowed everywhere. */
module Provenance {
  import opened CacheKeys
  import opened Proxy
  import opened ProxyRuns
  import Docker
  import RequestLaws

  // ---- One request ---------------------------------------------------------------

  ghost predicate SameAt(w: World, w': World, k: Key) {
    (k in w.store <==> k in w'.store) && (k in w.store ==> w'.store[k] == w.store[k])
  }

  /** Nothing changed outside one locator. */
  ghost predicate OthersSame(w: World, w': World, loc: Locator) {
    w'.store - {KeyOf(loc)} == w.store - {KeyOf(loc)} && w'.etags - {loc} == w.etags - {loc}
  }

  lemma OtherSame(w: World, w': World, loc: Locator, k: Key)
    requires OthersSame(w, w', loc) && k != KeyOf(loc)
    ensures SameAt(w, w', k)
  {
    hide KeyOf;
    var file := KeyOf(loc);
    assert k in w.store <==> k in w.store - {file};
    assert k in w'.store <==> k in w'.store - {file};
    assert k in w.store ==> (w.store - {file})[k] == w.store[k];
    assert k in w'.store ==> (w'.store - {file})[k] == w'.store[k];
  }

  lemma ChangedAt<K, V>(m: map<K, V>, k: K, v: V)
    ensures m[k := v] - {k} == m - {k} && m - {k} - {k} == m - {k}
  {
  }

  /** A revalidation was answered 404. */
  ghost predicate NotFoundSeen(wire: seq<Exchange>) {
    exists i :: 0 <= i < |wire| && wire[i].sent.purpose == Revalidate && wire[i].sent.verb == HEAD &&
      wire[i].answer.Got? && wire[i].answer.response.status == 404
  }

  lemma SeenStays(a: seq<Exchange>, b: seq<Exchange>)
    requires a <= b && NotFoundSeen(a)
    ensures NotFoundSeen(b)
  {
    var i :| 0 <= i < |a| && a[i].sent.purpose == Revalidate && a[i].sent.verb == HEAD &&
      a[i].answer.Got? && a[i].answer.response.status == 404;
    assert b[i] == a[i];
  }

  /** What revalidating an entry does: at most its own key goes, and only by a 404. */
  lemma DecideEffect(w: World, env: Env, route: Route, req: Request, entry: Entry)
    ensures var j := Decide(w, env, route, req, entry);
            w.wire <= j.w.wire &&
            OthersSame(w, j.w, req.loc) &&
            (SameAt(w, j.w, FileOf(req)) || (FileOf(req) !in j.w.store && NotFoundSeen(j.w.wire) && j.verdict.Stale?))
  {
    hide AskWithAuth, KeyOf;
    var sent := HeadOf(w, req, entry, Revalidate);
    AskWithAuthAttempts(w, env, route, sent);
    var reply := AskWithAuth(w, env, route, sent);
    if reply.answer.Got? {
      ChangedAt(w.etags, req.loc, Validator(reply.answer.response));
      ChangedAt(w.store, FileOf(req), entry);
    }
    if reply.answer.Got? && reply.answer.response.status == 404 {
      var last := |reply.w.wire| - 1;
      assert reply.w.wire[last].sent.purpose == sent.purpose && reply.w.wire[last].sent.verb == sent.verb;
    }
  }

  lemma ConsumeEffect(w: World, env: Env, req: Request, r: Response, effective: string)
    ensures var c := ConsumeUpstream(w, env, req, r, effective);
            c.w.wire == w.wire && OthersSame(w, c.w, req.loc) &&
            (SameAt(w, c.w, FileOf(req)) ||
             (req.policy.allowStore && r.status == 200 && req.verb == GET && !r.cut &&
              FileOf(req) in c.w.store && c.w.store[FileOf(req)].body == r.body))
  {
    hide KeyOf;
    var c := ConsumeUpstream(w, env, req, r, effective);
    if FileOf(req) in c.w.store {
      ChangedAt(w.store, FileOf(req), c.w.store[FileOf(req)]);
    }
    ChangedAt(w.etags, req.loc, Validator(r));
  }

  /** What a fetch does: at most its own key is written, from its last answer. */
  lemma FetchEffect(w: World, env: Env, route: Route, req: Request)
    ensures var c := FetchAndStream(w, env, route, req);
            w.wire < c.w.wire &&
            OthersSame(w, c.w, req.loc) &&
            (SameAt(w, c.w, FileOf(req)) || (FileOf(req) in c.w.store && StoredBy(c.w, env, req, c.w.store[FileOf(req)])))
  {
    hide FetchUpstream, Docker.ManifestFallback, RevalidateSource, KeyOf;
    FetchIsLogged(w, env, route, req);
    var f := FetchUpstream(w, env, route, req);
    var last := |f.w.wire| - 1;
    assert f.w.wire[last].sent.purpose == Fetch;
    if f.answer.Got? {
      var r := ApplyRewrite(env.rewrite, f.answer.response);
      ConsumeEffect(f.w, env, req, r, f.effective);
    }
  }

  /** One request changes nothing outside its own file and locator. There, an entry stays as it was, or was
      stored from the last answer of this request's fetch, or went after a 404 on revalidation. */
  lemma RequestProvenance(w: World, env: Env, route: Route, req: Request)
    ensures var w' := Handle(w, env, route, req).w;
            OthersSame(w, w', req.loc) &&
            (SameAt(w, w', FileOf(req)) ||
             (FileOf(req) in w'.store && StoredBy(w', env, req, w'.store[FileOf(req)])) ||
             (FileOf(req) !in w'.store && NotFoundSeen(w'.wire)))
  {
    hide Decide, FetchAndStream, StoredBy, NotFoundSeen, KeyOf;
    var start := w.(wire := [], tokens := 0);
    match Lookup(start, env, req)
    case None =>
      FetchEffect(start, env, route, req);
    case Some(entry) =>
      DecideEffect(start, env, route, req, entry);
      var j := Decide(start, env, route, req, entry);
      if j.verdict.Fresh? {
      } else {
        FetchEffect(j.w, env, route, req);
        var c := FetchAndStream(j.w, env, route, req);
        if FileOf(req) !in j.w.store && FileOf(req) in start.store {
          SeenStays(j.w.wire, c.w.wire);
        }
      }
  }

  /** After a 404 on revalidation the entry and its validator are gone, unless the fetch that follows
      stores a new one. */
  lemma GoneAfterNotFound(w: World, env: Env, route: Route, req: Request, entry: Entry)
    requires Lookup(w.(wire := [], tokens := 0), env, req) == Some(entry) && env.removes
    requires req.policy.requireRevalidate && route.validates && !ShouldBypassValidation(route, entry, env.now)
    requires var answer := AskWithAuth(w.(wire := [], tokens := 0), env, route, HeadOf(w, req, entry, Revalidate)).answer;
             answer.Got? && answer.response.status == 404
    ensures var w' := Handle(w, env, route, req).w;
            if FileOf(req) in w'.store then StoredBy(w', env, req, w'.store[FileOf(req)]) else req.loc !in w'.etags
  {
    hide AskWithAuth, FetchAndStream, StoredBy, KeyOf;
    var start := w.(wire := [], tokens := 0);
    var j := Decide(start, env, route, req, entry);
    assert FileOf(req) !in j.w.store && req.loc !in j.w.etags && j.verdict.Stale?;
    FetchEffect(j.w, env, route, req);
    UnstoredKeepsTags(j.w, env, route, req);
  }

  /** A fetch remembers a validator only together with a stored entry. */
  lemma UnstoredKeepsTags(w: World, env: Env, route: Route, req: Request)
    ensures var w' := FetchAndStream(w, env, route, req).w; FileOf(req) in w'.store || w'.etags == w.etags
  {
    hide FetchUpstream, Docker.ManifestFallback, RevalidateSource, KeyOf;
    FetchIsLogged(w, env, route, req);
  }

  /** The stored body is the full intended one, unless a hook is present and reading the upstream
      body failed: then, and only then, an empty body is stored under a 200. */
  lemma StoredBodyIsFull(w': World, env: Env, req: Request, entry: Entry)
    requires StoredBy(w', env, req, entry)
    ensures var r := LastExchange(w').answer.response;
            (r.cut ==> !env.rewrite.NoHook? && entry.body == []) &&
            (!r.cut ==> entry.body == Intended(env.rewrite, r))
  {
  }

  /** The response that goes on to the client and the store: the hook's headers and body when it ran, the
      original response when there is none or it failed, and an empty body when a hook met a broken one. */
  predicate GoesOn(rewrite: Rewrite, r: Response, p: Response) {
    p.status == r.status && p.challenges == r.challenges && p.cut == (r.cut && rewrite.NoHook?) &&
    p.body == (if r.cut && !rewrite.NoHook? then [] else Intended(rewrite, r)) &&
    if rewrite.Rewritten? && !r.cut
    then p.digest == rewrite.digest && p.etag == rewrite.etag && p.modified == rewrite.modified
    else p.digest == r.digest && p.etag == r.etag && p.modified == r.modified
  }

  /** A fetch stores exactly when a GET under a storing policy ends in a 200 whose body is read, sent and put
      in full. The entry is then that body with its time and source, and only then its validator is
      remembered. A Put that fails behind its rename leaves the body with what the old metadata says; any other
      outcome leaves the store alone. The client gets the response in every case but a lost one. */
  lemma FetchStoresExactly(w: World, env: Env, route: Route, req: Request)
    ensures var c, f := FetchAndStream(w, env, route, req), FetchUpstream(w, env, route, req);
            (f.answer.Lost? ==> c == Consumed(f.w, BadGateway)) &&
            (f.answer.Got? ==>
               c.served.FromUpstream? && GoesOn(env.rewrite, f.answer.response, c.served.response) && c.w.wire == f.w.wire &&
               var p, file := c.served.response, FileOf(req);
               var placed := f.answer.response.status == 200 && req.policy.allowStore && req.verb == GET &&
                             !p.cut && !env.clientGone && !env.put.BeforeRename?;
               (c.served.stored <==> placed && env.put.Done?) &&
               c.w.etags == (if c.served.stored then RequestLaws.Learned(f.w.etags, req.loc, p) else f.w.etags) &&
               c.w.store == (if !placed then f.w.store
                             else f.w.store[file := Entry(p.body,
                                                          if env.put.AtTime? || p.modified.None? then env.putAt else p.modified.value,
                                                          if env.put.Done? then f.effective
                                                          else if file in f.w.store then f.w.store[file].effective else env.orphan)]))
  {
    hide FetchUpstream, KeyOf;
  }

  /** What one request stored, the next one for the same file gets: while the policy asks for no
      revalidation, or within the TTL, it is served from the cache without any upstream request. The next
      request may have another locator, as `/` and `/root` do. */
  lemma StoredIsServed(w: World, first: Env, route: Route, req: Request, second: Env, again: Request)
    requires Handle(w, first, route, req).served.FromUpstream? && Handle(w, first, route, req).served.stored
    requires FileOf(again) == FileOf(req) && again.verb == GET && again.policy.allowCache && second.readable
    requires var r := Handle(w, first, route, req).served.response;
             !again.policy.requireRevalidate || (route.ttl > 0 && second.now < ModTime(r, first.putAt) + route.ttl)
    ensures var c := Handle(w, first, route, req);
            var d := Handle(c.w, second, route, again);
            d.served.FromCache? && d.served.entry.body == c.served.response.body &&
            d.served.entry.modTime == ModTime(c.served.response, first.putAt) &&
            d.w.wire == [] && d.w.store == c.w.store && d.w.etags == c.w.etags
  {
    var start := w.(wire := [], tokens := 0);
    StoredEntry(w, first, route, req);
    hide FetchAndStream, IsCacheFresh, KeyOf;
    var c := Handle(w, first, route, req);
    assert Lookup(c.w.(wire := [], tokens := 0), second, again) == Some(c.w.store[FileOf(req)]);
  }

  lemma StoredEntry(w: World, env: Env, route: Route, req: Request)
    requires Handle(w, env, route, req).served.FromUpstream? && Handle(w, env, route, req).served.stored
    ensures var c := Handle(w, env, route, req);
            FileOf(req) in c.w.store && c.w.store[FileOf(req)].body == c.served.response.body &&
            c.w.store[FileOf(req)].modTime == ModTime(c.served.response, env.putAt)
  {
    hide FetchAndStream, Decide, FetchUpstream, ApplyRewrite, KeyOf;
    var start := w.(wire := [], tokens := 0);
    FetchStoresExactly(start, env, route, req);
    if Lookup(start, env, req).Some? {
      FetchStoresExactly(Decide(start, env, route, req, w.store[FileOf(req)]).w, env, route, req);
    }
  }

  // ---- Runs ------------------------------------------------------------------------

  datatype Event = Serve(env: Env, route: Route, req: Request) | Restart

  function After(w: World, e: Event): World {
    if e.Restart? then Restarted(w) else Handle(w, e.env, e.route, e.req).w
  }

  function Run(w: World, events: seq<Event>): World {
    if events == [] then w else After(Run(w, events[..|events| - 1]), events[|events| - 1])
  }

  const EMPTY := World(map[], map[], [], 0)

  /** The entry was stored by the i-th event of the run. */
  ghost predicate StoredAt(events: seq<Event>, i: nat, k: Key, entry: Entry)
    requires i < |events|
  {
    events[i].Serve? && FileOf(events[i].req) == k &&
    StoredBy(Run(EMPTY, events[..i + 1]), events[i].env, events[i].req, entry)
  }

  lemma EventProvenance(w: World, e: Event, k: Key)
    ensures var w' := After(w, e);
            SameAt(w, w', k) ||
            (e.Serve? && FileOf(e.req) == k &&
             (if k in w'.store then StoredBy(w', e.env, e.req, w'.store[k]) else NotFoundSeen(w'.wire)))
  {
    hide Handle, StoredBy, NotFoundSeen, KeyOf;
    if e.Serve? {
      RequestProvenance(w, e.env, e.route, e.req);
      if k != FileOf(e.req) {
        OtherSame(w, After(w, e), e.req.loc, k);
      }
    }
  }

  /** Store provenance: after any run against any upstream, every stored entry was stored by a client
      GET for a locator of its file, from a 200, under a policy that allows storing, and not altered since. */
  lemma {:induction false} StoreProvenance(events: seq<Event>, k: Key) returns (i: nat)
    requires k in Run(EMPTY, events).store
    ensures i < |events| && StoredAt(events, i, k, Run(EMPTY, events).store[k])
    ensures forall j :: i < j <= |events| ==>
              k in Run(EMPTY, events[..j]).store && Run(EMPTY, events[..j]).store[k] == Run(EMPTY, events).store[k]
  {
    hide After, StoredBy, NotFoundSeen, KeyOf;
    var n := |events| - 1;
    var before := Run(EMPTY, events[..n]);
    assert events[..n + 1] == events;
    EventProvenance(before, events[n], k);
    if SameAt(before, Run(EMPTY, events), k) {
      i := StoreProvenance(events[..n], k);
      assert events[..n][..i + 1] == events[..i + 1];
      forall j | i < j <= |events|
        ensures k in Run(EMPTY, events[..j]).store && Run(EMPTY, events[..j]).store[k] == Run(EMPTY, events).store[k]
      {
        if j <= n {
          assert events[..n][..j] == events[..j];
        }
      }
    } else {
      i := n;
    }
  }

  /** No other locator of the run has the file of this one. */
  predicate OwnFile(events: seq<Event>, loc: Locator) {
    forall i :: 0 <= i < |events| && events[i].Serve? && FileOf(events[i].req) == KeyOf(loc) ==> events[i].req.loc == loc
  }

  /** So an entry was stored for the very locator that finds it, as long as no other locator of the run has
      its file. */
  lemma StoredForItself(events: seq<Event>, loc: Locator) returns (i: nat)
    requires OwnFile(events, loc) && KeyOf(loc) in Run(EMPTY, events).store
    ensures i < |events| && StoredAt(events, i, KeyOf(loc), Run(EMPTY, events).store[KeyOf(loc)])
    ensures events[i].req.loc == loc
  {
    hide Run, StoredBy, KeyOf;
    i := StoreProvenance(events, KeyOf(loc));
  }

  /** Entries vanish only through a 404 on revalidation: between a moment when a key is stored and a
      later one when it is not, some request for that key had one. */
  lemma {:induction false} EntriesVanishBy404(w: World, events: seq<Event>, k: Key) returns (i: nat)
    requires k in w.store && k !in Run(w, events).store
    ensures i < |events| && events[i].Serve? && FileOf(events[i].req) == k && NotFoundSeen(Run(w, events[..i + 1]).wire)
  {
    hide After, StoredBy, NotFoundSeen, KeyOf;
    var n := |events| - 1;
    var before := Run(w, events[..n]);
    assert events[..n + 1] == events;
    if k in before.store {
      EventProvenance(before, events[n], k);
      i := n;
    } else {
      i := EntriesVanishBy404(w, events[..n], k);
      assert events[..n][..i + 1] == events[..i + 1];
    }
  }

  /** The finding behind `StoredBodyIsFull`: a hook and an upstream body that breaks off. */
  lemma BrokenBodyIsStoredEmpty(route: Route, req: Request, body: Bytes) returns (env: Env)
    requires req.verb == GET && req.policy.allowStore && !route.hasCredentials && body != []
    ensures var c := Handle(EMPTY, env, route, req);
            FileOf(req) in c.w.store && c.w.store[FileOf(req)].body == [] && c.served.FromUpstream? && c.served.stored &&
            c.w.wire != [] && LastExchange(c.w).answer.Got? && LastExchange(c.w).answer.response.body == body
  {
    var r := Response(200, "", "", None, [], body, true);
    env := Env(0, true, [Got(r, 0)], [], RewriteFails, false, Done, 0, "", true);
  }
}
