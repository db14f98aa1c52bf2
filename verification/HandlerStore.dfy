/** The handler over the disk store: the plain map in which the handler keeps its entries is the one
    that the directory tree stands for, operation by operation and fault by fault. */
module HandlerStore {
  import opened CacheKeys
  import P = Proxy
  import T = TreeStore

  function Seen(e: T.Entry): P.Entry {
    P.Entry(e.body, e.modTime, e.effective)
  }

  /** The tree as the handler sees it. */
  ghost function View(fs: T.Tree): map<Key, P.Entry> {
    map key | key in T.Contents(fs) :: Seen(T.Contents(fs)[key])
  }

  lemma ViewUpdated(fs: T.Tree, fs': T.Tree, key: Key, e: T.Entry)
    requires T.Contents(fs') == T.Contents(fs)[key := e]
    ensures View(fs') == View(fs)[key := Seen(e)]
  {
  }

  /** How a Put over the tree ends. */
  ghost function EndOf(fs: T.Tree, key: Key, body: T.Source, effective: string, env: T.Env): P.PutEnd {
    if !T.Places(fs, key, body, env) then P.BeforeRename
    else if T.FileOp.Chtimes in env.broken then P.AtTime
    else if T.MetaOps(effective) !! env.broken then P.Done
    else P.AtMetadata
  }

  /** The faults of one disk operation as the handler's model has them. */
  ghost function Faults(env: P.Env, fs: T.Tree, key: Key, body: T.Source, effective: string, disk: T.Env): P.Env
    requires key != []
  {
    env.(put := EndOf(fs, key, body, effective, disk), putAt := disk.now, orphan := T.EffectiveOf(fs, key))
  }

  /** The time that a Put is asked to set; without Last-Modified it is the clock's. */
  function Modified(r: P.Response): T.Time {
    if r.modified.Some? then T.At(r.modified.value) else T.Unset
  }

  /** Storing a response on the disk does to the tree what `CacheAndStream` does to the map. */
  method Put(store: T.FileStore, body: T.Source, effective: string, disk: T.Env,
             ghost w: P.World, ghost env: P.Env, req: P.Request, r: P.Response) returns (result: T.PutResult)
    requires T.ValidTree(store.fs) && req.loc.hub != "" && T.IsKey(KeyOf(req.loc)) && T.FreshTemps(store.fs, KeyOf(req.loc), disk)
    requires w.store == View(store.fs)
    requires body.complete == !(r.cut || env.clientGone) && (body.complete ==> body.delivered == r.body)
    modifies store
    ensures T.ValidTree(store.fs)
    ensures var c := P.CacheAndStream(w, old(Faults(env, store.fs, KeyOf(req.loc), body, effective, disk)), req, r, effective);
            View(store.fs) == c.w.store && c.served == P.FromUpstream(r, result.Saved?)
  {
    hide View, KeyOf, T.ValidTree, T.FreshTemps, T.Contents, T.EffectiveOf, T.MetaOps, T.Places, T.PlacedEntry, T.Kind, P.CacheAndStream, Faults;
    ghost var fs, key := store.fs, KeyOf(req.loc);
    result := store.Put(req.loc, body, Modified(r), effective, disk);
    PutMatches(fs, store.fs, body, effective, disk, w, env, req, r, result);
  }

  lemma PutMatches(fs: T.Tree, fs': T.Tree, body: T.Source, effective: string, disk: T.Env,
                   w: P.World, env: P.Env, req: P.Request, r: P.Response, result: T.PutResult)
    requires KeyOf(req.loc) != [] && w.store == View(fs)
    requires body.complete == !(r.cut || env.clientGone) && (body.complete ==> body.delivered == r.body)
    requires result == if T.Places(fs, KeyOf(req.loc), body, disk) && T.FileOp.Chtimes !in disk.broken && T.MetaOps(effective) !! disk.broken
                       then T.Saved(T.Entry(body.delivered, T.TimeOf(Modified(r), disk.now), effective))
                       else T.PutFailed(T.IoError)
    requires T.Contents(fs') == if !T.Places(fs, KeyOf(req.loc), body, disk) then T.Contents(fs)
                                else T.Contents(fs)[KeyOf(req.loc) := T.PlacedEntry(result, body, Modified(r), T.EffectiveOf(fs, KeyOf(req.loc)), disk)]
    ensures var c := P.CacheAndStream(w, Faults(env, fs, KeyOf(req.loc), body, effective, disk), req, r, effective);
            View(fs') == c.w.store && c.served == P.FromUpstream(r, result.Saved?)
  {
    var key := KeyOf(req.loc);
    hide KeyOf, View, T.Contents, T.EffectiveOf, T.MetaOps, T.Fits;
    OldPath(fs, key);
    if T.Places(fs, key, body, disk) {
      ViewUpdated(fs, fs', key, T.PlacedEntry(result, body, Modified(r), T.EffectiveOf(fs, key), disk));
    } else {
      ViewKept(fs, fs');
    }
  }

  lemma ViewKept(fs: T.Tree, fs': T.Tree)
    requires T.Contents(fs') == T.Contents(fs)
    ensures View(fs') == View(fs)
  {
  }

  lemma OldPath(fs: T.Tree, key: Key)
    requires key != []
    ensures key in View(fs) ==> View(fs)[key].effective == T.EffectiveOf(fs, key)
  {
  }

  /** A lookup on the disk finds what `Lookup` finds in the map; every error of the store is a miss. */
  method Lookup(store: T.FileStore, disk: T.Env, ghost w: P.World, ghost env: P.Env, req: P.Request)
    returns (found: P.Option<P.Entry>)
    requires T.ValidTree(store.fs) && req.loc.hub != "" && T.IsKey(KeyOf(req.loc)) && w.store == View(store.fs)
    requires req.policy.allowCache
    ensures found == P.Lookup(w, env.(readable := {T.StatBody, T.OpenBody, T.ReadMeta} !! disk.broken), req)
  {
    hide T.ValidTree, T.IsKey, KeyOf, T.Contents;
    var result := store.Get(req.loc, disk);
    found := if result.Found? then P.Some(Seen(result.entry)) else P.None;
  }

  /** Removing on the disk takes the file's entry from the map, whether or not its metadata goes as well. */
  method Remove(store: T.FileStore, disk: T.Env, req: P.Request) returns (result: T.RemoveResult)
    requires T.ValidTree(store.fs) && req.loc.hub != "" && T.IsKey(KeyOf(req.loc))
    modifies store
    ensures T.ValidTree(store.fs)
    ensures View(store.fs) == if T.BodyRemove in disk.broken then old(View(store.fs)) else old(View(store.fs)) - {P.FileOf(req)}
  {
    hide T.ValidTree, T.IsKey, KeyOf, T.Removable, T.Contents, T.HasChild;
    ghost var fs := store.fs;
    if KeyOf(req.loc) in T.Contents(fs) {
      OnlyFilesStored(fs, KeyOf(req.loc));
    }
    result := store.Remove(req.loc, disk);
  }

  lemma OnlyFilesStored(fs: T.Tree, key: Key)
    requires T.ValidTree(fs) && key in T.Contents(fs)
    ensures T.Removable(fs, key)
  {
    forall n | 0 <= n < |key| ensures !T.IsFile(fs, key[..n]) {
      T.AncestorIsDir(fs, key, n);
    }
  }
}
