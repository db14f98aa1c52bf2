/** The disk store as one caller sees it: Get, Put and Remove over a directory tree, every
    file operation free to fail, proved to act like operations on a plain map from
    (hub, file segments) to (body, modification time, effective path). */
module TreeStore {
  import opened Text
  import opened GoPath
  import opened CacheKeys

  type Bytes = seq<bv8>

  // ---- The directory tree -----------------------------------------------------

  datatype Content = Blob(bytes: Bytes) | Metadata(effective: string)

  datatype Node = Dir | File(content: Content, modTime: int)

  type Tree = map<Segs, Node>

  datatype NameKind = Plain | Temporary | MetaName

  function Kind(name: string): NameKind {
    if HasPrefix(name, ".cache-") then Temporary else if HasSuffix(name, ".meta") then MetaName else Plain
  }

  function Last(p: Segs): string
    requires p != []
  {
    p[|p| - 1]
  }

  function Parent(p: Segs): Segs
    requires p != []
  {
    p[..|p| - 1]
  }

  predicate IsFile(fs: Tree, p: Segs) {
    p in fs && fs[p].File?
  }

  predicate IsDir(fs: Tree, p: Segs) {
    p in fs && fs[p].Dir?
  }

  /** Files lie in directories, two or more levels deep; only plain names are directories or
      bodies, and a metadata name holds metadata. */
  ghost predicate WellPlaced(fs: Tree, p: Segs)
    requires p in fs
  {
    (p != [] ==> IsDir(fs, Parent(p))) &&
    (fs[p].Dir? ==> forall i :: 1 <= i < |p| ==> Kind(p[i]) == Plain) &&
    (fs[p].File? ==> |p| >= 2 && (Kind(Last(p)) == Plain ==> fs[p].content.Blob?) &&
                     (Kind(Last(p)) == MetaName ==> fs[p].content.Metadata?))
  }

  ghost predicate ValidTree(fs: Tree) {
    IsDir(fs, []) && forall p :: p in fs ==> WellPlaced(fs, p)
  }

  /** The path names an entry: a hub named by one path segment, then plain names. */
  predicate IsKey(p: Segs) {
    |p| >= 2 && Proper(p[0]) && forall i :: 1 <= i < |p| ==> Kind(p[i]) == Plain
  }

  // ---- What the tree stores ---------------------------------------------------

  datatype Entry = Entry(body: Bytes, modTime: int, effective: string)

  /** The effective path that the metadata file of a key holds, if there is one. */
  function EffectiveOf(fs: Tree, key: Key): string
    requires key != []
  {
    if IsFile(fs, WithMeta(key)) && fs[WithMeta(key)].content.Metadata? then fs[WithMeta(key)].content.effective else ""
  }

  function EntryAt(fs: Tree, key: Key): Entry
    requires IsFile(fs, key) && fs[key].content.Blob? && key != []
  {
    Entry(fs[key].content.bytes, fs[key].modTime, EffectiveOf(fs, key))
  }

  ghost predicate Stored(fs: Tree, p: Segs) {
    IsFile(fs, p) && p != [] && Kind(Last(p)) == Plain && fs[p].content.Blob?
  }

  /** The plain map that the tree stands for. */
  ghost function Contents(fs: Tree): map<Key, Entry> {
    map p | p in fs && Stored(fs, p) :: EntryAt(fs, p)
  }

  ghost function Temps(fs: Tree): set<Segs> {
    set p | p in fs && p != [] && fs[p].File? && Kind(Last(p)) == Temporary
  }

  /** No stored path is ever a proper ancestor of another one. */
  lemma {:induction false} StoredPathsNeverNest(fs: Tree, p: Segs, q: Segs)
    requires ValidTree(fs) && p in Contents(fs) && q in Contents(fs)
    ensures !(p < q)
  {
    if p < q {
      assert q[..|p|] == p;
      AncestorIsDir(fs, q, |p|);
    }
  }

  lemma {:induction false} AncestorIsDir(fs: Tree, p: Segs, n: nat)
    requires ValidTree(fs) && p in fs && n < |p|
    ensures IsDir(fs, p[..n])
    decreases |p|
  {
    assert WellPlaced(fs, p);
    if n < |p| - 1 {
      AncestorIsDir(fs, Parent(p), n);
      assert Parent(p)[..n] == p[..n];
    }
  }

  // ---- File operations ----------------------------------------------------------

  /** The file operations of the store that may fail. */
  datatype FileOp =
    | Mkdir | CreateTemp | CloseTemp | Rename | Chtimes
    | MetaRemove | MetaCreateTemp | MetaWrite | MetaClose | MetaRename
    | DropTemp | BodyRemove | StatBody | OpenBody | ReadMeta

  /** Some proper ancestor is a file, so the path cannot exist. */
  predicate BelowFile(fs: Tree, p: Segs) {
    exists n :: 0 <= n < |p| && IsFile(fs, p[..n])
  }

  /** A path where a file can be put: nothing in the way above it or at it. */
  predicate Fits(fs: Tree, key: Key) {
    !BelowFile(fs, key) && !IsDir(fs, key)
  }

  /** `os.MkdirAll`, as far as the first `n` elements of `dir`. */
  function WithDirs(fs: Tree, dir: Segs, n: nat): Tree
    requires n <= |dir|
  {
    map p | p in fs.Keys + (set k | 0 <= k <= n :: dir[..k]) :: if p in fs then fs[p] else Dir
  }

  /** `os.Rename` of a file onto a path that is not a directory. */
  function Renamed(fs: Tree, from: Segs, to: Segs): Tree
    requires from in fs
  {
    (fs - {from})[to := fs[from]]
  }

  predicate HasChild(fs: Tree, dir: Segs) {
    exists p :: p in fs && dir < p
  }

  // ---- Names -------------------------------------------------------------------

  lemma PrefixOfName(name: string)
    ensures HasPrefix(name + ".meta", ".cache-") ==> HasPrefix(name, ".cache-")
  {
    var full, pre := name + ".meta", ".cache-";
    if |name| == 0 {
      assert full[1] == 'm' && pre[1] == 'c';
    } else if |name| < 7 {
      assert full[|name|] == '.';
      assert pre[|name|] != '.';
    } else {
      assert full[..7] == name[..7];
    }
  }

  lemma MetaKind(name: string)
    requires Kind(name) == Plain
    ensures Kind(name + ".meta") == MetaName
  {
    PrefixOfName(name);
    assert (name + ".meta")[|name|..] == ".meta";
  }

  lemma MetaPath(key: Key)
    requires key != [] && Kind(Last(key)) == Plain
    ensures WithMeta(key) != [] && Parent(WithMeta(key)) == Parent(key) && Kind(Last(WithMeta(key))) == MetaName
    ensures |WithMeta(key)| == |key|
  {
    MetaKind(Last(key));
  }

  lemma MetaPathsDiffer(key: Key, other: Key)
    requires key != [] && other != [] && WithMeta(key) == WithMeta(other)
    ensures key == other
  {
    var a, b := Last(key), Last(other);
    assert Last(WithMeta(key)) == a + ".meta" && Last(WithMeta(other)) == b + ".meta";
    assert |a + ".meta"| == |b + ".meta"|;
    assert a == (a + ".meta")[..|a|] == (b + ".meta")[..|b|] == b;
    assert Parent(key) == Parent(WithMeta(key)) == Parent(other);
    assert key == Parent(key) + [a] && other == Parent(other) + [b];
  }

  // ---- One file changed ---------------------------------------------------------

  lemma NoChildOfFile(fs: Tree, p: Segs, q: Segs)
    requires ValidTree(fs) && IsFile(fs, p) && q in fs && q != []
    ensures Parent(q) != p
  {
    assert WellPlaced(fs, q);
  }

  /** Writing one file keeps the tree valid. */
  lemma FileSet(fs: Tree, p: Segs, node: Node)
    requires ValidTree(fs) && |p| >= 2 && IsDir(fs, Parent(p)) && !IsDir(fs, p) && node.File?
    requires (Kind(Last(p)) == Plain ==> node.content.Blob?) && (Kind(Last(p)) == MetaName ==> node.content.Metadata?)
    ensures ValidTree(fs[p := node])
  {
    hide Kind;
    var fs' := fs[p := node];
    forall q | q in fs' ensures WellPlaced(fs', q) {
      if q != p {
        assert WellPlaced(fs, q);
      }
    }
  }

  /** So does deleting a path without children. */
  lemma LeafDropped(fs: Tree, p: Segs)
    requires ValidTree(fs) && p != [] && forall q :: q in fs && q != [] ==> Parent(q) != p
    ensures ValidTree(fs - {p})
  {
    hide Kind;
    var fs' := fs - {p};
    forall q | q in fs' ensures WellPlaced(fs', q) {
      assert WellPlaced(fs, q);
    }
  }

  lemma FileDropped(fs: Tree, p: Segs)
    requires ValidTree(fs) && p != [] && !IsDir(fs, p)
    ensures ValidTree(fs - {p})
  {
    if p in fs {
      forall q | q in fs && q != [] ensures Parent(q) != p {
        NoChildOfFile(fs, p, q);
      }
      LeafDropped(fs, p);
    } else {
      assert fs - {p} == fs;
    }
  }

  /** The trees agree at every path but one. */
  ghost predicate SameBut(fs: Tree, fs': Tree, p: Segs) {
    forall q :: q != p ==> (q in fs <==> q in fs') && (q in fs ==> fs'[q] == fs[q])
  }

  /** An entry is the same in both trees when neither its body nor its metadata is that path. */
  lemma EntrySame(fs: Tree, fs': Tree, p: Segs, key: Key)
    requires SameBut(fs, fs', p) && key != [] && key != p && WithMeta(key) != p
    ensures key in Contents(fs) <==> key in Contents(fs')
    ensures key in Contents(fs) ==> Contents(fs')[key] == Contents(fs)[key]
    ensures EffectiveOf(fs', key) == EffectiveOf(fs, key)
  {
    hide Kind, WithMeta;
    assert WithMeta(key) != p;
  }

  ghost predicate AgreeAt(m: map<Key, Entry>, m': map<Key, Entry>, key: Key) {
    (key in m <==> key in m') && (key in m ==> m'[key] == m[key])
  }

  lemma OneKeyApart(m: map<Key, Entry>, m': map<Key, Entry>, key: Key)
    requires forall k :: k != key ==> AgreeAt(m, m', k)
    ensures m' == if key in m' then m[key := m'[key]] else m - {key}
  {
    var expected := if key in m' then m[key := m'[key]] else m - {key};
    forall k ensures k in m' <==> k in expected {
      assert k != key ==> AgreeAt(m, m', k);
    }
    forall k | k in m' ensures m'[k] == expected[k] {
      assert k != key ==> AgreeAt(m, m', k);
    }
  }

  /** A path that is neither a body nor metadata stores nothing. */
  lemma TempChangesNothing(fs: Tree, fs': Tree, p: Segs)
    requires SameBut(fs, fs', p) && p != [] && Kind(Last(p)) == Temporary
    ensures Contents(fs') == Contents(fs)
    ensures forall key :: key != [] && Kind(Last(key)) == Plain ==> EffectiveOf(fs', key) == EffectiveOf(fs, key)
  {
    forall key | key != [] && Kind(Last(key)) == Plain
      ensures (key in Contents(fs) <==> key in Contents(fs')) && (key in Contents(fs) ==> Contents(fs')[key] == Contents(fs)[key])
      ensures EffectiveOf(fs', key) == EffectiveOf(fs, key)
    {
      MetaPath(key);
      EntrySame(fs, fs', p, key);
    }
    hide Kind, WithMeta, EffectiveOf;
    assert forall key :: key in Contents(fs) || key in Contents(fs') ==> key != [] && Kind(Last(key)) == Plain;
  }

  lemma BodyChangeElsewhere(fs: Tree, fs': Tree, key: Key, other: Key)
    requires key != [] && SameBut(fs, fs', key) && Kind(Last(key)) == Plain && other != key
    requires other in Contents(fs) || other in Contents(fs')
    ensures AgreeAt(Contents(fs), Contents(fs'), other)
  {
    MetaPath(key);
    MetaPath(other);
    EntrySame(fs, fs', key, other);
  }

  lemma BodyChangeHere(fs: Tree, fs': Tree, key: Key)
    requires key != [] && SameBut(fs, fs', key) && Kind(Last(key)) == Plain
    ensures EffectiveOf(fs', key) == EffectiveOf(fs, key) && Temps(fs') == Temps(fs)
    ensures (key in Contents(fs') <==> Stored(fs', key)) && (key in Contents(fs') ==> Contents(fs')[key] == EntryAt(fs', key))
  {
    MetaPath(key);
    hide Kind, WithMeta;
    assert forall p :: p in Temps(fs) <==> p in Temps(fs');
  }

  /** Changing the body file of a key changes that key only. */
  lemma BodyChangesKey(fs: Tree, fs': Tree, key: Key)
    requires SameBut(fs, fs', key) && key != [] && Kind(Last(key)) == Plain
    ensures EffectiveOf(fs', key) == EffectiveOf(fs, key) && Temps(fs') == Temps(fs)
    ensures Contents(fs') == if Stored(fs', key) then Contents(fs)[key := EntryAt(fs', key)] else Contents(fs) - {key}
  {
    hide SameBut, Stored, EntryAt, EffectiveOf, Kind, WithMeta;
    MetaPath(key);
    forall other | other != key ensures AgreeAt(Contents(fs), Contents(fs'), other) {
      if other in Contents(fs) || other in Contents(fs') {
        BodyChangeElsewhere(fs, fs', key, other);
      }
    }
    OneKeyApart(Contents(fs), Contents(fs'), key);
    BodyChangeHere(fs, fs', key);
  }

  lemma MetaChangeElsewhere(fs: Tree, fs': Tree, key: Key, other: Key)
    requires key != [] && SameBut(fs, fs', WithMeta(key)) && Kind(Last(key)) == Plain && other != key
    requires other in Contents(fs) || other in Contents(fs')
    ensures AgreeAt(Contents(fs), Contents(fs'), other)
  {
    MetaPath(key);
    MetaPath(other);
    if WithMeta(other) == WithMeta(key) {
      MetaPathsDiffer(key, other);
    }
    EntrySame(fs, fs', WithMeta(key), other);
  }

  lemma MetaChangeHere(fs: Tree, fs': Tree, key: Key)
    requires key != [] && SameBut(fs, fs', WithMeta(key)) && Kind(Last(key)) == Plain
    ensures Temps(fs') == Temps(fs)
    ensures key in Contents(fs') <==> Stored(fs, key)
    ensures Stored(fs, key) ==> Contents(fs')[key] == EntryAt(fs, key).(effective := EffectiveOf(fs', key))
    ensures key in Contents(fs) <==> Stored(fs, key)
  {
    MetaPath(key);
    hide Kind, WithMeta;
    assert forall p :: p in Temps(fs) <==> p in Temps(fs');
  }

  /** Changing the metadata file of a key changes the effective path of that key only. */
  lemma MetaChangesKey(fs: Tree, fs': Tree, key: Key)
    requires key != [] && SameBut(fs, fs', WithMeta(key)) && Kind(Last(key)) == Plain
    ensures Temps(fs') == Temps(fs)
    ensures Contents(fs') == if Stored(fs, key) then Contents(fs)[key := EntryAt(fs, key).(effective := EffectiveOf(fs', key))]
                             else Contents(fs)
  {
    hide SameBut, Stored, EntryAt, EffectiveOf, Kind, WithMeta;
    MetaPath(key);
    forall other | other != key ensures AgreeAt(Contents(fs), Contents(fs'), other) {
      if other in Contents(fs) || other in Contents(fs') {
        MetaChangeElsewhere(fs, fs', key, other);
      }
    }
    OneKeyApart(Contents(fs), Contents(fs'), key);
    MetaChangeHere(fs, fs', key);
  }

  /** Writing the body file of a key. */
  lemma BodySet(fs: Tree, key: Key, node: Node)
    requires ValidTree(fs) && IsKey(key) && IsDir(fs, Parent(key)) && !IsDir(fs, key) && node.File? && node.content.Blob?
    ensures ValidTree(fs[key := node]) && Temps(fs[key := node]) == Temps(fs)
    ensures EffectiveOf(fs[key := node], key) == EffectiveOf(fs, key)
    ensures Contents(fs[key := node]) == Contents(fs)[key := Entry(node.content.bytes, node.modTime, EffectiveOf(fs, key))]
  {
    PlainLast(key);
    hide Kind, WithMeta, Temps;
    FileSet(fs, key, node);
    BodyChangesKey(fs, fs[key := node], key);
  }

  lemma TempGone(fs: Tree, p: Segs)
    requires ValidTree(fs) && IsFile(fs, p) && p != [] && Kind(Last(p)) == Temporary
    ensures ValidTree(fs - {p}) && Contents(fs - {p}) == Contents(fs) && Temps(fs - {p}) == Temps(fs) - {p}
    ensures forall key :: key != [] && Kind(Last(key)) == Plain ==> EffectiveOf(fs - {p}, key) == EffectiveOf(fs, key)
  {
    FileDropped(fs, p);
    TempChangesNothing(fs, fs - {p}, p);
  }

  /** Writing the metadata file of a stored key. */
  lemma MetaSet(fs: Tree, key: Key, node: Node)
    requires ValidTree(fs) && IsKey(key) && IsFile(fs, key) && IsDir(fs, Parent(key)) && node.File? && node.content.Metadata?
    ensures ValidTree(fs[WithMeta(key) := node]) && Temps(fs[WithMeta(key) := node]) == Temps(fs) && key in Contents(fs)
    ensures Contents(fs[WithMeta(key) := node]) == Contents(fs)[key := Contents(fs)[key].(effective := node.content.effective)]
  {
    KeyStored(fs, key);
    PlainLast(key);
    MetaPath(key);
    MetaNotDir(fs, key);
    hide Kind, WithMeta, Temps;
    FileSet(fs, WithMeta(key), node);
    MetaChangesKey(fs, fs[WithMeta(key) := node], key);
  }

  // ---- Directories ---------------------------------------------------------------

  /** Both trees have the same files. */
  ghost predicate SameFiles(fs: Tree, fs': Tree) {
    forall p :: (IsFile(fs, p) <==> IsFile(fs', p)) && (IsFile(fs, p) ==> fs'[p] == fs[p])
  }

  lemma FilesDecide(fs: Tree, fs': Tree)
    requires SameFiles(fs, fs')
    ensures Contents(fs') == Contents(fs) && Temps(fs') == Temps(fs)
    ensures forall key :: key != [] ==> EffectiveOf(fs', key) == EffectiveOf(fs, key)
  {
    hide Kind, WithMeta;
    assert forall key :: key in Contents(fs) <==> key in Contents(fs');
    assert forall p :: p in Temps(fs) <==> p in Temps(fs');
  }

  lemma DirsMade(fs: Tree, dir: Segs, n: nat)
    requires ValidTree(fs) && n <= |dir| && forall i :: 1 <= i < |dir| ==> Kind(dir[i]) == Plain
    requires forall k :: 0 <= k <= n ==> !IsFile(fs, dir[..k])
    ensures ValidTree(WithDirs(fs, dir, n)) && SameFiles(fs, WithDirs(fs, dir, n))
    ensures IsDir(WithDirs(fs, dir, n), dir[..n])
  {
    hide Kind;
    var fs' := WithDirs(fs, dir, n);
    forall p | p in fs' ensures WellPlaced(fs', p) {
      if p in fs {
        assert WellPlaced(fs, p);
      } else {
        var k :| 0 <= k <= n && p == dir[..k];
        assert p != [] ==> Parent(p) == dir[..k - 1];
      }
    }
  }

  // ---- The store -------------------------------------------------------------------

  datatype Failure = HubName | IoError

  datatype PutResult = Saved(entry: Entry) | PutFailed(failure: Failure)

  datatype GetResult = Found(entry: Entry) | NotFound | GetFailed(failure: Failure)

  datatype RemoveResult = Gone | RemoveFailed(failure: Failure)

  /** What reading the body source to its end yields. */
  datatype Source = Source(delivered: Bytes, complete: bool)

  datatype Time = Unset | At(time: int)

  /** What the environment chooses: the clock, temporary names, which operations fail, how many
      directories a failing mkdir makes, and what a failing metadata write leaves. */
  datatype Env = Env(now: int, temp: string, metaTemp: string, made: nat, partial: Bytes, broken: set<FileOp>)

  /** Temporary names are marked as such and unused. */
  ghost predicate FreshTemps(fs: Tree, key: Key, env: Env)
    requires key != []
  {
    Kind(env.temp) == Temporary && Parent(key) + [env.temp] !in fs &&
    Kind(env.metaTemp) == Temporary && Parent(key) + [env.metaTemp] !in fs
  }

  function MetaOps(effective: string): set<FileOp> {
    if effective == "" then {MetaRemove} else {MetaCreateTemp, MetaWrite, MetaClose, MetaRename}
  }

  /** A Put gets past its rename. */
  ghost predicate Places(fs: Tree, key: Key, body: Source, env: Env) {
    Fits(fs, key) && body.complete && {FileOp.Mkdir, CreateTemp, CloseTemp, Rename} !! env.broken
  }

  class FileStore {
    var fs: Tree

    constructor ()
      ensures ValidTree(fs) && Contents(fs) == map[] && Temps(fs) == {}
    {
      fs := map[[] := Dir];
    }

    /** A file is created at, or overwritten in, a temporary path. */
    method WriteTemp(p: Segs, content: Content, now: int)
      requires ValidTree(fs) && |p| >= 2 && IsDir(fs, Parent(p)) && !IsDir(fs, p) && Kind(Last(p)) == Temporary
      modifies this
      ensures ValidTree(fs) && fs == old(fs)[p := File(content, now)]
      ensures Contents(fs) == old(Contents(fs)) && Temps(fs) == old(Temps(fs)) + {p}
      ensures forall key :: key != [] && Kind(Last(key)) == Plain ==> EffectiveOf(fs, key) == old(EffectiveOf(fs, key))
    {
      FileSet(fs, p, File(content, now));
      TempChangesNothing(fs, fs[p := File(content, now)], p);
      fs := fs[p := File(content, now)];
    }

    /** Best-effort removal of a temporary file. */
    method DropTemp(p: Segs, env: Env)
      requires ValidTree(fs) && IsFile(fs, p) && p != [] && Kind(Last(p)) == Temporary
      modifies this
      ensures ValidTree(fs) && Contents(fs) == old(Contents(fs))
      ensures fs == if FileOp.DropTemp in env.broken then old(fs) else old(fs) - {p}
      ensures FileOp.DropTemp !in env.broken ==> Temps(fs) == old(Temps(fs)) - {p}
      ensures forall key :: key != [] && Kind(Last(key)) == Plain ==> EffectiveOf(fs, key) == old(EffectiveOf(fs, key))
    {
      if FileOp.DropTemp !in env.broken {
        FileDropped(fs, p);
        TempChangesNothing(fs, fs - {p}, p);
        fs := fs - {p};
      }
    }

    /** The temporary body file becomes the body file of the key. */
    method RenameBody(p: Segs, key: Key)
      requires ValidTree(fs) && IsFile(fs, p) && p != [] && Kind(Last(p)) == Temporary && fs[p].content.Blob?
      requires IsKey(key) && IsDir(fs, Parent(key)) && !IsDir(fs, key)
      modifies this
      ensures ValidTree(fs) && fs == Renamed(old(fs), p, key)
      ensures Contents(fs) == old(Contents(fs))[key := Entry(old(fs[p].content.bytes), old(fs[p].modTime), old(EffectiveOf(fs, key)))]
      ensures Temps(fs) == old(Temps(fs)) - {p} && EffectiveOf(fs, key) == old(EffectiveOf(fs, key))
    {
      PlainLast(key);
      hide Kind, WithMeta, EffectiveOf, Contents, Temps, ValidTree;
      var node := fs[p];
      TempGone(fs, p);
      fs := fs - {p};
      BodySet(fs, key, node);
      fs := fs[key := node];
    }

    /** `os.Chtimes` on a body file. */
    method SetTime(key: Key, time: int)
      requires ValidTree(fs) && IsKey(key) && IsFile(fs, key)
      modifies this
      ensures ValidTree(fs) && fs == old(fs)[key := old(fs)[key].(modTime := time)]
      ensures key in old(Contents(fs)) && Contents(fs) == old(Contents(fs))[key := old(Contents(fs))[key].(modTime := time)]
      ensures Temps(fs) == old(Temps(fs)) && EffectiveOf(fs, key) == old(EffectiveOf(fs, key))
    {
      assert WellPlaced(fs, key);
      FileSet(fs, key, fs[key].(modTime := time));
      BodyChangesKey(fs, fs[key := fs[key].(modTime := time)], key);
      fs := fs[key := fs[key].(modTime := time)];
    }

    /** Put as far as the rename: the body is in place exactly when this succeeds. */
    method PlaceBody(key: Key, body: Source, env: Env) returns (ok: bool)
      requires ValidTree(fs) && IsKey(key) && FreshTemps(fs, key, env)
      modifies this
      ensures ValidTree(fs) && (ok <==> old(Places(fs, key, body, env)))
      ensures ok <==> Fits(old(fs), key) && body.complete && {FileOp.Mkdir, CreateTemp, CloseTemp, Rename} !! env.broken
      ensures ok ==> IsFile(fs, key) && IsDir(fs, Parent(key)) && FreshTemps(fs, key, env)
      ensures Contents(fs) == if ok then old(Contents(fs))[key := Entry(body.delivered, env.now, old(EffectiveOf(fs, key)))]
                              else old(Contents(fs))
      ensures ok ==> EffectiveOf(fs, key) == old(EffectiveOf(fs, key))
      ensures ok || FileOp.DropTemp !in env.broken ==> Temps(fs) == old(Temps(fs))
    {
      hide Contents, EffectiveOf, Temps, ValidTree, WithMeta, Kind, BelowFile;
      ok := MakeParent(key, env);
      if !ok || FileOp.CreateTemp in env.broken {
        ok := false;
        return;
      }
      var temp := Parent(key) + [env.temp];
      assert Parent(temp) == Parent(key);
      UnusedIsNoTemp(fs, temp);
      WriteTemp(temp, Blob(body.delivered), env.now);
      if !body.complete || FileOp.CloseTemp in env.broken || IsDir(fs, key) || FileOp.Rename in env.broken {
        DropTemp(temp, env);
        ok := false;
        return;
      }
      RenameBody(temp, key);
    }

    /** `os.MkdirAll` of the directory of a key. */
    method MakeParent(key: Key, env: Env) returns (ok: bool)
      requires ValidTree(fs) && IsKey(key)
      modifies this
      ensures ValidTree(fs) && (ok <==> !BelowFile(old(fs), key) && Mkdir !in env.broken)
      ensures Contents(fs) == old(Contents(fs)) && Temps(fs) == old(Temps(fs))
      ensures EffectiveOf(fs, key) == old(EffectiveOf(fs, key))
      ensures forall p :: |p| >= |key| ==> (p in fs <==> p in old(fs)) && (p in fs ==> fs[p] == old(fs)[p])
      ensures ok ==> IsDir(fs, Parent(key))
    {
      if BelowFile(fs, key) {
        return false;
      }
      var dir := Parent(key);
      var n := if Mkdir !in env.broken || env.made > |dir| then |dir| else env.made;
      forall k | 0 <= k <= n ensures !IsFile(fs, dir[..k]) {
        assert dir[..k] == key[..k];
      }
      DirsMade(fs, dir, n);
      FilesDecide(fs, WithDirs(fs, dir, n));
      fs := WithDirs(fs, dir, n);
      assert dir[..|dir|] == dir;
      ok := Mkdir !in env.broken;
    }

    /** The sidecar file of an entry: written through a temporary file, or removed for an
        empty effective path. On failure the old metadata stays. */
    method WriteMetadata(key: Key, effective: string, env: Env) returns (ok: bool)
      requires ValidTree(fs) && IsKey(key) && IsFile(fs, key) && IsDir(fs, Parent(key)) && FreshTemps(fs, key, env)
      modifies this
      ensures ValidTree(fs) && (ok <==> MetaOps(effective) !! env.broken)
      ensures key in old(Contents(fs))
      ensures Contents(fs) == if ok then old(Contents(fs))[key := old(Contents(fs))[key].(effective := effective)] else old(Contents(fs))
      ensures ok || FileOp.DropTemp !in env.broken ==> Temps(fs) == old(Temps(fs))
    {
      assert WellPlaced(fs, key);
      if effective == "" {
        if MetaRemove in env.broken {
          return false;
        }
        RemoveMetadata(key);
        return true;
      }
      if MetaCreateTemp in env.broken {
        return false;
      }
      var temp := Parent(key) + [env.metaTemp];
      assert Parent(temp) == Parent(key);
      WriteTemp(temp, if MetaWrite in env.broken then Blob(env.partial) else Content.Metadata(effective), env.now);
      if MetaWrite in env.broken || MetaClose in env.broken || MetaRename in env.broken {
        DropTemp(temp, env);
        return false;
      }
      RenameMetadata(temp, key);
      ok := true;
    }

    method RenameMetadata(p: Segs, key: Key)
      requires ValidTree(fs) && IsFile(fs, p) && p != [] && Kind(Last(p)) == Temporary && fs[p].content.Metadata?
      requires IsKey(key) && IsFile(fs, key) && IsDir(fs, Parent(key)) && p != key
      modifies this
      ensures ValidTree(fs) && key in old(Contents(fs))
      ensures Contents(fs) == old(Contents(fs))[key := old(Contents(fs))[key].(effective := old(fs)[p].content.effective)]
      ensures Temps(fs) == old(Temps(fs)) - {p}
    {
      hide Kind, WithMeta, EffectiveOf, Contents, Temps, ValidTree;
      var node := fs[p];
      KeyStored(fs, key);
      TempGone(fs, p);
      fs := fs - {p};
      MetaSet(fs, key, node);
      fs := fs[WithMeta(key) := node];
    }

    /** `os.Remove` of the metadata file, a missing one being no error. */
    method RemoveMetadata(key: Key)
      requires ValidTree(fs) && IsKey(key)
      modifies this
      ensures ValidTree(fs) && Temps(fs) == old(Temps(fs)) && fs == old(fs) - {WithMeta(key)}
      ensures Contents(fs) == if key in old(Contents(fs)) then old(Contents(fs))[key := old(Contents(fs))[key].(effective := "")]
                              else old(Contents(fs))
    {
      MetaPath(key);
      MetaNotDir(fs, key);
      FileDropped(fs, WithMeta(key));
      MetaChangesKey(fs, fs - {WithMeta(key)}, key);
      fs := fs - {WithMeta(key)};
    }

    /** Put after the rename: the time, then the metadata. */
    method FinishPut(key: Key, time: int, effective: string, env: Env) returns (ok: bool)
      requires ValidTree(fs) && IsKey(key) && IsFile(fs, key) && IsDir(fs, Parent(key)) && FreshTemps(fs, key, env)
      modifies this
      ensures ValidTree(fs) && (ok <==> Chtimes !in env.broken && MetaOps(effective) !! env.broken)
      ensures key in old(Contents(fs))
      ensures var was := old(Contents(fs))[key];
              Contents(fs) == old(Contents(fs))[key := if ok then Entry(was.body, time, effective)
                                                       else if Chtimes in env.broken then was else was.(modTime := time)]
      ensures ok || FileOp.DropTemp !in env.broken ==> Temps(fs) == old(Temps(fs))
    {
      hide Contents, Temps, EffectiveOf, Kind, MetaOps, WithMeta, ValidTree, IsKey;
      KeyStored(fs, key);
      if Chtimes in env.broken {
        return false;
      }
      SetTime(key, time);
      ok := WriteMetadata(key, effective, env);
    }

    /** Stores an entry. Nothing but its own key ever changes: a failure up to and including the
        rename leaves the map as it was; a later one leaves the new body with the old metadata. */
    method Put(loc: Locator, body: Source, modTime: Time, effective: string, env: Env) returns (r: PutResult)
      requires ValidTree(fs) && (loc.hub != "" ==> IsKey(KeyOf(loc)) && FreshTemps(fs, KeyOf(loc), env))
      modifies this
      ensures ValidTree(fs)
      ensures r == if loc.hub == "" then PutFailed(HubName)
                   else if old(Places(fs, KeyOf(loc), body, env)) && Chtimes !in env.broken && MetaOps(effective) !! env.broken
                   then Saved(Entry(body.delivered, TimeOf(modTime, env.now), effective))
                   else PutFailed(IoError)
      ensures loc.hub == "" || !old(Places(fs, KeyOf(loc), body, env)) ==> Contents(fs) == old(Contents(fs))
      ensures loc.hub != "" && old(Places(fs, KeyOf(loc), body, env)) ==>
                Contents(fs) == old(Contents(fs))[KeyOf(loc) := PlacedEntry(r, body, modTime, old(EffectiveOf(fs, KeyOf(loc))), env)]
      ensures r.Saved? || FileOp.DropTemp !in env.broken ==> Temps(fs) == old(Temps(fs))
    {
      hide KeyOf, Places, IsKey, Contents, EffectiveOf, Temps, ValidTree, MetaOps, FreshTemps;
      if loc.hub == "" {
        return PutFailed(HubName);
      }
      var key := KeyOf(loc);
      var ok := PlaceBody(key, body, env);
      if !ok {
        return PutFailed(IoError);
      }
      ok := FinishPut(key, TimeOf(modTime, env.now), effective, env);
      r := if ok then Saved(Entry(body.delivered, TimeOf(modTime, env.now), effective)) else PutFailed(IoError);
    }

    method Get(loc: Locator, env: Env) returns (r: GetResult)
      requires ValidTree(fs) && (loc.hub != "" ==> IsKey(KeyOf(loc)))
      ensures r == if loc.hub == "" then GetFailed(HubName)
                   else if StatBody in env.broken then GetFailed(IoError)
                   else if KeyOf(loc) !in Contents(fs) then NotFound
                   else if {OpenBody, ReadMeta} !! env.broken then Found(Contents(fs)[KeyOf(loc)])
                   else GetFailed(IoError)
    {
      if loc.hub == "" {
        return GetFailed(HubName);
      }
      var key := KeyOf(loc);
      if StatBody in env.broken {
        return GetFailed(IoError);
      }
      if !IsFile(fs, key) {
        return NotFound;
      }
      assert WellPlaced(fs, key);
      if OpenBody in env.broken || ReadMeta in env.broken {
        return GetFailed(IoError);
      }
      r := Found(EntryAt(fs, key));
    }

    method Remove(loc: Locator, env: Env) returns (r: RemoveResult)
      requires ValidTree(fs) && (loc.hub != "" ==> IsKey(KeyOf(loc)))
      modifies this
      ensures ValidTree(fs) && Temps(fs) == old(Temps(fs))
      ensures r.Gone? ==> fs == old(fs) - {KeyOf(loc), WithMeta(KeyOf(loc))}
      ensures r.Gone? <==> loc.hub != "" && Removable(old(fs), KeyOf(loc)) && {BodyRemove, MetaRemove} !! env.broken
      ensures Contents(fs) == if loc.hub != "" && Removable(old(fs), KeyOf(loc)) && BodyRemove !in env.broken
                              then old(Contents(fs)) - {KeyOf(loc)} else old(Contents(fs))
    {
      if loc.hub == "" {
        return RemoveFailed(HubName);
      }
      var key := KeyOf(loc);
      if !Removable(fs, key) || BodyRemove in env.broken {
        return RemoveFailed(IoError);
      }
      PathDropped(fs, key);
      BodyChangesKey(fs, fs - {key}, key);
      fs := fs - {key};
      if MetaRemove in env.broken {
        return RemoveFailed(IoError);
      }
      RemoveMetadata(key);
      r := Gone;
    }
  }

  lemma UnusedIsNoTemp(fs: Tree, p: Segs)
    requires p !in fs
    ensures p !in Temps(fs)
  {
  }

  function TimeOf(t: Time, now: int): int {
    if t.Unset? then now else t.time
  }

  /** What is stored for a key once its body file is in place. */
  function PlacedEntry(r: PutResult, body: Source, modTime: Time, oldEffective: string, env: Env): Entry {
    if r.Saved? then r.entry
    else Entry(body.delivered, if Chtimes in env.broken then env.now else TimeOf(modTime, env.now), oldEffective)
  }

  /** `os.Remove` succeeds here: a file, an empty directory, or nothing at all. */
  predicate Removable(fs: Tree, key: Key) {
    !BelowFile(fs, key) && (IsDir(fs, key) ==> !HasChild(fs, key))
  }

  lemma PlainLast(key: Key)
    requires IsKey(key)
    ensures Kind(Last(key)) == Plain
  {
  }

  lemma KeyStored(fs: Tree, key: Key)
    requires ValidTree(fs) && IsKey(key) && IsFile(fs, key)
    ensures key in Contents(fs)
  {
    assert WellPlaced(fs, key);
  }

  lemma MetaNotDir(fs: Tree, key: Key)
    requires ValidTree(fs) && IsKey(key)
    ensures !IsDir(fs, WithMeta(key))
  {
    MetaPath(key);
    assert WithMeta(key) in fs ==> WellPlaced(fs, WithMeta(key));
  }

  lemma PathDropped(fs: Tree, key: Key)
    requires ValidTree(fs) && key != [] && Removable(fs, key)
    ensures ValidTree(fs - {key})
  {
    if IsDir(fs, key) {
      forall q | q in fs && q != [] ensures Parent(q) != key {
        assert q == Parent(q) + [Last(q)];
        assert Parent(q) == key ==> key < q;
      }
      LeafDropped(fs, key);
    } else {
      FileDropped(fs, key);
    }
  }

  /** Remove leaves directories behind: after the removal of an entry, nothing can be stored at a path above
      it, although no entry is in the way, until that directory itself is removed. */
  lemma RemovedEntryStillBlocks(fs: Tree, above: Key, below: Key)
    requires ValidTree(fs) && below in Contents(fs) && above < below && IsKey(above)
    ensures !Fits(fs - {below, WithMeta(below)}, above)
  {
    assert below[..|above|] == above;
    AncestorIsDir(fs, below, |above|);
    MetaPath(below);
    assert |WithMeta(below)| == |below|;
  }

  /** A directory can be removed exactly when nothing at all is left below it, and only that makes room for an
      entry at its path. */
  lemma EmptyDirectoryFrees(fs: Tree, dir: Key)
    requires ValidTree(fs) && IsKey(dir) && IsDir(fs, dir)
    ensures !Fits(fs, dir)
    ensures Removable(fs, dir) <==> !HasChild(fs, dir)
    ensures Fits(fs - {dir, WithMeta(dir)}, dir)
  {
    forall n | 0 <= n < |dir| ensures !IsFile(fs, dir[..n]) {
      AncestorIsDir(fs, dir, n);
    }
  }

  lemma RemovedTree(fs: Tree, below: Key)
    requires ValidTree(fs) && below in Contents(fs)
    ensures ValidTree(fs - {below, WithMeta(below)})
  {
    MetaPath(below);
    assert WithMeta(below) in fs ==> WellPlaced(fs, WithMeta(below));
    FileDropped(fs, below);
    FileDropped(fs - {below}, WithMeta(below));
    assert fs - {below} - {WithMeta(below)} == fs - {below, WithMeta(below)};
  }

  lemma ChildrenLeft(fs: Tree, gone: set<Segs>, dir: Segs)
    ensures HasChild(fs - gone, dir) <==> exists p :: p in fs && dir < p && p !in gone
  {
    if p :| p in fs && dir < p && p !in gone {
      assert p in fs - gone;
    }
  }

  /** So removing at `above` after the removal of `below` frees the path exactly when `below` and its metadata
      were all that lay below `above`. */
  lemma RemovedEntryFreesExactly(fs: Tree, above: Key, below: Key)
    requires ValidTree(fs) && below in Contents(fs) && above < below && IsKey(above)
    ensures var t := fs - {below, WithMeta(below)};
            IsDir(t, above) && Fits(t - {above, WithMeta(above)}, above) &&
            (Removable(t, above) <==> forall p :: p in fs && above < p ==> p == below || p == WithMeta(below))
  {
    var t := fs - {below, WithMeta(below)};
    assert below[..|above|] == above;
    AncestorIsDir(fs, below, |above|);
    MetaPath(below);
    RemovedTree(fs, below);
    hide ValidTree, Contents, WithMeta, Fits, Removable, HasChild, IsKey;
    EmptyDirectoryFrees(t, above);
    ChildrenLeft(fs, {below, WithMeta(below)}, above);
  }

  /** While an entry is stored, nothing fits at a path above or below it. */
  lemma StoredBlocksNested(fs: Tree, stored: Key, other: Key)
    requires ValidTree(fs) && stored in Contents(fs) && (stored < other || other < stored)
    ensures !Fits(fs, other)
  {
    if stored < other {
      assert other[..|stored|] == stored;
    } else {
      assert stored[..|other|] == other;
      AncestorIsDir(fs, stored, |other|);
    }
  }
}
