/** The disk store under concurrency, at the granularity of single file operations: any
    number of threads inside Put and Remove, serialised per key by the lock table, and
    any number of lock-free Gets, over a directory of inodes. Every file operation may fail.

    Bodies and metadata of one key live in two directory slots; temporary files are inodes
    without a slot. `origin`, `finished` and `torn` are history: which Put wrote an inode,
    whose copy is complete, and which keys saw a failure after their body was renamed. */
module StoreProtocol {
  import L = LockTable

  type Tid = L.Tid
  type Key = L.Key
  type Ino = nat
  type Gid = nat
  type Bytes = seq<bv8>

  datatype Input = Input(body: Bytes, modTime: int, effective: string)

  datatype Inode = Inode(body: Bytes, modTime: int)

  datatype Origin = Origin(key: Key, input: Input)

  /** How far a Put or Remove has come inside its critical section. */
  datatype Stage =
    | Begin
    | Copying(ino: Ino)  // temporary file open, body being copied
    | Closed(ino: Ino)   // copy finished, temporary file closed
    | Renamed            // body file in place
    | Timed              // modification time set
    | MetaReady          // metadata temporary file written
    | Stored
    | BodyGone           // Remove: body file deleted
    | Removed
    | GaveUp

  datatype Op = Put(input: Input, stage: Stage) | Remove(stage: Stage)

  /** A Get between its three unlocked steps. */
  datatype Read =
    | Statted(key: Key, size: nat, modTime: int)
    | Opened(key: Key, size: nat, modTime: int, ino: Ino)
    | Served(key: Key, size: nat, modTime: int, ino: Ino, effective: string)
    | Missed(key: Key)

  datatype State = State(
    lk: L.State,
    ops: map<Tid, Op>,
    files: map<Key, Ino>,
    metas: map<Key, string>,
    inodes: map<Ino, Inode>,
    gets: map<Gid, Read>,
    origin: map<Ino, Origin>,
    finished: set<Ino>,
    torn: set<Key>)

  const INIT := State(L.INIT, map[], map[], map[], map[], map[], map[], {}, {})

  datatype Step =
    | Start(tid: Tid, key: Key, unused: L.LockId, op: Op)
    | Grab(tid: Tid)
    | Unlock(tid: Tid)
    | Leave(tid: Tid)
    | MakeTemp(tid: Tid, ino: Ino, now: int)
    | Write(tid: Tid, upTo: nat)
    | CloseTemp(tid: Tid)
    | Rename(tid: Tid)
    | SetTime(tid: Tid)
    | DropMeta(tid: Tid)
    | WriteMeta(tid: Tid)
    | RenameMeta(tid: Tid)
    | RemoveBody(tid: Tid)
    | RemoveMeta(tid: Tid)
    | Fail(tid: Tid)
    | Stat(gid: Gid, key: Key)
    | Open(gid: Gid)
    | ReadMeta(gid: Gid)

  predicate Final(stage: Stage) {
    stage.Stored? || stage.Removed? || stage.GaveUp?
  }

  /** Body in place, entry not complete yet. */
  predicate Midway(stage: Stage) {
    stage.Renamed? || stage.Timed? || stage.MetaReady?
  }

  predicate Holding(s: State, t: Tid) {
    t in s.ops && t in s.lk.threads && s.lk.threads[t].Holding?
  }

  function KeyOf(s: State, t: Tid): Key
    requires t in s.lk.threads
  {
    s.lk.threads[t].key
  }

  /** The thread is inside its Put, at a stage of the given kind. */
  predicate Putting(s: State, t: Tid) {
    Holding(s, t) && s.ops[t].Put?
  }

  predicate Removing(s: State, t: Tid) {
    Holding(s, t) && s.ops[t].Remove?
  }

  predicate Enabled(s: State, step: Step) {
    match step
    case Start(t, key, unused, op) => t !in s.ops && op.stage.Begin? && L.Enabled(s.lk, L.Enter(t, key, unused))
    case Grab(t) => t in s.ops && L.Enabled(s.lk, L.Grab(t))
    case Unlock(t) => t in s.ops && Final(s.ops[t].stage) && L.Enabled(s.lk, L.Unlock(t))
    case Leave(t) => t in s.ops && L.Enabled(s.lk, L.Leave(t))
    case MakeTemp(t, ino, _) => Putting(s, t) && s.ops[t].stage.Begin? && ino !in s.inodes
    case Write(t, n) => Putting(s, t) && s.ops[t].stage.Copying? && s.ops[t].stage.ino in s.inodes &&
                        |s.inodes[s.ops[t].stage.ino].body| <= n <= |s.ops[t].input.body|
    case CloseTemp(t) => Putting(s, t) && s.ops[t].stage.Copying? && s.ops[t].stage.ino in s.inodes &&
                         s.inodes[s.ops[t].stage.ino].body == s.ops[t].input.body
    case Rename(t) => Putting(s, t) && s.ops[t].stage.Closed?
    case SetTime(t) => Putting(s, t) && s.ops[t].stage.Renamed? && KeyOf(s, t) in s.files && s.files[KeyOf(s, t)] in s.inodes
    case DropMeta(t) => Putting(s, t) && s.ops[t].stage.Timed? && s.ops[t].input.effective == ""
    case WriteMeta(t) => Putting(s, t) && s.ops[t].stage.Timed? && s.ops[t].input.effective != ""
    case RenameMeta(t) => Putting(s, t) && s.ops[t].stage.MetaReady?
    case RemoveBody(t) => Removing(s, t) && s.ops[t].stage.Begin?
    case RemoveMeta(t) => Removing(s, t) && s.ops[t].stage.BodyGone?
    case Fail(t) => Holding(s, t) && !Final(s.ops[t].stage)
    case Stat(g, key) => g !in s.gets
    case Open(g) => g in s.gets && s.gets[g].Statted?
    case ReadMeta(g) => g in s.gets && s.gets[g].Opened?
  }

  function AtStage(s: State, t: Tid, stage: Stage): map<Tid, Op>
    requires t in s.ops
  {
    s.ops[t := s.ops[t].(stage := stage)]
  }

  function MetaOf(s: State, key: Key): string {
    if key in s.metas then s.metas[key] else ""
  }

  function Apply(s: State, step: Step): State
    requires Enabled(s, step)
  {
    match step
    case Start(t, key, unused, op) => s.(lk := L.Apply(s.lk, L.Enter(t, key, unused)), ops := s.ops[t := op])
    case Grab(t) => s.(lk := L.Apply(s.lk, L.Grab(t)))
    case Unlock(t) => s.(lk := L.Apply(s.lk, L.Unlock(t)))
    case Leave(t) => s.(lk := L.Apply(s.lk, L.Leave(t)), ops := s.ops - {t})
    case MakeTemp(t, ino, now) =>
      s.(ops := AtStage(s, t, Copying(ino)), inodes := s.inodes[ino := Inode([], now)],
         origin := s.origin[ino := Origin(KeyOf(s, t), s.ops[t].input)])
    case Write(t, n) =>
      var ino := s.ops[t].stage.ino;
      s.(inodes := s.inodes[ino := s.inodes[ino].(body := s.ops[t].input.body[..n])])
    case CloseTemp(t) =>
      s.(ops := AtStage(s, t, Closed(s.ops[t].stage.ino)), finished := s.finished + {s.ops[t].stage.ino})
    case Rename(t) =>
      s.(ops := AtStage(s, t, Renamed), files := s.files[KeyOf(s, t) := s.ops[t].stage.ino])
    case SetTime(t) =>
      var ino := s.files[KeyOf(s, t)];
      s.(ops := AtStage(s, t, Timed), inodes := s.inodes[ino := s.inodes[ino].(modTime := s.ops[t].input.modTime)])
    case DropMeta(t) =>
      s.(ops := AtStage(s, t, Stored), metas := s.metas - {KeyOf(s, t)}, torn := s.torn - {KeyOf(s, t)})
    case WriteMeta(t) =>
      s.(ops := AtStage(s, t, MetaReady))
    case RenameMeta(t) =>
      s.(ops := AtStage(s, t, Stored), metas := s.metas[KeyOf(s, t) := s.ops[t].input.effective], torn := s.torn - {KeyOf(s, t)})
    case RemoveBody(t) =>
      s.(ops := AtStage(s, t, BodyGone), files := s.files - {KeyOf(s, t)}, torn := s.torn - {KeyOf(s, t)})
    case RemoveMeta(t) =>
      s.(ops := AtStage(s, t, Removed), metas := s.metas - {KeyOf(s, t)})
    case Fail(t) =>
      s.(ops := AtStage(s, t, GaveUp), torn := if Midway(s.ops[t].stage) then s.torn + {KeyOf(s, t)} else s.torn)
    case Stat(g, key) =>
      s.(gets := s.gets[g := if key in s.files && s.files[key] in s.inodes
                               then Statted(key, |s.inodes[s.files[key]].body|, s.inodes[s.files[key]].modTime)
                               else Missed(key)])
    case Open(g) =>
      var r := s.gets[g];
      s.(gets := s.gets[g := if r.key in s.files then Opened(r.key, r.size, r.modTime, s.files[r.key]) else Missed(r.key)])
    case ReadMeta(g) =>
      var r := s.gets[g];
      s.(gets := s.gets[g := Served(r.key, r.size, r.modTime, r.ino, MetaOf(s, r.key))])
  }

  // ---- The invariant --------------------------------------------------------

  /** The inode was written by the Put of this thread. */
  ghost predicate Mine(s: State, t: Tid, ino: Ino)
    requires t in s.ops && t in s.lk.threads
  {
    s.ops[t].Put? && ino in s.origin && s.origin[ino] == Origin(KeyOf(s, t), s.ops[t].input)
  }

  /** What holds of a thread at its stage. */
  ghost predicate OpInv(s: State, t: Tid)
    requires t in s.ops && t in s.lk.threads
  {
    var p, stage := s.lk.threads[t], s.ops[t].stage;
    (p.Waiting? ==> stage.Begin?) && (p.Leaving? ==> Final(stage)) &&
    match stage
    case Copying(ino) => Mine(s, t, ino) && ino in s.inodes && ino !in s.finished && s.inodes[ino].body <= s.ops[t].input.body
    case Closed(ino) => Mine(s, t, ino) && ino in s.finished
    case Renamed => p.key in s.files && Mine(s, t, s.files[p.key])
    case Timed => p.key in s.files && Mine(s, t, s.files[p.key]) && TimeIs(s, p.key)
    case MetaReady => p.key in s.files && Mine(s, t, s.files[p.key]) && TimeIs(s, p.key)
    case Stored => p.Holding? ==> p.key in s.files && Mine(s, t, s.files[p.key]) && Settled(s, p.key)
    case BodyGone => s.ops[t].Remove? && p.key !in s.files
    case Removed => s.ops[t].Remove? && (p.Holding? ==> p.key !in s.files && p.key !in s.metas)
    case _ => true
  }

  ghost predicate TimeIs(s: State, key: Key)
    requires key in s.files
  {
    s.files[key] in s.inodes && s.files[key] in s.origin &&
    s.inodes[s.files[key]].modTime == s.origin[s.files[key]].input.modTime
  }

  /** No Put of this key is between its rename and its end. */
  ghost predicate Quiet(s: State, key: Key) {
    forall t :: t in s.ops && t in s.lk.threads && KeyOf(s, t) == key ==> !Midway(s.ops[t].stage)
  }

  /** Body, time and metadata of a key are those of the Put that wrote the body. */
  ghost predicate Settled(s: State, key: Key)
    requires key in s.files
  {
    TimeIs(s, key) && MetaOf(s, key) == s.origin[s.files[key]].input.effective
  }

  ghost predicate KeyInv(s: State, key: Key) {
    key in s.files ==>
      s.files[key] in s.finished && s.files[key] in s.origin && s.origin[s.files[key]].key == key &&
      (Quiet(s, key) && key !in s.torn ==> Settled(s, key))
  }

  /** A finished inode holds the whole body of the Put that made it. */
  ghost predicate Whole(s: State, ino: Ino) {
    ino in s.inodes && ino in s.origin && s.inodes[ino].body == s.origin[ino].input.body
  }

  ghost predicate InodeInv(s: State) {
    s.inodes.Keys == s.origin.Keys && forall ino :: ino in s.finished ==> Whole(s, ino)
  }

  ghost predicate ReadInv(s: State) {
    forall g :: g in s.gets && (s.gets[g].Opened? || s.gets[g].Served?) ==>
      s.gets[g].ino in s.finished && s.gets[g].ino in s.origin && s.origin[s.gets[g].ino].key == s.gets[g].key
  }

  ghost predicate OpsInv(s: State) {
    s.ops.Keys == s.lk.threads.Keys && forall t :: t in s.ops ==> OpInv(s, t)
  }

  ghost predicate Inv(s: State) {
    L.Inv(s.lk) && OpsInv(s) && (forall key :: KeyInv(s, key)) && InodeInv(s) && ReadInv(s)
  }

  // ---- Steps of a thread that holds its key -----------------------------------

  /** What a step of thread `t` may change: its own stage, its key's slots, and inodes
      that its own Puts made. */
  ghost predicate Touches(s: State, s': State, t: Tid)
    requires t in s.lk.threads
  {
    var key := KeyOf(s, t);
    s'.lk == s.lk && s'.gets == s.gets && t in s'.ops && s'.ops.Keys == s.ops.Keys && s'.ops - {t} == s.ops - {t} &&
    s'.files - {key} == s.files - {key} && s'.metas - {key} == s.metas - {key} && s'.torn - {key} == s.torn - {key} &&
    s.finished <= s'.finished &&
    (forall ino :: ino in s.origin ==> ino in s'.origin && s'.origin[ino] == s.origin[ino]) &&
    (forall ino :: ino in s.origin && ino in s.inodes && s.origin[ino].key != key ==>
       ino in s'.inodes && s'.inodes[ino] == s.inodes[ino] && (ino in s'.finished ==> ino in s.finished))
  }

  lemma OneHolder(s: State, t: Tid, u: Tid)
    ensures L.Inv(s.lk) && Holding(s, t) && Holding(s, u) && t != u ==> KeyOf(s, t) != KeyOf(s, u)
  {
  }

  /** Another key's slots look the same before and after. */
  lemma OtherSlot(s: State, s': State, t: Tid, key: Key)
    requires t in s.lk.threads && Touches(s, s', t) && key != KeyOf(s, t)
    ensures (key in s'.files <==> key in s.files) && (key in s.files ==> s'.files[key] == s.files[key])
    ensures MetaOf(s', key) == MetaOf(s, key) && (key in s'.metas <==> key in s.metas) && (key in s'.torn <==> key in s.torn)
  {
    var k := KeyOf(s, t);
    assert key in s.files <==> key in s.files - {k};
    assert key in s'.files <==> key in s'.files - {k};
    assert key in s.files ==> (s.files - {k})[key] == s.files[key];
    assert key in s'.files ==> (s'.files - {k})[key] == s'.files[key];
    assert key in s.metas <==> key in s.metas - {k};
    assert key in s'.metas <==> key in s'.metas - {k};
    assert key in s.metas ==> (s.metas - {k})[key] == s.metas[key];
    assert key in s'.metas ==> (s'.metas - {k})[key] == s'.metas[key];
    assert key in s.torn <==> key in s.torn - {k};
    assert key in s'.torn <==> key in s'.torn - {k};
  }

  lemma OtherOp(s: State, s': State, t: Tid, u: Tid)
    requires t in s.lk.threads && Touches(s, s', t) && u in s.ops && u != t
    ensures u in s'.ops && s'.ops[u] == s.ops[u]
  {
    assert u in s.ops - {t} && (s'.ops - {t})[u] == s'.ops[u];
  }

  lemma OtherInode(s: State, s': State, t: Tid, ino: Ino)
    requires t in s.lk.threads && Touches(s, s', t) && ino in s.origin && s.origin[ino].key != KeyOf(s, t)
    ensures ino in s'.origin && s'.origin[ino] == s.origin[ino] && (ino in s.finished ==> ino in s'.finished)
    ensures ino in s.inodes ==> ino in s'.inodes && s'.inodes[ino] == s.inodes[ino] && (ino in s'.finished ==> ino in s.finished)
  {
  }

  lemma OtherOpKept(s: State, s': State, t: Tid, u: Tid)
    requires L.Inv(s.lk) && OpsInv(s) && Holding(s, t) && Touches(s, s', t) && u in s.ops && u != t
    ensures u in s'.ops && u in s'.lk.threads && OpInv(s', u)
  {
    hide L.Inv;
    OtherOp(s, s', t, u);
    assert OpInv(s, u);
    if Holding(s, u) {
      OneHolder(s, t, u);
      OtherSlot(s, s', t, KeyOf(s, u));
      HoldingOpKept(s, s', t, u);
    }
  }

  /** The inode that an operation works on, if it has one. */
  function WorksOn(s: State, t: Tid): set<Ino>
    requires t in s.ops && t in s.lk.threads
  {
    match s.ops[t].stage
    case Copying(ino) => {ino}
    case Closed(ino) => {ino}
    case _ => if KeyOf(s, t) in s.files then {s.files[KeyOf(s, t)]} else {}
  }

  lemma HoldingOpKept(s: State, s': State, t: Tid, u: Tid)
    requires Holding(s, t) && Touches(s, s', t) && Holding(s, u) && OpInv(s, u) && KeyOf(s, t) != KeyOf(s, u)
    requires u in s'.ops && s'.ops[u] == s.ops[u] && u in s'.lk.threads
    requires KeyOf(s, u) in s'.files <==> KeyOf(s, u) in s.files
    requires KeyOf(s, u) in s.files ==> s'.files[KeyOf(s, u)] == s.files[KeyOf(s, u)]
    requires MetaOf(s', KeyOf(s, u)) == MetaOf(s, KeyOf(s, u)) && (KeyOf(s, u) in s'.metas <==> KeyOf(s, u) in s.metas)
    ensures OpInv(s', u)
  {
    assert s'.lk == s.lk;
    forall ino | ino in WorksOn(s, u) && ino in s.origin && s.origin[ino].key == KeyOf(s, u)
      ensures ino in s'.origin && s'.origin[ino] == s.origin[ino] && (ino in s.finished ==> ino in s'.finished)
      ensures ino in s.inodes ==> ino in s'.inodes && s'.inodes[ino] == s.inodes[ino] && (ino in s'.finished ==> ino in s.finished)
    {
      OtherInode(s, s', t, ino);
    }
    hide Touches;
  }

  lemma OtherQuiet(s: State, s': State, t: Tid, key: Key)
    requires OpsInv(s) && Holding(s, t) && Touches(s, s', t) && key != KeyOf(s, t)
    ensures Quiet(s', key) ==> Quiet(s, key)
  {
    forall u | u in s.ops && u != t ensures u in s'.ops && s'.ops[u] == s.ops[u] {
      OtherOp(s, s', t, u);
    }
    hide L.Inv;
  }

  lemma OtherKeyKept(s: State, s': State, t: Tid, key: Key)
    requires OpsInv(s) && Holding(s, t) && Touches(s, s', t) && key != KeyOf(s, t) && KeyInv(s, key) && InodeInv(s)
    ensures KeyInv(s', key)
  {
    OtherQuiet(s, s', t, key);
    OtherSlot(s, s', t, key);
    if key in s.files {
      OtherInode(s, s', t, s.files[key]);
    }
    hide Touches, Quiet;
  }

  lemma NobodyElseMidway(s: State, t: Tid, u: Tid)
    requires L.Inv(s.lk) && OpsInv(s) && Holding(s, t) && u in s.ops && u != t && KeyOf(s, u) == KeyOf(s, t)
    ensures !Midway(s.ops[u].stage)
  {
    assert OpInv(s, u);
    if Holding(s, u) {
      OneHolder(s, t, u);
    }
  }

  /** Nobody else is midway on the key of a thread inside its critical section. */
  lemma QuietOfHolder(s: State, t: Tid)
    requires L.Inv(s.lk) && OpsInv(s) && Holding(s, t)
    ensures Quiet(s, KeyOf(s, t)) <==> !Midway(s.ops[t].stage)
  {
    hide L.Inv, OpInv, Midway;
    forall u | u in s.ops && u in s.lk.threads && KeyOf(s, u) == KeyOf(s, t) && u != t
      ensures !Midway(s.ops[u].stage)
    {
      NobodyElseMidway(s, t, u);
    }
  }

  /** What a step must establish about its own thread and key. */
  ghost predicate Own(s: State, t: Tid) {
    Holding(s, t) && OpInv(s, t) && KeyInv(s, KeyOf(s, t)) && InodeInv(s)
  }

  lemma ReadsKept(s: State, s': State, t: Tid)
    requires Inv(s) && Holding(s, t) && Touches(s, s', t)
    ensures ReadInv(s')
  {
    hide L.Inv, OpsInv, KeyInv;
  }

  lemma DiskStepKeeps(s: State, s': State, t: Tid)
    requires Inv(s) && Holding(s, t) && Touches(s, s', t) && Own(s', t)
    ensures Inv(s')
  {
    ReadsKept(s, s', t);
    forall u | u in s'.ops ensures u in s'.lk.threads && OpInv(s', u) {
      if u != t {
        OtherOpKept(s, s', t, u);
      }
    }
    forall key ensures KeyInv(s', key) {
      if key != KeyOf(s, t) {
        OtherKeyKept(s, s', t, key);
      }
    }
    hide KeyInv, OpInv, InodeInv, ReadInv, L.Inv;
  }

  lemma OwnBefore(s: State, t: Tid)
    requires Inv(s) && Holding(s, t)
    ensures Own(s, t) && (Quiet(s, KeyOf(s, t)) <==> !Midway(s.ops[t].stage))
  {
    QuietOfHolder(s, t);
    hide L.Inv;
  }

  /** The same for the state after one of its steps. */
  lemma QuietAfter(s: State, s': State, t: Tid)
    requires Inv(s) && Holding(s, t) && Touches(s, s', t) && Holding(s', t)
    ensures Quiet(s', KeyOf(s', t)) <==> !Midway(s'.ops[t].stage)
  {
    hide L.Inv, OpInv, Midway;
    forall u | u in s'.ops && u in s'.lk.threads && KeyOf(s', u) == KeyOf(s', t) && u != t
      ensures !Midway(s'.ops[u].stage)
    {
      OtherOp(s, s', t, u);
      NobodyElseMidway(s, t, u);
    }
  }

  predicate CopySteps(step: Step) {
    step.MakeTemp? || step.Write? || step.CloseTemp? || step.Rename? || step.SetTime?
  }

  predicate MetaSteps(step: Step) {
    step.DropMeta? || step.WriteMeta? || step.RenameMeta? || step.Fail?
  }

  predicate RemoveSteps(step: Step) {
    step.RemoveBody? || step.RemoveMeta?
  }

  /** A step inside a critical section. */
  predicate InSection(step: Step) {
    CopySteps(step) || MetaSteps(step) || RemoveSteps(step)
  }

  lemma CopyTouches(s: State, step: Step)
    requires Enabled(s, step) && CopySteps(step) && InodeInv(s) && Holding(s, step.tid) && OpInv(s, step.tid)
    ensures Touches(s, Apply(s, step), step.tid)
  {
    hide L.Apply, L.Enabled, Settled, TimeIs, MetaOf;
  }

  lemma MetaTouches(s: State, step: Step)
    requires Enabled(s, step) && MetaSteps(step)
    ensures Touches(s, Apply(s, step), step.tid)
  {
    hide L.Apply, L.Enabled, MetaOf;
  }

  lemma RemoveTouches(s: State, step: Step)
    requires Enabled(s, step) && RemoveSteps(step)
    ensures Touches(s, Apply(s, step), step.tid)
  {
    hide L.Apply, L.Enabled, MetaOf;
  }

  /** A step inside a critical section touches nothing but its own key and inodes. */
  lemma SectionTouches(s: State, step: Step)
    requires Inv(s) && Enabled(s, step) && InSection(step)
    ensures Holding(s, step.tid) && Touches(s, Apply(s, step), step.tid)
  {
    InsideHolds(s, step);
    hide Inv, Touches, Apply, Enabled, OpInv;
    if CopySteps(step) {
      CopyTouches(s, step);
    } else if MetaSteps(step) {
      MetaTouches(s, step);
    } else {
      RemoveTouches(s, step);
    }
  }

  lemma InsideHolds(s: State, step: Step)
    requires Inv(s) && Enabled(s, step) && InSection(step)
    ensures Holding(s, step.tid) && OpInv(s, step.tid) && InodeInv(s)
  {
    hide L.Inv, KeyInv, ReadInv, Quiet;
  }

  lemma SectionStep(s: State, step: Step)
    requires Inv(s) && Enabled(s, step) && InSection(step)
    ensures Inv(Apply(s, step))
  {
    SectionTouches(s, step);
    OwnAfter(s, step);
    hide Inv, Touches, Apply, Enabled, Own;
    DiskStepKeeps(s, Apply(s, step), step.tid);
  }

  lemma OwnAfter(s: State, step: Step)
    requires Inv(s) && Enabled(s, step) && InSection(step) && Touches(s, Apply(s, step), step.tid)
    ensures Own(Apply(s, step), step.tid)
  {
    hide Inv, Touches, Quiet, OpsInv;
    InsideHolds(s, step);
    OwnBefore(s, step.tid);
    if CopySteps(step) {
      CopyOwn(s, step);
    } else {
      OtherOwn(s, step);
    }
  }

  lemma CopyOwn(s: State, step: Step)
    requires Inv(s) && Enabled(s, step) && CopySteps(step) && Touches(s, Apply(s, step), step.tid) && Own(s, step.tid)
    requires Quiet(s, KeyOf(s, step.tid)) <==> !Midway(s.ops[step.tid].stage)
    ensures Own(Apply(s, step), step.tid)
  {
    hide Inv, Touches, Quiet, OpsInv, L.Apply, L.Enabled;
    QuietAfter(s, Apply(s, step), step.tid);
  }

  lemma OtherOwn(s: State, step: Step)
    requires Inv(s) && Enabled(s, step) && InSection(step) && !CopySteps(step) && Touches(s, Apply(s, step), step.tid)
    requires Own(s, step.tid) && (Quiet(s, KeyOf(s, step.tid)) <==> !Midway(s.ops[step.tid].stage))
    ensures Own(Apply(s, step), step.tid)
  {
    hide Inv, Touches, Quiet, OpsInv, L.Apply, L.Enabled;
    QuietAfter(s, Apply(s, step), step.tid);
  }

  // ---- Steps of the lock table and of Get -------------------------------------

  /** Nothing on disk changes, and no thread that is midway disappears. */
  ghost predicate SameDisk(s: State, s': State) {
    s'.files == s.files && s'.metas == s.metas && s'.inodes == s.inodes && s'.origin == s.origin &&
    s'.finished == s.finished && s'.torn == s.torn && s'.gets == s.gets &&
    forall u :: u in s.ops && u in s.lk.threads && Midway(s.ops[u].stage) ==>
      u in s'.ops && u in s'.lk.threads && s'.ops[u] == s.ops[u] && KeyOf(s', u) == KeyOf(s, u)
  }

  lemma LockStepKeeps(s: State, s': State)
    requires Inv(s) && SameDisk(s, s') && L.Inv(s'.lk) && OpsInv(s')
    ensures Inv(s')
  {
    forall key ensures KeyInv(s', key) {
      assert KeyInv(s, key);
      assert Quiet(s', key) ==> Quiet(s, key);
      hide Quiet, OpsInv, L.Inv;
    }
    hide L.Inv, OpsInv, KeyInv, Quiet;
  }

  /** A thread whose operation and surroundings stay as they are. */
  lemma OpMoves(s: State, s': State, t: Tid)
    requires t in s.ops && t in s.lk.threads && OpInv(s, t) && t in s'.ops && t in s'.lk.threads
    requires s'.files == s.files && s'.metas == s.metas
    requires s'.inodes == s.inodes && s'.origin == s.origin && s'.finished == s.finished
    requires s'.ops[t] == s.ops[t] && KeyOf(s', t) == KeyOf(s, t)
    requires (s'.lk.threads[t].Waiting? ==> s.ops[t].stage.Begin?) && (s'.lk.threads[t].Leaving? ==> Final(s.ops[t].stage))
    requires s'.lk.threads[t].Holding? ==> s.lk.threads[t].Holding? || s.ops[t].stage.Begin?
    ensures OpInv(s', t)
  {
  }

  lemma PhaseOf(s: State, t: Tid)
    ensures t in s.ops && t in s.lk.threads && OpInv(s, t) ==>
              (s.lk.threads[t].Waiting? ==> s.ops[t].stage.Begin?) &&
              (s.lk.threads[t].Leaving? ==> Final(s.ops[t].stage)) &&
              (Midway(s.ops[t].stage) ==> s.lk.threads[t].Holding?)
  {
  }

  lemma StartKeeps(s: State, t: Tid, key: Key, unused: L.LockId, op: Op)
    requires Inv(s) && Enabled(s, Start(t, key, unused, op))
    ensures Inv(Apply(s, Start(t, key, unused, op)))
  {
    hide KeyInv, InodeInv, ReadInv, L.Inv, OpInv;
    var s' := Apply(s, Start(t, key, unused, op));
    L.StepKeepsInv(s.lk, L.Enter(t, key, unused));
    forall u | u in s.ops ensures OpInv(s', u) {
      PhaseOf(s, u);
      OpMoves(s, s', u);
    }
    FreshOp(s', t);
    LockStepKeeps(s, s');
  }

  lemma FreshOp(s: State, t: Tid)
    ensures t in s.ops && t in s.lk.threads && s.ops[t].stage.Begin? && s.lk.threads[t].Waiting? ==> OpInv(s, t)
  {
  }

  lemma MoveKeeps(s: State, step: Step, move: L.Step)
    requires Inv(s) && Enabled(s, step)
    requires (step.Grab? && move == L.Grab(step.tid)) || (step.Unlock? && move == L.Unlock(step.tid))
    ensures Inv(Apply(s, step))
  {
    hide KeyInv, InodeInv, ReadInv, L.Inv, OpInv, Midway;
    var s' := Apply(s, step);
    L.StepKeepsInv(s.lk, move);
    forall u | u in s.ops ensures OpInv(s', u) {
      PhaseOf(s, u);
      OpMoves(s, s', u);
    }
    LockStepKeeps(s, s');
  }

  lemma LeaveKeeps(s: State, t: Tid)
    requires Inv(s) && Enabled(s, Leave(t))
    ensures Inv(Apply(s, Leave(t)))
  {
    hide KeyInv, InodeInv, ReadInv, L.Inv, OpInv, Midway;
    var s' := Apply(s, Leave(t));
    L.StepKeepsInv(s.lk, L.Leave(t));
    forall u | u in s'.ops ensures OpInv(s', u) {
      PhaseOf(s, u);
      OpMoves(s, s', u);
    }
    PhaseOf(s, t);
    LockStepKeeps(s, s');
  }

  lemma OpsApart(s: State, s': State)
    requires OpsInv(s) && s' == s.(gets := s'.gets)
    ensures OpsInv(s')
  {
    forall u | u in s'.ops ensures OpInv(s', u) {
      assert OpInv(s, u);
    }
  }

  lemma KeyApart(s: State, s': State, key: Key)
    requires KeyInv(s, key) && s' == s.(gets := s'.gets)
    ensures KeyInv(s', key)
  {
    assert Quiet(s', key) ==> Quiet(s, key);
    hide Quiet;
  }

  lemma GetsApart(s: State, s': State)
    requires Inv(s) && s' == s.(gets := s'.gets) && ReadInv(s')
    ensures Inv(s')
  {
    hide OpsInv, KeyInv, L.Inv;
    OpsApart(s, s');
    forall key ensures KeyInv(s', key) {
      KeyApart(s, s', key);
    }
  }

  lemma ReadsAfterGet(s: State, step: Step)
    requires ReadInv(s) && Enabled(s, step) && (step.Stat? || step.Open? || step.ReadMeta?)
    requires step.Open? ==> KeyInv(s, s.gets[step.gid].key)
    ensures ReadInv(Apply(s, step)) && Apply(s, step) == s.(gets := Apply(s, step).gets)
  {
    hide Quiet, Settled;
  }

  lemma GetStepKeeps(s: State, step: Step)
    requires Inv(s) && Enabled(s, step) && (step.Stat? || step.Open? || step.ReadMeta?)
    ensures Inv(Apply(s, step))
  {
    hide Apply, L.Inv, OpsInv, KeyInv, ReadInv, InodeInv;
    assert step.Open? ==> KeyInv(s, s.gets[step.gid].key);
    ReadsAfterGet(s, step);
    GetsApart(s, Apply(s, step));
  }

  lemma StepKeepsInv(s: State, step: Step)
    requires Inv(s) && Enabled(s, step)
    ensures Inv(Apply(s, step))
  {
    hide Inv;
    match step
    case Start(t, key, unused, op) => StartKeeps(s, t, key, unused, op);
    case Grab(t) => MoveKeeps(s, step, L.Grab(t));
    case Unlock(t) => MoveKeeps(s, step, L.Unlock(t));
    case Leave(t) => LeaveKeeps(s, t);
    case Stat(_, _) => GetStepKeeps(s, step);
    case Open(_) => GetStepKeeps(s, step);
    case ReadMeta(_) => GetStepKeeps(s, step);
    case _ => SectionStep(s, step);
  }

  // ---- Runs -------------------------------------------------------------------

  /** The steps can be taken one after the other from `s`. */
  predicate IsRun(s: State, steps: seq<Step>)
    decreases |steps|
  {
    steps == [] || (Enabled(s, steps[0]) && IsRun(Apply(s, steps[0]), steps[1..]))
  }

  function After(s: State, steps: seq<Step>): State
    requires IsRun(s, steps)
    decreases |steps|
  {
    if steps == [] then s else After(Apply(s, steps[0]), steps[1..])
  }

  lemma {:induction false} RunKeepsInv(s: State, steps: seq<Step>)
    requires Inv(s) && IsRun(s, steps)
    ensures Inv(After(s, steps))
    decreases |steps|
  {
    hide Inv, Enabled, Apply;
    if steps == [] {
    } else {
      StepKeepsInv(s, steps[0]);
      RunKeepsInv(Apply(s, steps[0]), steps[1..]);
    }
  }

  lemma InitInv()
    ensures Inv(INIT)
  {
  }

  /** In every reachable state, a Put or Remove that has started can go on: the thread itself or
      the one inside the critical section of its lock has a step that is not a failure. */
  lemma WorkGoesOn(steps: seq<Step>, t: Tid) returns (u: Tid, next: Step)
    requires IsRun(INIT, steps) && t in After(INIT, steps).ops
    ensures var s := After(INIT, steps);
            t in s.lk.threads && u in s.ops && u in s.lk.threads && s.lk.threads[u].lock == s.lk.threads[t].lock &&
            Enabled(s, next) && Works(next) && next.tid == u
  {
    InitInv();
    RunKeepsInv(INIT, steps);
    var s := After(INIT, steps);
    u := Mover(s, t);
    next := NextStep(s, u);
  }

  lemma Mover(s: State, t: Tid) returns (u: Tid)
    requires Inv(s) && t in s.ops
    ensures t in s.lk.threads && u in s.ops && u in s.lk.threads && s.lk.threads[u].lock == s.lk.threads[t].lock
    ensures s.lk.threads[u].Waiting? ==> L.Enabled(s.lk, L.Grab(u))
  {
    hide KeyInv, InodeInv, ReadInv, OpInv;
    assert L.Counted(s.lk, s.lk.threads[t].key);
    var lock := s.lk.objects[s.lk.threads[t].lock];
    u := if s.lk.threads[t].Waiting? && lock.holder.HeldBy? then lock.holder.tid else t;
  }

  /** A step by which a Put or Remove that has started gets further. */
  predicate Works(step: Step) {
    !step.Fail? && !step.Start? && !step.Stat? && !step.Open? && !step.ReadMeta?
  }

  /** The next file operation of a thread inside its critical section. */
  function NextOnDisk(s: State, t: Tid, unused: Ino): Step
    requires Holding(s, t)
  {
    match s.ops[t].stage
    case Begin => if s.ops[t].Put? then MakeTemp(t, unused, 0) else RemoveBody(t)
    case Copying(ino) => if ino in s.inodes && s.ops[t].Put? && s.inodes[ino].body == s.ops[t].input.body
                         then CloseTemp(t) else Write(t, if s.ops[t].Put? then |s.ops[t].input.body| else 0)
    case Closed(_) => Rename(t)
    case Renamed => SetTime(t)
    case Timed => if s.ops[t].Put? && s.ops[t].input.effective == "" then DropMeta(t) else WriteMeta(t)
    case MetaReady => RenameMeta(t)
    case BodyGone => RemoveMeta(t)
    case _ => Unlock(t)
  }

  lemma Unused(used: set<Ino>) returns (ino: Ino)
    ensures ino !in used
  {
    ino := 0;
    var rest := used;
    while rest != {}
      invariant rest <= used && forall x :: x in used && x !in rest ==> x < ino
    {
      var x :| x in rest;
      rest := rest - {x};
      ino := if x < ino then ino else x + 1;
    }
  }

  lemma NextEnabled(s: State, t: Tid, unused: Ino)
    requires InodeInv(s) && Holding(s, t) && KeyInv(s, KeyOf(s, t)) && OpInv(s, t) && unused !in s.inodes
    requires L.Enabled(s.lk, L.Unlock(t))
    ensures Enabled(s, NextOnDisk(s, t, unused)) && Works(NextOnDisk(s, t, unused)) && NextOnDisk(s, t, unused).tid == t
  {
    hide Quiet, Settled;
  }

  lemma LockInTable(s: State, t: Tid)
    requires L.Inv(s.lk) && t in s.lk.threads
    ensures s.lk.threads[t].lock in s.lk.objects
  {
    assert L.Counted(s.lk, s.lk.threads[t].key);
  }

  lemma NextStep(s: State, t: Tid) returns (next: Step)
    requires Inv(s) && t in s.ops && t in s.lk.threads && (s.lk.threads[t].Waiting? ==> L.Enabled(s.lk, L.Grab(t)))
    ensures Enabled(s, next) && Works(next) && next.tid == t
  {
    hide L.Inv, OpInv, KeyInv, InodeInv, ReadInv;
    LockInTable(s, t);
    if Holding(s, t) {
      hide Enabled, NextOnDisk, Works;
      var unused := Unused(s.inodes.Keys);
      NextEnabled(s, t, unused);
      next := NextOnDisk(s, t, unused);
    } else {
      hide Inv;
      next := if s.lk.threads[t].Waiting? then Grab(t) else Leave(t);
    }
  }
}
