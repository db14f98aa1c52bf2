/** The per-key lock table of the disk store as a state machine: any number of threads
    and keys, lock objects counted, deleted at count zero and created anew.

    A step is one critical section of the table mutex, or one operation on an entry
    mutex. Go's mutexes are taken at their word: at most one holder, and a lock
    operation waits until there is none. */
module LockTable {

  type Tid = nat
  type Key = string
  type LockId = nat

  /** Where a thread stands in `lockEntry` and the unlock function it returns. */
  datatype Phase =
    | Waiting(key: Key, lock: LockId)  // counted in refs, waiting for the entry mutex
    | Holding(key: Key, lock: LockId)  // inside the critical section of its key
    | Leaving(key: Key, lock: LockId)  // entry mutex released, refs not yet decremented

  datatype Holder = Free | HeldBy(tid: Tid)

  datatype Lock = Lock(refs: int, holder: Holder)

  /** `table` is the map of live locks; `objects` also keeps the deleted ones. */
  datatype State = State(table: map<Key, LockId>, objects: map<LockId, Lock>, threads: map<Tid, Phase>)

  datatype Step = Enter(tid: Tid, key: Key, unused: LockId) | Grab(tid: Tid) | Unlock(tid: Tid) | Leave(tid: Tid)

  const INIT := State(map[], map[], map[])

  predicate Enabled(s: State, step: Step) {
    match step
    case Enter(t, key, unused) => t !in s.threads && unused !in s.objects
    case Grab(t) => t in s.threads && s.threads[t].Waiting? && s.threads[t].lock in s.objects &&
                    s.objects[s.threads[t].lock].holder.Free?
    case Unlock(t) => t in s.threads && s.threads[t].Holding? && s.threads[t].lock in s.objects
    case Leave(t) => t in s.threads && s.threads[t].Leaving? && s.threads[t].lock in s.objects
  }

  function Apply(s: State, step: Step): State
    requires Enabled(s, step)
  {
    match step
    case Enter(t, key, unused) =>
      var lock := if key in s.table then s.table[key] else unused;
      var was := if lock in s.objects then s.objects[lock] else Lock(0, Free);
      State(s.table[key := lock], s.objects[lock := was.(refs := was.refs + 1)], s.threads[t := Waiting(key, lock)])
    case Grab(t) =>
      var p := s.threads[t];
      s.(objects := s.objects[p.lock := s.objects[p.lock].(holder := HeldBy(t))],
         threads := s.threads[t := Holding(p.key, p.lock)])
    case Unlock(t) =>
      var p := s.threads[t];
      s.(objects := s.objects[p.lock := s.objects[p.lock].(holder := Free)],
         threads := s.threads[t := Leaving(p.key, p.lock)])
    case Leave(t) =>
      var p := s.threads[t];
      var lock := s.objects[p.lock].(refs := s.objects[p.lock].refs - 1);
      State(if lock.refs == 0 then s.table - {p.key} else s.table, s.objects[p.lock := lock], s.threads - {t})
  }

  // ---- The invariant --------------------------------------------------------

  /** The threads between acquiring a reference to a lock and giving it back. */
  function Users(threads: map<Tid, Phase>, lock: LockId): set<Tid> {
    set t | t in threads && threads[t].lock == lock
  }

  /** A thread refers to the live lock of its key. */
  ghost predicate ThreadsOnLiveLocks(s: State) {
    forall t :: t in s.threads ==> s.threads[t].key in s.table && s.table[s.threads[t].key] == s.threads[t].lock
  }

  ghost predicate DistinctLocks(s: State) {
    forall k1, k2 :: k1 in s.table && k2 in s.table && s.table[k1] == s.table[k2] ==> k1 == k2
  }

  /** A live lock is counted once for every thread that uses it, and at least once. */
  ghost predicate Counted(s: State, key: Key)
    requires key in s.table
  {
    s.table[key] in s.objects && s.objects[s.table[key]].refs == |Users(s.threads, s.table[key])| > 0
  }

  ghost predicate RefsCountUsers(s: State) {
    forall k :: k in s.table ==> Counted(s, k)
  }

  /** The holder of a lock is the one thread in its critical section. */
  ghost predicate HolderIsHolding(s: State) {
    (forall t :: t in s.threads && s.threads[t].Holding? ==>
       s.threads[t].lock in s.objects && s.objects[s.threads[t].lock].holder == HeldBy(t)) &&
    (forall lock :: lock in s.objects && s.objects[lock].holder.HeldBy? ==>
       s.objects[lock].holder.tid in s.threads && s.threads[s.objects[lock].holder.tid].Holding? &&
       s.threads[s.objects[lock].holder.tid].lock == lock)
  }

  ghost predicate Inv(s: State) {
    ThreadsOnLiveLocks(s) && DistinctLocks(s) && RefsCountUsers(s) && HolderIsHolding(s)
  }

  lemma UsersJoined(threads: map<Tid, Phase>, t: Tid, p: Phase, lock: LockId)
    requires t !in threads
    ensures Users(threads[t := p], lock) == Users(threads, lock) + (if p.lock == lock then {t} else {})
    ensures t !in Users(threads, lock)
  {
  }

  lemma UsersMoved(threads: map<Tid, Phase>, t: Tid, p: Phase, lock: LockId)
    requires t in threads && threads[t].lock == p.lock
    ensures Users(threads[t := p], lock) == Users(threads, lock)
  {
  }

  lemma UsersGone(threads: map<Tid, Phase>, t: Tid, lock: LockId)
    requires t in threads
    ensures Users(threads - {t}, lock) == Users(threads, lock) - (if threads[t].lock == lock then {t} else {})
    ensures t in Users(threads, lock) <==> threads[t].lock == lock
  {
  }

  lemma EnterCounts(s: State, t: Tid, key: Key, unused: LockId, k: Key)
    requires Inv(s) && Enabled(s, Enter(t, key, unused)) && k in Apply(s, Enter(t, key, unused)).table
    ensures Counted(Apply(s, Enter(t, key, unused)), k)
  {
    var s' := Apply(s, Enter(t, key, unused));
    UsersJoined(s.threads, t, Waiting(key, s'.table[key]), s'.table[k]);
    if k == key {
      if key !in s.table {
        NobodyUses(s, unused);
      }
    } else {
      assert Counted(s, k);
      assert s'.table[key] != s.table[k];
    }
  }

  lemma NobodyUses(s: State, lock: LockId)
    requires Inv(s) && lock !in s.objects
    ensures Users(s.threads, lock) == {}
  {
    forall t | t in s.threads ensures s.threads[t].lock != lock {
      assert Counted(s, s.threads[t].key);
    }
  }

  lemma EnterKeepsInv(s: State, t: Tid, key: Key, unused: LockId)
    requires Inv(s) && Enabled(s, Enter(t, key, unused))
    ensures Inv(Apply(s, Enter(t, key, unused)))
  {
    var s' := Apply(s, Enter(t, key, unused));
    forall k | k in s'.table ensures Counted(s', k) {
      EnterCounts(s, t, key, unused, k);
    }
    EnterKeepsTable(s, t, key, unused);
    EnterKeepsHolders(s, t, key, unused);
  }

  lemma EnterKeepsTable(s: State, t: Tid, key: Key, unused: LockId)
    requires Inv(s) && Enabled(s, Enter(t, key, unused))
    ensures var s' := Apply(s, Enter(t, key, unused)); ThreadsOnLiveLocks(s') && DistinctLocks(s')
  {
    hide Users, HolderIsHolding;
    assert forall k :: k in s.table ==> Counted(s, k) && s.table[k] != unused;
  }

  lemma EnterKeepsHolders(s: State, t: Tid, key: Key, unused: LockId)
    requires Inv(s) && Enabled(s, Enter(t, key, unused))
    ensures HolderIsHolding(Apply(s, Enter(t, key, unused)))
  {
    assert key in s.table ==> Counted(s, key);
    hide Users, RefsCountUsers, DistinctLocks;
  }

  lemma MoveKeepsInv(s: State, step: Step)
    requires Inv(s) && Enabled(s, step) && (step.Grab? || step.Unlock?)
    ensures Inv(Apply(s, step))
  {
    var s' := Apply(s, step);
    forall k | k in s'.table ensures Counted(s', k) {
      assert Counted(s, k);
      UsersMoved(s.threads, step.tid, s'.threads[step.tid], s'.table[k]);
    }
    MoveKeepsRest(s, step);
  }

  lemma MoveKeepsRest(s: State, step: Step)
    requires Inv(s) && Enabled(s, step) && (step.Grab? || step.Unlock?)
    ensures var s' := Apply(s, step); ThreadsOnLiveLocks(s') && DistinctLocks(s') && HolderIsHolding(s')
  {
    hide Users, RefsCountUsers;
    var t := step.tid;
    var lock := s.threads[t].lock;
    assert step.Unlock? ==> s.objects[lock].holder == HeldBy(t);
  }

  lemma LeaveCounts(s: State, t: Tid, k: Key)
    requires Inv(s) && Enabled(s, Leave(t)) && k in Apply(s, Leave(t)).table
    ensures Counted(Apply(s, Leave(t)), k)
  {
    assert Counted(s, k);
    UsersGone(s.threads, t, s.table[k]);
    assert s.table[k] == s.threads[t].lock ==> k == s.threads[t].key;
  }

  /** The last user of a lock takes it out of the table; otherwise somebody still uses it. */
  lemma LeaveEmpties(s: State, t: Tid, u: Tid)
    requires Inv(s) && Enabled(s, Leave(t)) && u in s.threads && u != t
    ensures s.threads[u].key in Apply(s, Leave(t)).table
  {
    var p := s.threads[t];
    assert Counted(s, p.key);
    UsersGone(s.threads, t, p.lock);
    if s.threads[u].key == p.key {
      assert u in Users(s.threads, p.lock) - {t};
      assert |Users(s.threads, p.lock) - {t}| > 0;
    }
  }

  lemma LeaveKeepsInv(s: State, t: Tid)
    requires Inv(s) && Enabled(s, Leave(t))
    ensures Inv(Apply(s, Leave(t)))
  {
    var s' := Apply(s, Leave(t));
    forall k | k in s'.table ensures Counted(s', k) {
      LeaveCounts(s, t, k);
    }
    forall u | u in s'.threads ensures s'.threads[u].key in s'.table && s'.table[s'.threads[u].key] == s'.threads[u].lock {
      LeaveEmpties(s, t, u);
    }
    LeaveKeepsHolders(s, t);
  }

  lemma LeaveKeepsHolders(s: State, t: Tid)
    requires Inv(s) && Enabled(s, Leave(t))
    ensures var s' := Apply(s, Leave(t)); DistinctLocks(s') && HolderIsHolding(s')
  {
    hide Users, RefsCountUsers;
  }

  lemma StepKeepsInv(s: State, step: Step)
    requires Inv(s) && Enabled(s, step)
    ensures Inv(Apply(s, step))
  {
    match step
    case Enter(t, key, unused) => EnterKeepsInv(s, t, key, unused);
    case Grab(_) => MoveKeepsInv(s, step);
    case Unlock(_) => MoveKeepsInv(s, step);
    case Leave(t) => LeaveKeepsInv(s, t);
  }

  // ---- Runs -----------------------------------------------------------------

  /** The steps can be taken one after the other from `s`. */
  predicate IsRun(s: State, steps: seq<Step>)
    decreases |steps|
  {
    steps == [] || (Enabled(s, steps[0]) && IsRun(Apply(s, steps[0]), steps[1..]))
  }

  function After(s: State, steps: seq<Step>): State
    requires IsRun(s, steps)
    decreases |steps|
  {
    if steps == [] then s else After(Apply(s, steps[0]), steps[1..])
  }

  lemma {:induction false} RunKeepsInv(s: State, steps: seq<Step>)
    requires Inv(s) && IsRun(s, steps)
    ensures Inv(After(s, steps))
    decreases |steps|
  {
    if steps == [] {
    } else {
      StepKeepsInv(s, steps[0]);
      RunKeepsInv(Apply(s, steps[0]), steps[1..]);
    }
  }

  /** In every reachable state, two threads in the critical section of one key are one thread. */
  lemma MutualExclusion(steps: seq<Step>, t: Tid, u: Tid)
    requires IsRun(INIT, steps)
    requires var s := After(INIT, steps);
             t in s.threads && u in s.threads && s.threads[t].Holding? && s.threads[u].Holding? &&
             s.threads[t].key == s.threads[u].key
    ensures t == u
  {
    RunKeepsInv(INIT, steps);
  }

  /** In every reachable state a key is in the table exactly while some thread uses it, and its
      count is the number of those threads. */
  lemma TableHoldsUsedKeys(steps: seq<Step>, key: Key)
    requires IsRun(INIT, steps)
    ensures var s := After(INIT, steps);
            var users := set t | t in s.threads && s.threads[t].key == key;
            (key in s.table <==> users != {}) &&
            (key in s.table ==> s.table[key] in s.objects && s.objects[s.table[key]].refs == |users|)
  {
    RunKeepsInv(INIT, steps);
    var s := After(INIT, steps);
    var users := set t | t in s.threads && s.threads[t].key == key;
    if key in s.table {
      forall t | t in s.threads ensures t in users <==> t in Users(s.threads, s.table[key]) {
        assert s.table[s.threads[t].key] == s.threads[t].lock;
      }
      assert users == Users(s.threads, s.table[key]);
    }
  }

  /** A lock that left the table has no thread behind it, so nobody waits on a deleted lock. */
  lemma DeletedLocksAreUnused(steps: seq<Step>, lock: LockId)
    requires IsRun(INIT, steps) && lock !in After(INIT, steps).table.Values
    ensures Users(After(INIT, steps).threads, lock) == {}
  {
    RunKeepsInv(INIT, steps);
  }

  lemma NoThreadNoUser(s: State, k: Key)
    requires k in s.table && s.threads == map[]
    ensures !Counted(s, k)
  {
    assert Users(s.threads, s.table[k]) == {};
  }

  /** When all threads are done the table is empty again. */
  lemma QuiescentTableIsEmpty(steps: seq<Step>)
    requires IsRun(INIT, steps) && After(INIT, steps).threads == map[]
    ensures After(INIT, steps).table == map[]
  {
    RunKeepsInv(INIT, steps);
    var s := After(INIT, steps);
    forall k | k in s.table ensures false {
      NoThreadNoUser(s, k);
    }
  }

  /** The step that a thread which is not blocked takes next. */
  function NextStep(s: State, t: Tid): Step
    requires t in s.threads
  {
    match s.threads[t]
    case Waiting(_, _) => Grab(t)
    case Holding(_, _) => Unlock(t)
    case Leaving(_, _) => Leave(t)
  }

  /** The table never deadlocks: while a thread is inside, it or the thread it waits for can move. */
  lemma SomeThreadCanMove(steps: seq<Step>, t: Tid) returns (u: Tid)
    requires IsRun(INIT, steps) && t in After(INIT, steps).threads
    ensures u in After(INIT, steps).threads && Enabled(After(INIT, steps), NextStep(After(INIT, steps), u))
    ensures After(INIT, steps).threads[u].lock == After(INIT, steps).threads[t].lock
  {
    RunKeepsInv(INIT, steps);
    var s := After(INIT, steps);
    var lock := s.objects[s.threads[t].lock];
    u := if s.threads[t].Waiting? && lock.holder.HeldBy? then lock.holder.tid else t;
  }
}
