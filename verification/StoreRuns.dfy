/** What holds in every run of the concurrent disk store: what a Get has opened, what lies on disk at rest,
    what finished Puts and Removes leave, and which answers of a Get are those of one Put. */
module StoreRuns {
  import opened StoreProtocol
  import L = LockTable

  // ---- What a Get reads -------------------------------------------------------

  /** History only grows. */
  ghost predicate Grows(s: State, s': State) {
    s.finished <= s'.finished && forall ino :: ino in s.origin ==> ino in s'.origin && s'.origin[ino] == s.origin[ino]
  }

  lemma TouchesGrows(s: State, s': State, t: Tid)
    ensures t in s.lk.threads && Touches(s, s', t) ==> Grows(s, s')
  {
  }

  lemma OtherGrows(s: State, step: Step)
    ensures Enabled(s, step) && !InSection(step) ==> Grows(s, Apply(s, step))
  {
  }

  lemma StepGrows(s: State, step: Step)
    requires Inv(s) && Enabled(s, step)
    ensures Grows(s, Apply(s, step))
  {
    hide Inv, Enabled, Apply, Touches, Grows;
    if InSection(step) {
      SectionTouches(s, step);
      TouchesGrows(s, Apply(s, step), step.tid);
    } else {
      OtherGrows(s, step);
    }
  }

  lemma {:induction false} RunGrows(s: State, steps: seq<Step>)
    requires Inv(s) && IsRun(s, steps)
    ensures Grows(s, After(s, steps))
    decreases |steps|
  {
    hide Inv, Enabled, Apply;
    if steps == [] {
    } else {
      StepGrows(s, steps[0]);
      StepKeepsInv(s, steps[0]);
      RunGrows(Apply(s, steps[0]), steps[1..]);
    }
  }

  /** Somebody called Put with this key and input. */
  ghost predicate Called(steps: seq<Step>, origin: Origin) {
    exists i :: 0 <= i < |steps| && steps[i].Start? && steps[i].key == origin.key && steps[i].op == Put(origin.input, Begin)
  }

  ghost predicate AllCalled(s: State, past: seq<Step>) {
    (forall t :: t in s.ops && t in s.lk.threads && s.ops[t].Put? ==> Called(past, Origin(KeyOf(s, t), s.ops[t].input))) &&
    (forall ino :: ino in s.origin ==> Called(past, s.origin[ino]))
  }

  lemma CalledBefore(past: seq<Step>, step: Step, origin: Origin)
    requires Called(past, origin) || (step.Start? && step.key == origin.key && step.op == Put(origin.input, Begin))
    ensures Called(past + [step], origin)
  {
    if Called(past, origin) {
      var i :| 0 <= i < |past| && past[i].Start? && past[i].key == origin.key && past[i].op == Put(origin.input, Begin);
      assert (past + [step])[i] == past[i];
    } else {
      assert (past + [step])[|past|] == step;
    }
  }

  /** Every operation and every origin after a step was there before, or is the one that a Start brings. */
  lemma StepOrigins(s: State, step: Step)
    requires OpsInv(s) && Enabled(s, step)
    ensures var s' := Apply(s, step);
            (forall ino :: ino in s'.origin ==>
               (ino in s.origin && s'.origin[ino] == s.origin[ino]) ||
               (Putting(s, step.tid) && s'.origin[ino] == Origin(KeyOf(s, step.tid), s.ops[step.tid].input)))
  {
    hide OpInv;
  }

  lemma StepOps(s: State, step: Step, t: Tid)
    requires OpsInv(s) && Enabled(s, step)
    requires var s' := Apply(s, step); t in s'.ops && t in s'.lk.threads && s'.ops[t].Put?
    ensures var s' := Apply(s, step);
            (t in s.ops && t in s.lk.threads && s.ops[t].Put? && KeyOf(s', t) == KeyOf(s, t) && s'.ops[t].input == s.ops[t].input) ||
            (step.Start? && step.key == KeyOf(s', t) && step.op == Put(s'.ops[t].input, Begin))
  {
    hide OpInv;
  }

  lemma StepCalled(s: State, step: Step, past: seq<Step>)
    requires OpsInv(s) && Enabled(s, step) && AllCalled(s, past)
    ensures AllCalled(Apply(s, step), past + [step])
  {
    hide OpInv, Called, Apply, Enabled;
    var s' := Apply(s, step);
    forall t | t in s'.ops && t in s'.lk.threads && s'.ops[t].Put?
      ensures Called(past + [step], Origin(KeyOf(s', t), s'.ops[t].input))
    {
      StepOps(s, step, t);
      CalledBefore(past, step, Origin(KeyOf(s', t), s'.ops[t].input));
    }
    StepOrigins(s, step);
    forall ino | ino in s'.origin ensures Called(past + [step], s'.origin[ino]) {
      CalledBefore(past, step, s'.origin[ino]);
    }
  }

  lemma {:induction false} RunCalled(s: State, steps: seq<Step>, past: seq<Step>)
    requires Inv(s) && IsRun(s, steps) && AllCalled(s, past)
    ensures AllCalled(After(s, steps), past + steps)
    decreases |steps|
  {
    hide Enabled, Apply, AllCalled, KeyInv, InodeInv, ReadInv, L.Inv;
    if steps == [] {
      assert past + steps == past;
    } else {
      StepCalled(s, steps[0], past);
      StepKeepsInv(s, steps[0]);
      RunCalled(Apply(s, steps[0]), steps[1..], past + [steps[0]]);
      assert past + [steps[0]] + steps[1..] == past + steps;
    }
  }

  /** In every run, what a Get has opened is the complete body of one Put of its key, and stays so
      whatever happens later: never partial, never mixed. */
  lemma OpenedBodyIsWhole(steps: seq<Step>, more: seq<Step>, g: Gid)
    requires IsRun(INIT, steps) && IsRun(After(INIT, steps), more)
    requires g in After(INIT, steps).gets && (After(INIT, steps).gets[g].Opened? || After(INIT, steps).gets[g].Served?)
    ensures var s, s' := After(INIT, steps), After(After(INIT, steps), more);
            var get := s.gets[g];
            get.ino in s.finished && get.ino in s.origin && s.origin[get.ino].key == get.key &&
            Called(steps, s.origin[get.ino]) &&
            get.ino in s'.inodes && s'.inodes[get.ino].body == s.origin[get.ino].input.body
  {
    var s := After(INIT, steps);
    InitInv();
    RunKeepsInv(INIT, steps);
    RunKeepsInv(s, more);
    RunGrows(s, more);
    RunCalled(INIT, steps, []);
    assert [] + steps == steps;
    hide OpsInv, KeyInv, L.Inv, IsRun, After, Called;
  }

  /** In every run: when no Put is between its rename and its end on a key, and the last failure after
      a rename was followed by a complete Put or Remove, then body, modification time and effective
      path on disk are all those of one Put of that key, the one whose body is in place. */
  lemma DiskIsOfOnePut(steps: seq<Step>, key: Key)
    requires IsRun(INIT, steps)
    requires var s := After(INIT, steps); key in s.files && Quiet(s, key) && key !in s.torn
    ensures var s := After(INIT, steps);
            var ino := s.files[key];
            ino in s.origin && s.origin[ino].key == key && Called(steps, s.origin[ino]) && ino in s.inodes &&
            s.inodes[ino] == Inode(s.origin[ino].input.body, s.origin[ino].input.modTime) &&
            MetaOf(s, key) == s.origin[ino].input.effective
  {
    var s := After(INIT, steps);
    InitInv();
    RunKeepsInv(INIT, steps);
    RunCalled(INIT, steps, []);
    assert [] + steps == steps;
    assert KeyInv(s, key);
    hide OpsInv, L.Inv, IsRun, After, Called, Quiet, ReadInv;
  }

  /** In every run: a thread that still holds its key at the end of a Put that went through finds on disk
      exactly what it was called with. */
  lemma FinishedPutIsThere(steps: seq<Step>, t: Tid)
    requires IsRun(INIT, steps)
    requires var s := After(INIT, steps); Putting(s, t) && s.ops[t].stage.Stored?
    ensures var s := After(INIT, steps);
            var key, input := KeyOf(s, t), s.ops[t].input;
            key in s.files && s.files[key] in s.inodes && s.inodes[s.files[key]] == Inode(input.body, input.modTime) &&
            MetaOf(s, key) == input.effective
  {
    var s := After(INIT, steps);
    InitInv();
    RunKeepsInv(INIT, steps);
    assert OpInv(s, t) && KeyInv(s, KeyOf(s, t));
    hide OpInv, L.Inv, IsRun, After, Quiet, ReadInv;
  }

  /** In every run: a thread that still holds its key at the end of a Remove that went through finds neither
      body nor metadata. */
  lemma FinishedRemoveIsGone(steps: seq<Step>, t: Tid)
    requires IsRun(INIT, steps)
    requires var s := After(INIT, steps); Removing(s, t) && s.ops[t].stage.Removed?
    ensures var s := After(INIT, steps); KeyOf(s, t) !in s.files && KeyOf(s, t) !in s.metas
  {
    InitInv();
    RunKeepsInv(INIT, steps);
    assert OpInv(After(INIT, steps), t);
    hide L.Inv, IsRun, After, KeyInv, ReadInv, InodeInv;
  }

  /** No Put of this key gets its body in place. */
  predicate NoRename(s: State, steps: seq<Step>, key: Key)
    requires IsRun(s, steps)
    decreases |steps|
  {
    steps == [] ||
    (!(steps[0].Rename? && KeyOf(s, steps[0].tid) == key) && NoRename(Apply(s, steps[0]), steps[1..], key))
  }

  lemma StepStaysGone(s: State, step: Step, key: Key)
    requires Inv(s) && Enabled(s, step) && key !in s.files && key !in s.metas
    requires !(step.Rename? && KeyOf(s, step.tid) == key)
    ensures key !in Apply(s, step).files && key !in Apply(s, step).metas
  {
    hide Inv;
    if step.RenameMeta? {
      MidwayHasBody(s, step.tid);
    }
  }

  lemma MidwayHasBody(s: State, t: Tid)
    ensures Inv(s) && Holding(s, t) && Midway(s.ops[t].stage) ==> KeyOf(s, t) in s.files
  {
    assert Inv(s) && Holding(s, t) ==> OpInv(s, t);
    hide L.Inv, KeyInv, ReadInv, InodeInv;
  }

  lemma {:induction false} RunStaysGone(s: State, steps: seq<Step>, key: Key)
    requires Inv(s) && IsRun(s, steps) && NoRename(s, steps, key) && key !in s.files && key !in s.metas
    ensures key !in After(s, steps).files && key !in After(s, steps).metas
    decreases |steps|
  {
    hide Inv, Enabled, Apply;
    if steps == [] {
    } else {
      StepStaysGone(s, steps[0], key);
      StepKeepsInv(s, steps[0]);
      RunStaysGone(Apply(s, steps[0]), steps[1..], key);
    }
  }

  /** From then on, until a Put of the key gets its body in place, both stay away whatever else happens, and
      every Get that begins misses. */
  lemma RemovedIsMissed(steps: seq<Step>, t: Tid, more: seq<Step>, g: Gid)
    requires IsRun(INIT, steps) && IsRun(After(INIT, steps), more)
    requires var s := After(INIT, steps); Removing(s, t) && s.ops[t].stage.Removed? && NoRename(s, more, KeyOf(s, t))
    requires g !in After(After(INIT, steps), more).gets
    ensures var key, s' := KeyOf(After(INIT, steps), t), After(After(INIT, steps), more);
            key !in s'.files && key !in s'.metas &&
            Enabled(s', Stat(g, key)) && g in Apply(s', Stat(g, key)).gets && Apply(s', Stat(g, key)).gets[g] == Missed(key)
  {
    hide Inv, IsRun, After, NoRename;
    InitInv();
    RunKeepsInv(INIT, steps);
    FinishedRemoveIsGone(steps, t);
    RunStaysGone(After(INIT, steps), more, KeyOf(After(INIT, steps), t));
  }

  /** The steps that change a key's entry on disk. */
  predicate ChangesEntry(step: Step) {
    step.Rename? || step.SetTime? || step.DropMeta? || step.RenameMeta? || step.RemoveBody? || step.RemoveMeta?
  }

  /** The step does not change the entry of `key`, and is not one of the Get `g`. Locking, copying, writing
      temporary metadata and failing may go on for the same key. */
  predicate Elsewhere(s: State, step: Step, key: Key, g: Gid) {
    if step.Stat? || step.Open? || step.ReadMeta? then step.gid != g
    else ChangesEntry(step) && step.tid in s.lk.threads ==> KeyOf(s, step.tid) != key
  }

  predicate AllElsewhere(s: State, steps: seq<Step>, key: Key, g: Gid)
    requires IsRun(s, steps)
    decreases |steps|
  {
    steps == [] || (Elsewhere(s, steps[0], key, g) && AllElsewhere(Apply(s, steps[0]), steps[1..], key, g))
  }

  /** A key whose entry nobody changes keeps its files, and a Get keeps what it has. */
  ghost predicate SameEntry(s: State, s': State, key: Key, g: Gid)
    requires key in s.files && s.files[key] in s.inodes && g in s.gets
  {
    key in s'.files && s'.files[key] == s.files[key] && s.files[key] in s'.inodes &&
    s'.inodes[s.files[key]] == s.inodes[s.files[key]] && MetaOf(s', key) == MetaOf(s, key) &&
    g in s'.gets && s'.gets[g] == s.gets[g]
  }

  lemma TouchesElsewhere(s: State, s': State, t: Tid, key: Key, g: Gid)
    requires Inv(s) && Holding(s, t) && Touches(s, s', t) && KeyOf(s, t) != key
    requires key in s.files && s.files[key] in s.inodes && g in s.gets
    ensures SameEntry(s, s', key, g)
  {
    assert KeyInv(s, key);
    OtherSlot(s, s', t, key);
    OtherInode(s, s', t, s.files[key]);
    hide Inv, Quiet, Settled;
  }

  lemma OtherElsewhere(s: State, step: Step, key: Key, g: Gid)
    requires Enabled(s, step) && Elsewhere(s, step, key, g) && !InSection(step)
    requires key in s.files && s.files[key] in s.inodes && g in s.gets
    ensures SameEntry(s, Apply(s, step), key, g)
  {
  }

  /** Other steps inside a critical section leave every entry alone, also that of their own key. */
  lemma CopyingElsewhere(s: State, step: Step, key: Key, g: Gid)
    requires Enabled(s, step) && InSection(step) && !ChangesEntry(step)
    requires step.Write? ==> s.ops[step.tid].stage.ino !in s.finished
    requires key in s.files && s.files[key] in s.inodes && s.files[key] in s.finished && g in s.gets
    ensures SameEntry(s, Apply(s, step), key, g)
  {
  }

  lemma WritesUnfinished(s: State, step: Step, key: Key)
    requires Inv(s) && Enabled(s, step) && InSection(step) && key in s.files
    ensures s.files[key] in s.finished && (step.Write? ==> s.ops[step.tid].stage.ino !in s.finished)
  {
    assert KeyInv(s, key);
    InsideHolds(s, step);
    hide Inv, Quiet, Settled;
  }

  lemma StepElsewhere(s: State, step: Step, key: Key, g: Gid)
    requires Inv(s) && Enabled(s, step) && Elsewhere(s, step, key, g)
    requires key in s.files && s.files[key] in s.inodes && g in s.gets
    ensures SameEntry(s, Apply(s, step), key, g)
  {
    hide Inv, Enabled, Apply, Touches, SameEntry;
    if !InSection(step) {
      OtherElsewhere(s, step, key, g);
    } else if ChangesEntry(step) {
      SectionTouches(s, step);
      TouchesElsewhere(s, Apply(s, step), step.tid, key, g);
    } else {
      WritesUnfinished(s, step, key);
      CopyingElsewhere(s, step, key, g);
    }
  }

  lemma {:induction false} RunElsewhere(s: State, steps: seq<Step>, key: Key, g: Gid)
    requires Inv(s) && IsRun(s, steps) && AllElsewhere(s, steps, key, g)
    requires key in s.files && s.files[key] in s.inodes && g in s.gets
    ensures SameEntry(s, After(s, steps), key, g)
    decreases |steps|
  {
    hide Inv, Enabled, Apply, Elsewhere;
    if steps == [] {
    } else {
      StepElsewhere(s, steps[0], key, g);
      StepKeepsInv(s, steps[0]);
      RunElsewhere(Apply(s, steps[0]), steps[1..], key, g);
    }
  }

  /** From `s`, a step of the Get `g` and then steps elsewhere lead to `s'`. */
  ghost predicate GetReaches(s: State, step: Step, between: seq<Step>, key: Key, g: Gid, s': State) {
    Enabled(s, step) && IsRun(Apply(s, step), between) && AllElsewhere(Apply(s, step), between, key, g) &&
    s' == After(Apply(s, step), between)
  }

  lemma GetStepStays(s: State, step: Step, key: Key, g: Gid)
    requires Inv(s) && Enabled(s, step) && key in s.files && (step == Stat(g, key) || step == Open(g))
    ensures Inv(Apply(s, step)) && s.files[key] in s.inodes && g in Apply(s, step).gets
    ensures Apply(s, step) == s.(gets := Apply(s, step).gets)
  {
    StepKeepsInv(s, step);
    assert KeyInv(s, key);
    hide OpsInv, ReadInv, L.Inv, Quiet, Settled;
  }

  lemma GetWaited(s: State, step: Step, between: seq<Step>, key: Key, g: Gid, s': State)
    requires Inv(s) && GetReaches(s, step, between, key, g, s') && key in s.files && (step == Stat(g, key) || step == Open(g))
    ensures Inv(s') && s.files[key] in s.inodes && g in Apply(s, step).gets && SameEntry(Apply(s, step), s', key, g)
  {
    hide Inv, IsRun, After, AllElsewhere, Enabled, Apply;
    GetStepStays(s, step, key, g);
    RunElsewhere(Apply(s, step), between, key, g);
    RunKeepsInv(Apply(s, step), between);
  }

  function ServedFrom(key: Key, ino: Ino, input: Input): Read {
    Served(key, |input.body|, input.modTime, ino, input.effective)
  }

  lemma StatSees(s: State, key: Key, g: Gid)
    ensures key in s.files && s.files[key] in s.inodes && g !in s.gets ==>
              Enabled(s, Stat(g, key)) &&
              Apply(s, Stat(g, key)) ==
              s.(gets := s.gets[g := Statted(key, |s.inodes[s.files[key]].body|, s.inodes[s.files[key]].modTime)])
  {
  }

  lemma OpenSees(s: State, g: Gid)
    ensures g in s.gets && s.gets[g].Statted? && s.gets[g].key in s.files ==>
              Enabled(s, Open(g)) &&
              Apply(s, Open(g)) ==
              s.(gets := s.gets[g := Opened(s.gets[g].key, s.gets[g].size, s.gets[g].modTime, s.files[s.gets[g].key])])
  {
  }

  lemma ReadSees(s: State, g: Gid)
    ensures g in s.gets && s.gets[g].Opened? ==>
              Enabled(s, ReadMeta(g)) &&
              var r := s.gets[g];
              Apply(s, ReadMeta(g)) == s.(gets := s.gets[g := Served(r.key, r.size, r.modTime, r.ino, MetaOf(s, r.key))])
  {
  }

  /** What the three steps return when the key's entry stays as it is. */
  lemma GetSees(s: State, s1: State, s2: State, key: Key, g: Gid)
    requires key in s.files && s.files[key] in s.inodes && Enabled(s, Stat(g, key))
    requires SameEntry(Apply(s, Stat(g, key)), s1, key, g)
    requires Enabled(s1, Open(g)) && SameEntry(Apply(s1, Open(g)), s2, key, g)
    ensures Enabled(s2, ReadMeta(g)) && g in Apply(s2, ReadMeta(g)).gets
    ensures Apply(s2, ReadMeta(g)).gets[g] ==
            Served(key, |s.inodes[s.files[key]].body|, s.inodes[s.files[key]].modTime, s.files[key], MetaOf(s, key))
  {
    NewGet(s, key, g);
    hide Apply, Enabled;
    StatSees(s, key, g);
    OpenSees(s1, g);
    ReadSees(s2, g);
  }

  lemma NewGet(s: State, key: Key, g: Gid)
    ensures Enabled(s, Stat(g, key)) ==> g !in s.gets
  {
  }

  /** A Get of a settled key returns size, time, effective path and body of one and the same Put, as long as
      no step between its own three renames, stamps, removes or replaces the files of that key. Another Put of
      the key may be waiting, copying or failing meanwhile. */
  lemma UndisturbedGetIsCoherent(steps: seq<Step>, key: Key, g: Gid, first: seq<Step>, s1: State, second: seq<Step>, s2: State)
    requires IsRun(INIT, steps)
    requires var s := After(INIT, steps); key in s.files && Quiet(s, key) && key !in s.torn && g !in s.gets
    requires GetReaches(After(INIT, steps), Stat(g, key), first, key, g, s1)
    requires GetReaches(s1, Open(g), second, key, g, s2)
    ensures var s := After(INIT, steps);
            s.files[key] in s.origin && Enabled(s2, ReadMeta(g)) && g in Apply(s2, ReadMeta(g)).gets &&
            Apply(s2, ReadMeta(g)).gets[g] == ServedFrom(key, s.files[key], s.origin[s.files[key]].input)
  {
    var s := After(INIT, steps);
    DiskIsOfOnePut(steps, key);
    InitInv();
    RunKeepsInv(INIT, steps);
    hide Inv, IsRun, AllElsewhere, Called, Quiet, After, Apply;
    GetWaited(s, Stat(g, key), first, key, g, s1);
    StatStays(s, s1, key, g);
    GetWaited(s1, Open(g), second, key, g, s2);
    GetSees(s, s1, s2, key, g);
  }

  lemma StatStays(s: State, s1: State, key: Key, g: Gid)
    requires key in s.files && s.files[key] in s.inodes && Enabled(s, Stat(g, key))
    requires SameEntry(Apply(s, Stat(g, key)), s1, key, g)
    ensures key in s1.files && s1.files[key] == s.files[key] && s1.files[key] in s1.inodes
  {
  }

  lemma {:induction false} RunConcat(s: State, a: seq<Step>, b: seq<Step>)
    requires IsRun(s, a) && IsRun(After(s, a), b)
    ensures IsRun(s, a + b) && After(s, a + b) == After(After(s, a), b)
    decreases |a|
  {
    hide Enabled, Apply;
    if a == [] {
      assert a + b == b;
    } else {
      assert (a + b)[1..] == a[1..] + b;
      RunConcat(Apply(s, a[0]), a[1..], b);
    }
  }

  lemma RunOfThree(s: State, a: Step, b: Step, c: Step)
    requires Enabled(s, a) && Enabled(Apply(s, a), b) && Enabled(Apply(Apply(s, a), b), c)
    ensures IsRun(s, [a, b, c]) && After(s, [a, b, c]) == Apply(Apply(Apply(s, a), b), c)
  {
    hide Enabled, Apply;
    assert [a, b, c][1..] == [b, c] && [b, c][1..] == [c] && [c][1..] == [];
    var s1 := Apply(s, a);
    var s2 := Apply(s1, b);
    var s3 := Apply(s2, c);
    assert IsRun(s3, []) && After(s3, []) == s3;
    assert IsRun(s2, [c]) && After(s2, [c]) == s3;
    assert IsRun(s1, [b, c]) && After(s1, [b, c]) == s3;
  }

  lemma PutBegins(key: Key, input: Input, now: int)
    ensures var steps := [Start(0, key, 0, Put(input, Begin)), Grab(0), MakeTemp(0, 0, now)];
            IsRun(INIT, steps) && Holding(After(INIT, steps), 0) && KeyOf(After(INIT, steps), 0) == key &&
            After(INIT, steps) == State(After(INIT, steps).lk, map[0 := Put(input, Copying(0))], map[], map[],
                                        map[0 := Inode([], now)], map[], map[0 := Origin(key, input)], {}, {})
  {
    var a, b, c := Start(0, key, 0, Put(input, Begin)), Grab(0), MakeTemp(0, 0, now);
    var s := Apply(Apply(INIT, a), b);
    assert s.ops == map[0 := Put(input, Begin)] && Holding(s, 0);
    RunOfThree(INIT, a, b, c);
    var s3 := Apply(s, c);
    hide IsRun, After, Enabled;
    assert s3.ops == map[0 := Put(input, Copying(0))] && Holding(s3, 0);
    assert s3 == State(s3.lk, map[0 := Put(input, Copying(0))], map[], map[],
                       map[0 := Inode([], now)], map[], map[0 := Origin(key, input)], {}, {});
  }

  lemma PutCopies(s: State, key: Key, input: Input, now: int)
    requires Holding(s, 0) && KeyOf(s, 0) == key
    requires s == State(s.lk, map[0 := Put(input, Copying(0))], map[], map[],
                        map[0 := Inode([], now)], map[], map[0 := Origin(key, input)], {}, {})
    ensures var steps := [Write(0, |input.body|), CloseTemp(0), Rename(0)];
            IsRun(s, steps) &&
            After(s, steps) == State(s.lk, map[0 := Put(input, Renamed)], map[key := 0], map[],
                                     map[0 := Inode(input.body, now)], map[], map[0 := Origin(key, input)], {0}, {})
  {
    hide IsRun, After;
    assert input.body[..|input.body|] == input.body;
    RunOfThree(s, Write(0, |input.body|), CloseTemp(0), Rename(0));
  }

  lemma GetInOneGo(s: State, key: Key, g: Gid)
    requires g !in s.gets && key in s.files && s.files[key] in s.inodes
    ensures var steps := [Stat(g, key), Open(g), ReadMeta(g)];
            IsRun(s, steps) && After(s, steps).origin == s.origin && g in After(s, steps).gets &&
            After(s, steps).gets[g] ==
            Served(key, |s.inodes[s.files[key]].body|, s.inodes[s.files[key]].modTime, s.files[key], MetaOf(s, key))
  {
    hide Apply, Enabled, IsRun, After;
    StatSees(s, key, g);
    OpenSees(Apply(s, Stat(g, key)), g);
    ReadSees(Apply(Apply(s, Stat(g, key)), Open(g)), g);
    RunOfThree(s, Stat(g, key), Open(g), ReadMeta(g));
  }

  /** Without that, coherence fails: a Get between the rename of a Put and its end reports the time of
      the copy and no effective path next to the new body. */
  lemma GetDuringPutIsMixed(key: Key, input: Input, now: int) returns (steps: seq<Step>)
    ensures IsRun(INIT, steps) && 0 in After(INIT, steps).gets
    ensures var s := After(INIT, steps);
            s.gets[0] == Served(key, |input.body|, now, 0, "") && 0 in s.origin && s.origin[0] == Origin(key, input)
  {
    hide IsRun, After, Apply, Enabled;
    var begin := [Start(0, key, 0, Put(input, Begin)), Grab(0), MakeTemp(0, 0, now)];
    var copy := [Write(0, |input.body|), CloseTemp(0), Rename(0)];
    var get := [Stat(0, key), Open(0), ReadMeta(0)];
    PutBegins(key, input, now);
    PutCopies(After(INIT, begin), key, input, now);
    GetInOneGo(After(After(INIT, begin), copy), key, 0);
    RunConcat(After(INIT, begin), copy, get);
    RunConcat(INIT, begin, copy + get);
    steps := begin + (copy + get);
  }
}
