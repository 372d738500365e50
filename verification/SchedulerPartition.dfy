/**
  In every run each live process is in exactly one place: it is the current one, or in the
  ready queue, or in the blocked queue, once, with the status that says so; the semaphore
  queues hold exactly the processes blocked for a semaphore; and the kernel never hangs.
 */
module SchedulerPartition {
  import opened Basics
  import opened Semaphores
  import opened Sequences
  import opened SchedulerModel

  /** Status, place and bounds of process `p`, when `run` is the one that runs. */
  ghost predicate InPlace(k: State, p: Pid, run: Option<Pid>)
    requires p in k.procs
  {
    var b := k.procs[p];
    && b.status in {READY, RUNNING, BLOCKED}
    && (b.status == RUNNING <==> run == Some(p))
    && (b.status == READY <==> p in k.ready)
    && (b.status == BLOCKED <==> p in k.blocked)
    && (b.status != BLOCKED ==> b.reason == BLK_NONE)
    && 1 <= b.priority <= QUANTUM_MAX
    && b.parent != Some(p)
  }

  ghost predicate Partition(k: State, run: Option<Pid>) {
    && (forall p :: p in k.procs ==> InPlace(k, p, run))
    && (forall p :: p in k.ready || p in k.blocked ==> p in k.procs)
    && Distinct(k.ready)
    && Distinct(k.blocked)
    && IDLE in k.procs
    && k.procs[IDLE].status != BLOCKED
    && !k.halted
  }

  ghost predicate SchedInv(k: State) {
    && Partition(k, k.current)
    && (k.current.Some? ==> k.current.value in k.procs && 1 <= k.procs[k.current.value].quantum <= QUANTUM_MAX)
  }

  ghost predicate QueuesSane(sems: map<nat, Sem<Pid>>) {
    forall id :: id in sems ==> Distinct(sems[id].queue) && (sems[id].value > 0 ==> sems[id].queue == [])
  }

  ghost predicate QueuesApart(sems: map<nat, Sem<Pid>>) {
    forall id, jd, p :: At(sems, id, p) && At(sems, jd, p) ==> id == jd
  }

  /** `p` is in the queue of semaphore `id`. */
  predicate At(sems: map<nat, Sem<Pid>>, id: nat, p: Pid) {
    id in sems && p in sems[id].queue
  }

  ghost predicate QueuesHoldSleepers(k: State) {
    && (forall id, p :: At(k.sems, id, p) ==> p in k.procs && k.procs[p].reason == BLK_SEMAPHORE)
    && (forall p :: p in k.procs && k.procs[p].reason == BLK_SEMAPHORE ==> Queued(k, p))
  }

  /** The semaphore queues against the process table. */
  ghost predicate SemsInv(k: State) {
    QueuesSane(k.sems) && QueuesApart(k.sems) && QueuesHoldSleepers(k)
  }

  ghost predicate Queued(k: State, p: Pid) {
    exists id :: At(k.sems, id, p)
  }

  ghost predicate Inv(k: State) {
    Known(k) && SchedInv(k) && SemsInv(k)
  }

  // ---- the scheduler alone ----

  lemma HeadAndRest(s: seq<Pid>)
    requires Distinct(s) && s != []
    ensures s[0] in s && s[0] !in s[1..] && Distinct(s[1..])
    ensures forall p :: p in s <==> p == s[0] || p in s[1..]
  {
  }

  lemma DispatchKeeps(k: State)
    requires Partition(k, None) && Known(k) && k.ready != []
    ensures SchedInv(Dispatch(k)) && Dispatch(k).current == Some(k.ready[0])
  {
    HeadAndRest(k.ready);
    var u := Dispatch(k);
    forall p | p in u.procs
      ensures InPlace(u, p, u.current)
    {
      assert InPlace(k, p, None);
    }
  }

  /** With nobody running and everybody in place, idle waits in the ready queue. */
  lemma IdleIsReady(k: State)
    requires Partition(k, None)
    ensures k.ready != []
  {
  }

  /** The current process goes to the end of the ready queue. */
  lemma ParkKeeps(k: State, c: Pid)
    requires Partition(k, Some(c)) && c in k.procs
    ensures Partition(MakeReady(k, c), None)
    ensures MakeReady(k, c).ready == k.ready + [c]
  {
    assert InPlace(k, c, Some(c));
    WithoutAbsent(k.blocked, c);
    AppendDistinct(k.ready, c);
    var u := MakeReady(k, c);
    forall p | p in u.procs
      ensures InPlace(u, p, None)
    {
      assert InPlace(k, p, Some(c));
    }
  }

  /** A blocked process, or a new one, goes to the end of the ready queue. */
  lemma WakeKeeps(k: State, p: Pid)
    requires SchedInv(k) && p in k.procs && k.procs[p].status == BLOCKED
    ensures SchedInv(MakeReady(k, p))
  {
    assert InPlace(k, p, k.current);
    WithoutDistinct(k.blocked, p);
    AppendDistinct(k.ready, p);
    var u := MakeReady(k, p);
    forall q | q in u.procs
      ensures InPlace(u, q, u.current)
    {
      assert InPlace(k, q, k.current);
    }
  }

  lemma SpawnKeeps(k: State, p: Pid)
    requires SchedInv(k) && p !in k.procs
    ensures SchedInv(Spawn(k, p))
  {
    assert p !in k.ready && p !in k.blocked;
    WithoutAbsent(k.blocked, p);
    AppendDistinct(k.ready, p);
    var u := Spawn(k, p);
    forall q | q in u.procs
      ensures InPlace(u, q, u.current)
    {
      assert q != p ==> InPlace(k, q, k.current);
    }
  }

  lemma SetQuantumKeeps(k: State, p: Pid, q: nat)
    requires Partition(k, k.current) && p in k.procs
    ensures Partition(SetQuantum(k, p, q), k.current)
  {
  }

  lemma TickKeeps(k: State)
    requires SchedInv(k) && Known(k)
    ensures SchedInv(Tick(k))
  {
    if k.current.None? {
      IdleIsReady(k);
      DispatchKeeps(k);
    } else {
      var c := k.current.value;
      assert InPlace(k, c, k.current);
      if k.ready == [] {
        SetQuantumKeeps(k, c, k.procs[c].priority);
      } else if k.procs[c].quantum > 1 {
        SetQuantumKeeps(k, c, k.procs[c].quantum - 1);
      } else {
        SetQuantumKeeps(k, c, 0);
        RotateKeeps(SetQuantum(k, c, 0));
      }
    }
  }

  lemma RotateKeeps(k: State)
    requires Partition(k, k.current) && Known(k) && k.current.Some?
    ensures SchedInv(Rotate(k))
  {
    var c := k.current.value;
    assert InPlace(k, c, k.current);
    ParkKeeps(k, c);
    DispatchKeeps(MakeReady(k, c));
  }

  lemma YieldKeeps(k: State)
    requires SchedInv(k) && Known(k) && k.current.Some?
    ensures SchedInv(Yield(k))
  {
    var c := k.current.value;
    assert InPlace(k, c, k.current);
    SetQuantumKeeps(k, c, 0);
    var u := SetQuantum(k, c, 0);
    if k.ready == [] {
      SetQuantumKeeps(u, c, k.procs[c].priority);
    } else {
      assert SetQuantum(u, c, 0) == u;
      RotateKeeps(u);
    }
  }

  /** A ready process is taken out of the ready queue. */
  lemma BlockOtherKeeps(k: State, p: Pid, reason: Reason)
    requires SchedInv(k) && Known(k) && p in k.procs && p != IDLE && k.procs[p].status == READY && reason != BLK_NONE
    ensures k.current != Some(p) && SchedInv(BlockFor(k, p, reason))
    ensures var u := BlockFor(k, p, reason);
            && u.ready == Without(k.ready, p) && u.blocked == k.blocked + [p] && u.current == k.current
            && p !in u.ready && u.procs == k.procs[p := k.procs[p].(status := BLOCKED, reason := reason)]
  {
    assert InPlace(k, p, k.current);
    WithoutDistinct(k.ready, p);
    AppendDistinct(k.blocked, p);
    var u := BlockFor(k, p, reason);
    forall q | q in u.procs
      ensures InPlace(u, q, u.current)
    {
      assert InPlace(k, q, k.current);
    }
  }

  /** The current process `c`, taken off the processor and put to sleep. */
  function Asleep(k: State, c: Pid, reason: Reason): State
    requires c in k.procs
  {
    SetPcb(k, c, k.procs[c].(status := BLOCKED, reason := reason, quantum := 0)).(blocked := k.blocked + [c])
  }

  lemma AsleepParks(k: State, c: Pid, reason: Reason)
    requires Partition(k, Some(c)) && c in k.procs && c != IDLE
    ensures Partition(Asleep(k, c, reason), None)
  {
  }

  /** A process that blocks itself gives way at once to the head of the ready queue. */
  lemma BlockSelfIs(k: State, c: Pid, reason: Reason)
    requires Known(k) && k.current == Some(c) && c !in k.ready && k.ready != []
    ensures Known(Asleep(k, c, reason))
    ensures BlockFor(k, c, reason) == Dispatch(Asleep(k, c, reason))
  {
    WithoutAbsent(k.ready, c);
    var v := SetPcb(k, c, k.procs[c].(status := BLOCKED, reason := reason)).(blocked := k.blocked + [c]);
    assert SetQuantum(SetQuantum(v, c, 0), c, 0) == Asleep(k, c, reason);
  }

  lemma BlockSelfMoves(k: State, c: Pid, reason: Reason)
    requires Known(k) && k.current == Some(c) && c !in k.ready && k.ready != []
    ensures var u := BlockFor(k, c, reason);
            && u.sems == k.sems && u.current == Some(k.ready[0]) && u.ready == k.ready[1..]
            && u.blocked == k.blocked + [c] && c in u.procs
            && u.procs[c].status == BLOCKED && u.procs[c].reason == reason
  {
    BlockSelfIs(k, c, reason);
  }

  lemma BlockSelfKeeps(k: State, c: Pid, reason: Reason)
    requires SchedInv(k) && Known(k) && k.current == Some(c) && c != IDLE
    ensures k.ready != [] && c !in k.ready
    ensures SchedInv(BlockFor(k, c, reason)) && BlockFor(k, c, reason).current == Some(k.ready[0])
  {
    assert InPlace(k, c, k.current) && InPlace(k, IDLE, k.current);
    AsleepParks(k, c, reason);
    BlockSelfIs(k, c, reason);
    DispatchKeeps(Asleep(k, c, reason));
  }

  lemma PriorityKeeps(k: State, p: Pid, n: nat)
    requires SchedInv(k)
    ensures SchedInv(ChangePriority(k, p, n).0)
  {
    var u := ChangePriority(k, p, n).0;
    forall q | q in u.procs
      ensures InPlace(u, q, u.current)
    {
      assert InPlace(k, q, k.current);
    }
  }

  // ---- with the semaphores ----

  /** A step that leaves the semaphores and the reasons BLK_SEMAPHORE alone. */
  lemma SemsFrame(k: State, u: State)
    requires SemsInv(k) && u.sems == k.sems
    requires forall p :: p in k.procs ==> p in u.procs
    requires forall p :: p in u.procs ==>
               (u.procs[p].reason == BLK_SEMAPHORE <==> p in k.procs && k.procs[p].reason == BLK_SEMAPHORE)
    ensures SemsInv(u)
  {
  }

  lemma SemsKnown(k: State)
    requires SchedInv(k) && SemsInv(k)
    ensures Known(k)
  {
    assert forall id, p :: id in k.sems && p in k.sems[id].queue ==> At(k.sems, id, p);
  }

  lemma DispatchReasons(k: State)
    requires Known(k)
    ensures Dispatch(k).sems == k.sems && Dispatch(k).procs.Keys == k.procs.Keys
    ensures forall p :: p in k.procs ==> Dispatch(k).procs[p].reason == k.procs[p].reason
  {
  }

  /** A tick wakes and blocks nobody. */
  lemma TickReasons(k: State)
    requires Known(k) && (k.current.Some? ==> k.procs[k.current.value].reason == BLK_NONE)
    ensures Tick(k).sems == k.sems && Tick(k).procs.Keys == k.procs.Keys
    ensures forall p :: p in k.procs ==> Tick(k).procs[p].reason == k.procs[p].reason
  {
    if k.ready != [] && k.current.Some? && k.procs[k.current.value].quantum <= 1 {
      var u := SetQuantum(k, k.current.value, 0);
      if u.procs[k.current.value].status in {BLOCKED, ZOMBIE, DEAD} {
        DispatchReasons(u);
      } else {
        DispatchReasons(MakeReady(u, k.current.value));
      }
    }
  }

  lemma TickInv(k: State)
    requires Inv(k)
    ensures Inv(Tick(k))
  {
    assert k.current.Some? ==> InPlace(k, k.current.value, k.current);
    TickKeeps(k);
    TickReasons(k);
    SemsFrame(k, Tick(k));
    SemsKnown(Tick(k));
  }

  lemma YieldInv(k: State)
    requires Inv(k) && k.current.Some?
    ensures Inv(Yield(k))
  {
    var c := k.current.value;
    assert InPlace(k, c, k.current);
    YieldKeeps(k);
    TickReasons(SetQuantum(k, c, 0));
    SemsFrame(k, Yield(k));
    SemsKnown(Yield(k));
  }

  lemma BlockReasons(k: State, c: Pid, reason: Reason)
    requires SchedInv(k) && Known(k) && k.current == Some(c) && c != IDLE
    ensures var u := BlockFor(k, c, reason);
            && u.sems == k.sems && u.procs.Keys == k.procs.Keys
            && u.procs[c].reason == reason
            && forall p :: p in k.procs && p != c ==> u.procs[p].reason == k.procs[p].reason
  {
    BlockSelfKeeps(k, c, reason);
    BlockSelfIs(k, c, reason);
    DispatchReasons(Asleep(k, c, reason));
  }

  lemma BlockedReasons(k: State, p: Pid)
    requires SchedInv(k) && Known(k) && p in k.procs && p != IDLE && k.procs[p].status != BLOCKED
    ensures var u := BlockFor(k, p, BLK_ARBITRARY);
            && SchedInv(u) && u.sems == k.sems && u.procs.Keys == k.procs.Keys
            && u.procs[p].reason == BLK_ARBITRARY
            && forall q :: q in k.procs && q != p ==> u.procs[q].reason == k.procs[q].reason
  {
    assert InPlace(k, p, k.current);
    if k.current == Some(p) {
      BlockSelfKeeps(k, p, BLK_ARBITRARY);
      BlockReasons(k, p, BLK_ARBITRARY);
    } else {
      BlockOtherKeeps(k, p, BLK_ARBITRARY);
    }
  }

  lemma BlockInv(k: State, p: Pid)
    requires Inv(k) && p != IDLE && k.current.Some?
    ensures Inv(BlockByPid(k, p).0)
  {
    if p in k.procs && k.procs[p].status != BLOCKED {
      assert InPlace(k, p, k.current);
      BlockedReasons(k, p);
      SemsFrame(k, BlockFor(k, p, BLK_ARBITRARY));
      SemsKnown(BlockFor(k, p, BLK_ARBITRARY));
    }
  }

  /**
    Unblocking by pid a process that sleeps on a semaphore leaves it in that semaphore's queue;
    for every other sleeper the invariant is kept.
   */
  lemma UnblockKeepsIff(k: State, p: Pid)
    requires Inv(k) && p in k.procs && k.procs[p].status == BLOCKED
    ensures Inv(UnblockByPid(k, p).0) <==> k.procs[p].reason != BLK_SEMAPHORE
  {
    if k.procs[p].reason == BLK_SEMAPHORE {
      assert Queued(k, p);
      var id :| At(k.sems, id, p);
      assert At(UnblockByPid(k, p).0.sems, id, p);
    } else {
      UnblockInv(k, p);
    }
  }

  lemma UnblockInv(k: State, p: Pid)
    requires Inv(k) && (p in k.procs ==> k.procs[p].reason != BLK_SEMAPHORE)
    ensures Inv(UnblockByPid(k, p).0)
  {
    if p in k.procs && k.procs[p].status == BLOCKED {
      WakeKeeps(k, p);
      SemsFrame(k, MakeReady(k, p));
      SemsKnown(MakeReady(k, p));
    }
  }

  lemma SpawnInv(k: State, p: Pid)
    requires Inv(k) && p !in k.procs
    ensures Inv(Spawn(k, p))
  {
    SpawnKeeps(k, p);
    SemsFrame(k, Spawn(k, p));
    SemsKnown(Spawn(k, p));
  }

  lemma PriorityInv(k: State, p: Pid, n: nat)
    requires Inv(k)
    ensures Inv(ChangePriority(k, p, n).0)
  {
    PriorityKeeps(k, p, n);
    SemsFrame(k, ChangePriority(k, p, n).0);
    SemsKnown(ChangePriority(k, p, n).0);
  }

  lemma SameSched(k: State, u: State)
    requires SchedInv(k) && u == k.(sems := u.sems)
    ensures SchedInv(u)
  {
  }

  /** Changing one semaphore, whose queue gains nobody but perhaps the so far unqueued `c`. */
  lemma OneSemChanged(sems: map<nat, Sem<Pid>>, id: nat, s: Sem<Pid>, c: Option<Pid>)
    requires QueuesSane(sems) && QueuesApart(sems)
    requires Distinct(s.queue) && (s.value > 0 ==> s.queue == [])
    requires forall p :: p in s.queue ==> c == Some(p) || At(sems, id, p)
    requires c.Some? ==> forall jd: nat :: !At(sems, jd, c.value)
    ensures QueuesSane(sems[id := s]) && QueuesApart(sems[id := s])
  {
    var u := sems[id := s];
    forall jd: nat, p: Pid | At(u, jd, p)
      ensures At(sems, jd, p) || (jd == id && c == Some(p))
    {
    }
    forall jd: nat, kd: nat, p: Pid | At(u, jd, p) && At(u, kd, p)
      ensures jd == kd
    {
      assert At(sems, jd, p) || (jd == id && c == Some(p));
      assert At(sems, kd, p) || (kd == id && c == Some(p));
    }
  }

  /** The value of one semaphore changes, or it is new; nobody queues or leaves. */
  lemma ValueInv(k: State, id: nat, s: Sem<Pid>)
    requires Inv(k) && (s.value > 0 ==> s.queue == [])
    requires s.queue == if id in k.sems then k.sems[id].queue else []
    ensures Inv(k.(sems := k.sems[id := s]))
  {
    var u := k.(sems := k.sems[id := s]);
    assert forall jd, p :: At(u.sems, jd, p) <==> At(k.sems, jd, p);
    SameSched(k, u);
    OneSemChanged(k.sems, id, s, None);
    QueuersStay(k, u);
    SemsKnown(u);
  }

  lemma QueuersStay(k: State, u: State)
    requires QueuesHoldSleepers(k) && u == k.(sems := u.sems)
    requires forall id, p :: At(u.sems, id, p) <==> At(k.sems, id, p)
    ensures QueuesHoldSleepers(u)
  {
  }

  lemma CreateInv(k: State, id: nat, v: nat)
    requires Inv(k)
    ensures Inv(SemCreate(k, id, v).0)
  {
    if id < MAX_SEMAPHORES && id !in k.sems {
      ValueInv(k, id, Sem(v, []));
    }
  }

  lemma TryWaitInv(k: State, id: nat)
    requires Inv(k)
    ensures Inv(SemTryWait(k, id).0)
  {
    if id in k.sems {
      ValueInv(k, id, k.sems[id].TryWait());
    }
  }

  /** The process that ran has joined the queue of `id`, blocked, and the next ready one runs. */
  ghost predicate SleptOn(k: State, id: nat, u: State)
    requires k.current.Some? && id in k.sems
  {
    var c := k.current.value;
    && u.sems == k.sems[id := Sem(0, k.sems[id].queue + [c])]
    && k.ready != [] && u.current == Some(k.ready[0]) && u.ready == k.ready[1..]
    && u.blocked == k.blocked + [c] && c in u.procs
    && u.procs[c].status == BLOCKED && u.procs[c].reason == BLK_SEMAPHORE
  }

  lemma WaitInv(k: State, id: nat)
    requires Inv(k) && k.current.Some? && k.current != Some(IDLE)
    ensures Inv(SemWait(k, id).0)
    ensures id in k.sems && k.sems[id].value > 0 ==>
              SemWait(k, id).0 == k.(sems := k.sems[id := Sem(k.sems[id].value - 1, k.sems[id].queue)])
    ensures id in k.sems && k.sems[id].value == 0 ==> SleptOn(k, id, SemWait(k, id).0)
  {
    if id in k.sems {
      if k.sems[id].Passes() {
        ValueInv(k, id, k.sems[id].Wait(k.current.value));
      } else {
        WaitSleeps(k, id);
      }
    }
  }

  /** The state in which the current process has entered the queue of `id`, before it blocks. */
  function Enqueued(k: State, id: nat): State
    requires k.current.Some? && id in k.sems
  {
    k.(sems := k.sems[id := k.sems[id].Wait(k.current.value)])
  }

  lemma WaitSleeps(k: State, id: nat)
    requires Inv(k) && k.current.Some? && k.current != Some(IDLE) && id in k.sems && !k.sems[id].Passes()
    ensures Inv(SemWait(k, id).0) && SleptOn(k, id, SemWait(k, id).0)
  {
    WaitSleepsSched(k, id);
    SleepsWhere(k, id);
    WaitSleepsSems(k, id);
    SemsKnown(SemWait(k, id).0);
  }

  lemma SleepsWhere(k: State, id: nat)
    requires Inv(k) && k.current.Some? && k.current != Some(IDLE) && id in k.sems && !k.sems[id].Passes()
    ensures SleptOn(k, id, SemWait(k, id).0)
  {
    SameSched(k, Enqueued(k, id));
    assert InPlace(k, k.current.value, k.current) && InPlace(k, IDLE, k.current);
    BlockSelfMoves(Enqueued(k, id), k.current.value, BLK_SEMAPHORE);
  }

  lemma WaitSleepsSems(k: State, id: nat)
    requires Inv(k) && k.current.Some? && k.current != Some(IDLE) && id in k.sems && !k.sems[id].Passes()
    ensures SemsInv(SemWait(k, id).0)
  {
    WaitSleepsSched(k, id);
    EnqueuedApart(k, id);
    SleeperQueued(k, id, k.current.value, SemWait(k, id).0);
  }

  lemma WaitSleepsSched(k: State, id: nat)
    requires Inv(k) && k.current.Some? && k.current != Some(IDLE) && id in k.sems && !k.sems[id].Passes()
    ensures Known(Enqueued(k, id))
    ensures var c := k.current.value;
            var w := BlockFor(Enqueued(k, id), c, BLK_SEMAPHORE);
            && SchedInv(w) && w.sems == Enqueued(k, id).sems && w.procs.Keys == k.procs.Keys
            && w.procs[c].reason == BLK_SEMAPHORE
            && forall p :: p in k.procs && p != c ==> w.procs[p].reason == k.procs[p].reason
  {
    SameSched(k, Enqueued(k, id));
    BlockSelfKeeps(Enqueued(k, id), k.current.value, BLK_SEMAPHORE);
    BlockReasons(Enqueued(k, id), k.current.value, BLK_SEMAPHORE);
  }

  lemma EnqueuedApart(k: State, id: nat)
    requires Inv(k) && k.current.Some? && id in k.sems && !k.sems[id].Passes()
    ensures QueuesSane(Enqueued(k, id).sems) && QueuesApart(Enqueued(k, id).sems)
    ensures forall jd, p :: At(Enqueued(k, id).sems, jd, p) <==> At(k.sems, jd, p) || (jd == id && p == k.current.value)
  {
    var c := k.current.value;
    assert InPlace(k, c, k.current);
    assert !At(k.sems, id, c);
    AppendDistinct(k.sems[id].queue, c);
    OneSemChanged(k.sems, id, k.sems[id].Wait(c), Some(c));
  }

  lemma SleeperQueued(k: State, id: nat, c: Pid, w: State)
    requires QueuesHoldSleepers(k) && w.procs.Keys == k.procs.Keys
    requires forall jd, p :: At(w.sems, jd, p) <==> At(k.sems, jd, p) || (jd == id && p == c)
    requires c in k.procs && w.procs[c].reason == BLK_SEMAPHORE
    requires forall p :: p in k.procs && p != c ==> w.procs[p].reason == k.procs[p].reason
    ensures QueuesHoldSleepers(w)
  {
    forall p | p in w.procs && w.procs[p].reason == BLK_SEMAPHORE
      ensures Queued(w, p)
    {
      if p == c {
        assert At(w.sems, id, p);
      } else {
        assert Queued(k, p);
        var jd :| At(k.sems, jd, p);
        assert At(w.sems, jd, p);
      }
    }
  }

  lemma PostInv(k: State, id: nat)
    requires Inv(k)
    ensures Inv(SemPost(k, id).0)
    ensures id in k.sems && k.sems[id].queue == [] ==>
              SemPost(k, id).0 == k.(sems := k.sems[id := Sem(k.sems[id].value + 1, [])])
    ensures id in k.sems && k.sems[id].queue != [] ==>
              var h, u := k.sems[id].queue[0], SemPost(k, id).0;
              && u.sems == k.sems[id := Sem(k.sems[id].value, k.sems[id].queue[1..])]
              && u.ready == k.ready + [h] && h !in u.blocked && u.current == k.current
              && h in u.procs && u.procs[h].status == READY && !Queued(u, h)
  {
    if id in k.sems {
      if k.sems[id].queue == [] {
        ValueInv(k, id, k.sems[id].Post());
      } else {
        PostWakes(k, id);
      }
    }
  }

  lemma PostWakes(k: State, id: nat)
    requires Inv(k) && id in k.sems && k.sems[id].queue != []
    ensures Inv(SemPost(k, id).0)
    ensures var h := k.sems[id].queue[0];
            h !in SemPost(k, id).0.blocked && h in SemPost(k, id).0.procs && !Queued(SemPost(k, id).0, h)
  {
    var s := k.sems[id];
    var p := s.queue[0];
    var u := k.(sems := k.sems[id := s.Post()]);
    HeadAndRest(s.queue);
    assert At(k.sems, id, p);
    assert InPlace(k, p, k.current);
    SameSched(k, u);
    OneSemChanged(k.sems, id, s.Post(), None);
    WakeKeeps(u, p);
    HeadGone(k.sems, id);
    WokenLeaves(k, p, MakeReady(u, p));
    SemsKnown(MakeReady(u, p));
    assert InPlace(MakeReady(u, p), p, k.current);
  }

  lemma WokenLeaves(k: State, h: Pid, w: State)
    requires QueuesHoldSleepers(k) && w.procs.Keys == k.procs.Keys
    requires forall jd, q :: At(w.sems, jd, q) <==> At(k.sems, jd, q) && q != h
    requires h in k.procs && w.procs[h].reason == BLK_NONE
    requires forall p :: p in k.procs && p != h ==> w.procs[p].reason == k.procs[p].reason
    ensures QueuesHoldSleepers(w)
  {
  }

  /** A post takes the process it wakes out of the queues, and nobody else. */
  lemma HeadGone(sems: map<nat, Sem<Pid>>, id: nat)
    requires QueuesSane(sems) && QueuesApart(sems) && id in sems && sems[id].queue != []
    ensures forall jd, q :: At(sems[id := sems[id].Post()], jd, q) <==> At(sems, jd, q) && q != sems[id].queue[0]
  {
    HeadAndRest(sems[id].queue);
    assert At(sems, id, sems[id].queue[0]);
  }

  lemma StepInv(k: State, e: Event)
    requires Inv(k) && Allowed(k, e)
    ensures Inv(Step(k, e))
  {
    if e.CreateCall? || e.WaitCall? || e.PostCall? || e.TryWaitCall? {
      SemStepInv(k, e);
    } else {
      SchedStepInv(k, e);
    }
  }

  lemma SemStepInv(k: State, e: Event)
    requires Inv(k) && Allowed(k, e) && (e.CreateCall? || e.WaitCall? || e.PostCall? || e.TryWaitCall?)
    ensures Inv(Step(k, e))
  {
    match e
    case CreateCall(id, v) => CreateInv(k, id, v);
    case WaitCall(id) => WaitInv(k, id);
    case PostCall(id) => PostInv(k, id);
    case TryWaitCall(id) => TryWaitInv(k, id);
  }

  lemma SchedStepInv(k: State, e: Event)
    requires Inv(k) && Allowed(k, e) && !(e.CreateCall? || e.WaitCall? || e.PostCall? || e.TryWaitCall?)
    ensures Inv(Step(k, e))
  {
    match e
    case TimerTick => TickInv(k);
    case YieldCall => YieldInv(k);
    case SpawnCall(p) => SpawnInv(k, p);
    case BlockCall(p) => BlockInv(k, p);
    case UnblockCall(p) => UnblockInv(k, p);
    case PriorityCall(p, n) => PriorityInv(k, p, n);
  }

  // ---- every run ----

  /** The state when the first process, idle, has been spawned and no tick has happened yet. */
  function Boot(): State {
    Spawn(State(map[], [], [], None, map[], false), IDLE)
  }

  lemma BootInv()
    ensures Inv(Boot())
  {
    assert InPlace(Boot(), IDLE, None);
  }

  /** Each event is allowed when it happens. */
  ghost predicate Runs(k: State, events: seq<Event>)
    requires Inv(k)
    decreases |events|
  {
    events == [] ||
    (Allowed(k, events[0]) && (StepInv(k, events[0]); Runs(Step(k, events[0]), events[1..])))
  }

  ghost function After(k: State, events: seq<Event>): (u: State)
    requires Inv(k) && Runs(k, events)
    ensures Inv(u)
    decreases |events|
  {
    if events == [] then k
    else
      StepInv(k, events[0]);
      After(Step(k, events[0]), events[1..])
  }

  /** The places of the processes, and of the semaphores' sleepers, in every reachable state. */
  lemma EveryProcessInOnePlace(events: seq<Event>)
    requires (BootInv(); Runs(Boot(), events))
    ensures var k := (BootInv(); After(Boot(), events));
            && !k.halted
            && Distinct(k.ready) && Distinct(k.blocked)
            && (forall p :: p in k.procs ==>
                  || (k.current == Some(p) && k.procs[p].status == RUNNING && p !in k.ready && p !in k.blocked)
                  || (k.current != Some(p) && k.procs[p].status == READY && p in k.ready && p !in k.blocked)
                  || (k.current != Some(p) && k.procs[p].status == BLOCKED && p !in k.ready && p in k.blocked))
            && (forall p :: p in k.procs ==>
                  (k.procs[p].status == BLOCKED && k.procs[p].reason == BLK_SEMAPHORE <==> Queued(k, p)))
            && (forall id, jd, p :: At(k.sems, id, p) && At(k.sems, jd, p) ==> id == jd)
            && (forall id :: id in k.sems ==> Distinct(k.sems[id].queue))
  {
    BootInv();
    var k := After(Boot(), events);
    forall p | p in k.procs
      ensures InPlace(k, p, k.current)
      ensures k.procs[p].reason == BLK_SEMAPHORE <==> Queued(k, p)
    {
      if Queued(k, p) {
        var id :| At(k.sems, id, p);
      }
    }
  }
}
