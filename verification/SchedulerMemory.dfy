/**
  What becomes of a process when `enqueue` finds no memory for a queue's node. `proc_ready`, `block`
  and `my_sem_wait` do not look at its answer; each place where they call it is taken here with a flag
  that says whether the memory was there.
 */
module SchedulerMemory {
  import opened Basics
  import opened Sequences
  import opened SchedulerModel
  import opened SchedulerPartition

  function Appended(s: seq<Pid>, p: Pid, memory: bool): seq<Pid> {
    if memory then s + [p] else s
  }

  /** The process does not run and no scheduling queue holds it. */
  predicate Nowhere(k: State, p: Pid) {
    k.current != Some(p) && p !in k.ready && p !in k.blocked
  }

  lemma NowhereBreaks(k: State, p: Pid)
    requires p in k.procs && Nowhere(k, p)
    ensures !SchedInv(k)
  {
    assert !InPlace(k, p, k.current);
  }

  /** proc_ready */
  function MadeReady(k: State, p: Pid, memory: bool): State
    requires p in k.procs
  {
    MakeReady(k, p).(ready := Appended(k.ready, p, memory))
  }

  /** A woken process is lost without memory for its node in the ready queue, and only then. */
  lemma ReadyNeedsMemory(k: State, p: Pid, memory: bool)
    requires SchedInv(k) && p in k.procs && k.procs[p].status == BLOCKED
    ensures SchedInv(MadeReady(k, p, memory)) <==> memory
    ensures Nowhere(MadeReady(k, p, memory), p) <==> !memory
  {
    assert InPlace(k, p, k.current);
    WakeKeeps(k, p);
    WithoutDistinct(k.blocked, p);
    if !memory {
      NowhereBreaks(MadeReady(k, p, memory), p);
    }
  }

  /** The end of a turn of a process that can run on. */
  function Rotated(k: State, c: Pid, memory: bool): State
    requires Known(k) && c in k.procs
  {
    Dispatch(MadeReady(k, c, memory))
  }

  /** Who runs after the turn of `c`, and who is ready then. */
  lemma RotatedMoves(k: State, c: Pid, memory: bool)
    requires Known(k) && c in k.procs && c !in k.blocked && k.ready != []
    ensures var u := Rotated(k, c, memory);
            && u.current == Some(k.ready[0]) && u.ready == Appended(k.ready[1..], c, memory)
            && u.blocked == k.blocked && c in u.procs
  {
    WithoutAbsent(k.blocked, c);
    assert (k.ready + [c])[1..] == k.ready[1..] + [c];
  }

  /** So is a process whose turn ends. */
  lemma TurnNeedsMemory(k: State, c: Pid, memory: bool)
    requires SchedInv(k) && Known(k) && k.current == Some(c) && k.ready != []
    ensures memory ==> Rotated(k, c, memory) == Rotate(k)
    ensures SchedInv(Rotated(k, c, memory)) <==> memory
    ensures Nowhere(Rotated(k, c, memory), c) <==> !memory
  {
    assert InPlace(k, c, k.current);
    HeadAndRest(k.ready);
    RotatedMoves(k, c, memory);
    if memory {
      RotateKeeps(k);
    } else {
      NowhereBreaks(Rotated(k, c, memory), c);
    }
  }

  /** block, up to the yield of a process that blocks itself. */
  function Stopped(k: State, p: Pid, reason: Reason, memory: bool): State
    requires p in k.procs
  {
    SetPcb(k, p, k.procs[p].(status := BLOCKED, reason := reason)).(
      ready := Without(k.ready, p),
      blocked := Appended(k.blocked, p, memory))
  }

  /** block */
  function Blocked(k: State, p: Pid, reason: Reason, memory: bool): State
    requires Known(k) && p in k.procs
  {
    WithoutKnown(k.ready, p);
    var u := Stopped(k, p, reason, memory);
    if k.current == Some(p) then Yield(u) else u
  }

  /** A process that blocks itself runs no more, whether or not its node was made. */
  lemma StoppedYields(k: State, p: Pid, reason: Reason, memory: bool)
    requires SchedInv(k) && Known(k) && k.current == Some(p) && p != IDLE
    ensures k.ready != [] && p !in k.ready && p !in k.blocked
    ensures var u := Blocked(k, p, reason, memory);
            && u.current == Some(k.ready[0]) && u.ready == k.ready[1..]
            && u.blocked == Appended(k.blocked, p, memory) && p in u.procs
  {
    assert InPlace(k, p, k.current) && InPlace(k, IDLE, k.current);
    WithoutAbsent(k.ready, p);
  }

  /** A blocked process is lost without memory for its node in the blocked queue, and only then. */
  lemma BlockNeedsMemory(k: State, p: Pid, reason: Reason, memory: bool)
    requires SchedInv(k) && Known(k) && p in k.procs && p != IDLE && k.procs[p].status != BLOCKED
    requires reason != BLK_NONE
    ensures memory ==> Blocked(k, p, reason, memory) == BlockFor(k, p, reason)
    ensures SchedInv(Blocked(k, p, reason, memory)) <==> memory
    ensures Nowhere(Blocked(k, p, reason, memory), p) <==> !memory
  {
    assert InPlace(k, p, k.current);
    if k.current == Some(p) {
      StoppedYields(k, p, reason, memory);
      HeadAndRest(k.ready);
      BlockSelfKeeps(k, p, reason);
    } else {
      WithoutDistinct(k.ready, p);
      BlockOtherKeeps(k, p, reason);
    }
    if !memory {
      NowhereBreaks(Blocked(k, p, reason, memory), p);
    }
  }

  /** The queue of `id` after its enqueue. */
  function Lined(k: State, id: nat, c: Pid, memory: bool): State
    requires id in k.sems
  {
    k.(sems := k.sems[id := k.sems[id].(queue := Appended(k.sems[id].queue, c, memory))])
  }

  /** my_sem_wait without a unit: the node in the semaphore's queue, then the one in the blocked queue. */
  function Waited(k: State, id: nat, lined: bool, memory: bool): State
    requires Known(k) && k.current.Some? && id in k.sems
  {
    Blocked(Lined(k, id, k.current.value, lined), k.current.value, BLK_SEMAPHORE, memory)
  }

  /** The caller sleeps in no semaphore's queue, where no post finds it. */
  predicate Stranded(k: State, p: Pid) {
    && p in k.procs && k.procs[p].reason == BLK_SEMAPHORE
    && forall id :: id in k.sems ==> p !in k.sems[id].queue
  }

  lemma WaitNeedsMemory(k: State, id: nat, lined: bool, memory: bool)
    requires Inv(k) && k.current.Some? && k.current != Some(IDLE) && id in k.sems && k.sems[id].value == 0
    ensures lined && memory ==> Waited(k, id, lined, memory) == SemWait(k, id).0
    ensures Inv(Waited(k, id, lined, memory)) <==> lined && memory
    ensures Nowhere(Waited(k, id, lined, memory), k.current.value) <==> !memory
    ensures Stranded(Waited(k, id, lined, memory), k.current.value) <==> !lined
  {
    var c := k.current.value;
    var v := Lined(k, id, c, lined);
    var w := Waited(k, id, lined, memory);
    SameSched(k, v);
    BlockNeedsMemory(v, c, BLK_SEMAPHORE, memory);
    if lined && memory {
      WaitInv(k, id);
    }
    LinedWaits(k, id, lined, memory);
    if !lined {
      StrandedBreaks(w, c);
    }
  }

  lemma LinedWaits(k: State, id: nat, lined: bool, memory: bool)
    requires Inv(k) && k.current.Some? && k.current != Some(IDLE) && id in k.sems && k.sems[id].value == 0
    ensures Stranded(Waited(k, id, lined, memory), k.current.value) <==> !lined
  {
    var c := k.current.value;
    assert InPlace(k, c, k.current);
    assert forall jd :: jd in k.sems && c in k.sems[jd].queue ==> At(k.sems, jd, c);
    var v := Lined(k, id, c, lined);
    StoppedReason(v, c, memory);
    assert lined ==> v.sems[id].queue == k.sems[id].queue + [c];
  }

  lemma StoppedReason(k: State, c: Pid, memory: bool)
    requires Known(k) && k.current == Some(c)
    ensures var u := Blocked(k, c, BLK_SEMAPHORE, memory);
            u.sems == k.sems && c in u.procs && u.procs[c].reason == BLK_SEMAPHORE
  {
    WithoutKnown(k.ready, c);
    var u := SetQuantum(Stopped(k, c, BLK_SEMAPHORE, memory), c, 0);
    DispatchReasons(SetQuantum(u, c, 0));
  }

  lemma StrandedBreaks(k: State, p: Pid)
    requires Stranded(k, p)
    ensures !Inv(k)
  {
    assert !Queued(k, p);
  }
}
