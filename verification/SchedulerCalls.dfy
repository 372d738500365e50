/**
  What each kernel entry answers and does, said of the processes and semaphores it touches and of
  those it leaves alone. Every answer is tied to the change of state it stands for.
 */
module SchedulerCalls {
  import opened Basics
  import opened Semaphores
  import opened Sequences
  import opened SchedulerModel
  import opened SchedulerPartition
  import opened SchedulerFairness

  /** Nothing but process `p` and the queues of the scheduler may differ. */
  ghost predicate OnlyProcess(k: State, u: State, p: Pid) {
    && u.procs.Keys == k.procs.Keys + {p} && u.sems == k.sems && u.halted == k.halted
    && forall q :: q in k.procs && q != p ==> u.procs[q] == k.procs[q]
  }

  /** `h` has left the head of the ready queue for the processor, with a full quantum. */
  ghost predicate Started(k: State, u: State, h: Pid) {
    && k.ready != [] && h == k.ready[0] && u.current == Some(h) && h in k.procs && h in u.procs
    && u.procs[h] == k.procs[h].(status := RUNNING, quantum := k.procs[h].priority)
  }

  /** Nothing but processes `p` and `h` and the queues of the scheduler may differ. */
  ghost predicate OnlyProcesses(k: State, u: State, p: Pid, h: Pid) {
    && u.procs.Keys == k.procs.Keys && u.sems == k.sems && u.halted == k.halted
    && forall q :: q in k.procs && q != p && q != h ==> u.procs[q] == k.procs[q]
  }

  lemma DispatchDoes(k: State)
    requires Known(k) && k.ready != []
    ensures var u := Dispatch(k);
            && Started(k, u, k.ready[0]) && u.ready == k.ready[1..] && u.blocked == k.blocked
            && OnlyProcess(k, u, k.ready[0])
  {
  }

  // ---- blocking and unblocking by pid ----

  /** The answers of block_process_by_pid, in any state. */
  lemma BlockAnswers(k: State, p: Pid)
    requires Known(k)
    ensures var (u, code) := BlockByPid(k, p);
            && (code == -1 <==> p !in k.procs || k.procs[p].status in {ZOMBIE, DEAD})
            && (code != -1 ==> code == 0)
            && (p !in k.procs || k.procs[p].status in {ZOMBIE, DEAD, BLOCKED} ==> u == k)
  {
  }

  /** A process that is ready leaves the ready queue for the end of the blocked one. */
  lemma BlockReadyDoes(k: State, p: Pid)
    requires Inv(k) && p in k.procs && k.procs[p].status == READY && p != IDLE && k.current.Some?
    ensures var u := Step(k, BlockCall(p));
            && BlockByPid(k, p) == (u, 0)
            && p in u.procs && u.procs[p] == k.procs[p].(status := BLOCKED, reason := BLK_ARBITRARY)
            && u.blocked == k.blocked + [p] && p !in u.ready && u.ready == Without(k.ready, p)
            && u.current == k.current && OnlyProcess(k, u, p)
  {
    BlockOtherKeeps(k, p, BLK_ARBITRARY);
  }

  /** The process that runs stops, and the head of the ready queue runs. */
  lemma BlockRunningDoes(k: State, p: Pid)
    requires Inv(k) && p in k.procs && k.procs[p].status == RUNNING && p != IDLE
    ensures k.current == Some(p) && k.ready != []
    ensures var u := Step(k, BlockCall(p));
            && BlockByPid(k, p) == (u, 0)
            && p in u.procs && u.procs[p] == k.procs[p].(status := BLOCKED, reason := BLK_ARBITRARY, quantum := 0)
            && u.blocked == k.blocked + [p] && p !in u.ready && u.ready == k.ready[1..]
            && Started(k, u, k.ready[0]) && OnlyProcesses(k, u, p, k.ready[0])
  {
    BlockRunningIs(k, p);
    AsleepStops(k, p);
  }

  lemma BlockRunningIs(k: State, p: Pid)
    requires Inv(k) && p in k.procs && k.procs[p].status == RUNNING && p != IDLE
    ensures k.current == Some(p) && k.ready != [] && p !in k.ready && Known(Asleep(k, p, BLK_ARBITRARY))
    ensures BlockByPid(k, p) == (Dispatch(Asleep(k, p, BLK_ARBITRARY)), 0)
    ensures Step(k, BlockCall(p)) == Dispatch(Asleep(k, p, BLK_ARBITRARY))
  {
    assert InPlace(k, p, k.current) && InPlace(k, IDLE, k.current);
    BlockSelfIs(k, p, BLK_ARBITRARY);
  }

  lemma AsleepStops(k: State, p: Pid)
    requires p in k.procs && p !in k.ready && k.ready != [] && Known(k) && Known(Asleep(k, p, BLK_ARBITRARY))
    ensures var u := Dispatch(Asleep(k, p, BLK_ARBITRARY));
            && p in u.procs && u.procs[p] == k.procs[p].(status := BLOCKED, reason := BLK_ARBITRARY, quantum := 0)
            && u.blocked == k.blocked + [p] && p !in u.ready && u.ready == k.ready[1..]
            && Started(k, u, k.ready[0]) && OnlyProcesses(k, u, p, k.ready[0])
  {
    DispatchDoes(Asleep(k, p, BLK_ARBITRARY));
    assert k.ready[0] in k.ready;
  }

  /** The answer 0 with nothing changed is for a blocked process and no other. */
  lemma BlockNothingIff(k: State, p: Pid)
    requires Inv(k) && p != IDLE && k.current.Some?
    ensures BlockByPid(k, p) == (k, 0) <==> p in k.procs && k.procs[p].status == BLOCKED
    ensures BlockByPid(k, p).1 == 0 <==>
            p in BlockByPid(k, p).0.procs && BlockByPid(k, p).0.procs[p].status == BLOCKED
  {
    if p in k.procs {
      assert InPlace(k, p, k.current);
      if k.procs[p].status == READY {
        BlockReadyDoes(k, p);
      } else if k.procs[p].status == RUNNING {
        BlockRunningDoes(k, p);
      }
    }
  }

  /** unblock_process_by_pid: a blocked process goes to the end of the ready queue. */
  lemma UnblockDoes(k: State, p: Pid)
    requires Inv(k)
    ensures var (u, code) := UnblockByPid(k, p);
            && code == (if p in k.procs then 0 else -1)
            && (u == k <==> p !in k.procs || k.procs[p].status != BLOCKED)
            && (p in k.procs && k.procs[p].status == BLOCKED ==>
                  && u.procs[p] == k.procs[p].(status := READY, reason := BLK_NONE)
                  && u.ready == k.ready + [p] && p !in u.blocked && u.blocked == Without(k.blocked, p)
                  && u.current == k.current && OnlyProcess(k, u, p))
    ensures Allowed(k, UnblockCall(p)) ==> Step(k, UnblockCall(p)) == UnblockByPid(k, p).0
  {
    if p in k.procs {
      assert InPlace(k, p, k.current);
      WithoutDistinct(k.blocked, p);
    }
  }

  // ---- new processes, yields and ticks ----

  /** A new process waits last in the ready queue, a child of the process that runs. */
  lemma SpawnDoes(k: State, p: Pid)
    requires Inv(k) && p !in k.procs
    ensures var u := Step(k, SpawnCall(p));
            && p in u.procs && u.procs[p] == Pcb(READY, BLK_NONE, QUANTUM_DEFAULT, 0, k.current)
            && u.ready == k.ready + [p] && u.blocked == k.blocked && u.current == k.current && OnlyProcess(k, u, p)
  {
    assert p !in k.blocked;
    WithoutAbsent(k.blocked, p);
  }

  /** The process `c` has gone from the processor to the end of the ready queue, and its head runs. */
  ghost predicate HandedOver(k: State, u: State, c: Pid) {
    && c in k.procs && c in u.procs && u.procs[c] == k.procs[c].(status := READY, quantum := 0)
    && k.ready != [] && u.ready == k.ready[1..] + [c] && u.blocked == k.blocked
    && Started(k, u, k.ready[0]) && OnlyProcesses(k, u, c, k.ready[0])
  }

  /** The process that runs keeps the processor, and only its quantum changes. */
  ghost predicate StaysOn(k: State, u: State, quantum: nat)
    requires k.current.Some?
  {
    && u.current == k.current && u.ready == k.ready && u.blocked == k.blocked && OnlyProcess(k, u, k.current.value)
    && k.current.value in k.procs && u.procs[k.current.value] == k.procs[k.current.value].(quantum := quantum)
  }

  lemma RotateHandsOver(k: State, c: Pid)
    requires Inv(k) && k.current == Some(c) && k.ready != []
    ensures HandedOver(k, Rotate(SetQuantum(k, c, 0)), c)
  {
    assert InPlace(k, c, k.current);
    WithoutAbsent(k.blocked, c);
    RequeuedIs(k, c);
    QueuesUp(k, c);
  }

  /** The state in which `c` waits again for the processor. */
  function Requeued(k: State, c: Pid): State
    requires c in k.procs
  {
    SetPcb(k, c, k.procs[c].(status := READY, quantum := 0)).(ready := k.ready + [c])
  }

  lemma RequeuedIs(k: State, c: Pid)
    requires c in k.procs && k.procs[c].reason == BLK_NONE && Without(k.blocked, c) == k.blocked
    ensures MakeReady(SetQuantum(k, c, 0), c) == Requeued(k, c)
  {
  }

  lemma QueuesUp(k: State, c: Pid)
    requires Known(k) && c in k.procs && c !in k.ready && k.ready != []
    ensures HandedOver(k, Dispatch(Requeued(k, c)), c)
  {
    var u := Requeued(k, c);
    DispatchDoes(u);
    assert u.ready[0] == k.ready[0] && u.ready[0] in k.ready && u.ready[1..] == k.ready[1..] + [c];
  }

  /** yield gives up the processor, unless nobody else can run. */
  lemma YieldDoes(k: State)
    requires Inv(k) && k.current.Some?
    ensures k.current.value in k.procs
    ensures var c, u := k.current.value, Step(k, YieldCall);
            if k.ready == [] then StaysOn(k, u, k.procs[c].priority) else HandedOver(k, u, c)
  {
    assert InPlace(k, k.current.value, k.current);
    YieldIs(k, k.current.value);
    if k.ready != [] {
      RotateHandsOver(k, k.current.value);
    }
  }

  lemma YieldIs(k: State, c: Pid)
    requires Known(k) && k.current == Some(c) && k.procs[c].status == RUNNING
    ensures Yield(k) == if k.ready == [] then SetQuantum(k, c, k.procs[c].priority) else Rotate(SetQuantum(k, c, 0))
  {
    assert SetQuantum(SetQuantum(k, c, 0), c, 0) == SetQuantum(k, c, 0);
    assert SetQuantum(SetQuantum(k, c, 0), c, k.procs[c].priority) == SetQuantum(k, c, k.procs[c].priority);
  }

  /** One tick: the first dispatch, a full quantum for a process alone, a used tick, or the end of a turn. */
  lemma TickDoes(k: State)
    requires Inv(k)
    ensures k.current.Some? ==> k.current.value in k.procs
    ensures var u := Step(k, TimerTick);
            if k.current.None? then
              && k.ready != [] && Started(k, u, k.ready[0]) && u.ready == k.ready[1..] && u.blocked == k.blocked
              && OnlyProcess(k, u, k.ready[0])
            else
              var b := k.procs[k.current.value];
              if k.ready == [] then StaysOn(k, u, b.priority)
              else if b.quantum > 1 then StaysOn(k, u, b.quantum - 1)
              else HandedOver(k, u, k.current.value)
  {
    if k.current.None? {
      IdleIsReady(k);
      HeadAndRest(k.ready);
    } else {
      assert InPlace(k, k.current.value, k.current);
      if k.ready != [] && k.procs[k.current.value].quantum <= 1 {
        RotateHandsOver(k, k.current.value);
      }
    }
  }

  // ---- priorities ----

  /** change_priority: 0 exactly for a child of the caller and a priority within the bounds, which it gets. */
  lemma PriorityDoes(k: State, child: Pid, n: nat)
    requires Known(k)
    ensures var (u, code) := ChangePriority(k, child, n);
            && (code == 0 <==> child in k.procs && k.procs[child].parent == k.current && 1 <= n <= QUANTUM_MAX)
            && (code != 0 ==> code == -1 && u == k)
            && (code == 0 ==>
                  && child in u.procs && u.procs[child] == k.procs[child].(priority := n, quantum := n)
                  && u.ready == k.ready && u.blocked == k.blocked && u.current == k.current && OnlyProcess(k, u, child))
    ensures Step(k, PriorityCall(child, n)) == ChangePriority(k, child, n).0
  {
  }

  /**
    The next turn of a ready child lasts exactly `n` ticks after its priority was set to `n`: it runs
    for that long once its turn comes, not before, and not on the tick after.
   */
  lemma PriorityIsNextTurn(k: State, n: nat, tr: seq<State>, i: nat, at: nat)
    requires Inv(k) && k.current.Some? && i < |k.ready|
    requires ChangePriority(k, k.ready[i], n).1 == 0
    requires TickTrace(tr) && tr[0] == ChangePriority(k, k.ready[i], n).0 && at < |tr|
    ensures Known(tr[0]) && tr[0].current.Some? && tr[0].ready == k.ready
    ensures var child, start := k.ready[i], TurnStart(tr[0], i + 1);
            && (at < start ==> tr[at].current != Some(child))
            && (start <= at < start + n ==> tr[at].current == Some(child))
            && (at == start + n ==> tr[at].current != Some(child))
  {
    var child, u := k.ready[i], tr[0];
    PriorityInv(k, child, n);
    InvTurns(u);
    TurnOf(tr, i, at);
    NextStart(u, i + 1);
    if at == TurnStart(u, i + 1) + n {
      TurnIsOver(tr, i + 1);
    }
  }

  lemma TurnIsOver(tr: seq<State>, m: nat)
    requires TickTrace(tr) && Turning(tr[0]) && 0 < m <= |tr[0].ready| && Ring(tr[0])[m] in tr[0].procs
    requires TurnStart(tr[0], m) + tr[0].procs[Ring(tr[0])[m]].priority < |tr|
    ensures tr[TurnStart(tr[0], m) + tr[0].procs[Ring(tr[0])[m]].priority].current != Some(Ring(tr[0])[m])
  {
    var s := TurnStart(tr[0], m);
    TurnBegins(tr, m);
    TurningAtTurn(tr[0], tr[s], m);
    TurnEnds(tr, s);
    assert Ring(tr[s])[0] != Ring(tr[s])[1];
  }

  // ---- semaphores ----

  /** Nothing but semaphore `id` may differ. */
  ghost predicate OnlySem(k: State, u: State, id: nat) {
    && u == k.(sems := u.sems) && u.sems.Keys == k.sems.Keys + {id}
    && forall jd :: jd in k.sems && jd != id ==> u.sems[jd] == k.sems[jd]
  }

  /** my_sem_create opens a semaphore of that value that nobody waits on, or answers -1. */
  lemma CreateAnswers(k: State, id: nat, value: nat)
    requires Known(k)
    ensures var (u, code) := SemCreate(k, id, value);
            && (code == 0 <==> id < MAX_SEMAPHORES && id !in k.sems)
            && (code == 0 ==> id in u.sems && u.sems[id] == Sem(value, []) && OnlySem(k, u, id))
            && (code != 0 ==> code == -1 && u == k)
    ensures Step(k, CreateCall(id, value)) == SemCreate(k, id, value).0
  {
  }

  /** my_sem_trywait: 0 exactly when it took a unit, 1 exactly on an open semaphore without one. */
  lemma TryWaitAnswers(k: State, id: nat)
    requires Known(k)
    ensures var (u, code) := SemTryWait(k, id);
            && (code == 0 <==> id in k.sems && id in u.sems && u.sems[id].value == k.sems[id].value - 1)
            && (code == 0 <==> id in k.sems && k.sems[id].value > 0)
            && (code == 0 ==> u.sems[id].queue == k.sems[id].queue && OnlySem(k, u, id))
            && (code == 1 <==> id in k.sems && k.sems[id].value == 0)
            && (code == -1 <==> id !in k.sems)
            && (code == 0 || code == 1 || code == -1)
            && (code != 0 <==> u == k)
    ensures Step(k, TryWaitCall(id)) == SemTryWait(k, id).0
  {
  }

  /** my_sem_wait answers -1 on a closed semaphore; the answer 0 is a unit taken or a sleep begun. */
  lemma WaitAnswers(k: State, id: nat)
    requires Inv(k) && k.current.Some? && k.current != Some(IDLE)
    ensures var (u, code) := SemWait(k, id);
            && code == (if id in k.sems then 0 else -1)
            && (code == -1 <==> u == k)
            && (code == 0 ==>
                  if k.sems[id].value > 0 then
                    id in u.sems && u.sems[id] == Sem(k.sems[id].value - 1, k.sems[id].queue) && OnlySem(k, u, id)
                  else
                    SleptOn(k, id, u))
    ensures Step(k, WaitCall(id)) == SemWait(k, id).0
  {
    WaitInv(k, id);
    if id in k.sems && k.sems[id].value == 0 {
      assert |k.sems[id].queue + [k.current.value]| > |k.sems[id].queue|;
    }
  }

  /** my_sem_post answers -1 on a closed semaphore; the answer 0 is a unit more or a waiter released. */
  lemma PostAnswers(k: State, id: nat)
    requires Inv(k)
    ensures var (u, code) := SemPost(k, id);
            && code == (if id in k.sems then 0 else -1)
            && (code == -1 <==> u == k)
            && (code == 0 && k.sems[id].queue == [] ==>
                  id in u.sems && u.sems[id] == Sem(k.sems[id].value + 1, []) && OnlySem(k, u, id))
            && (code == 0 && k.sems[id].queue != [] ==>
                  var h := k.sems[id].queue[0];
                  && u.ready == k.ready + [h] && h in u.procs && u.procs[h].status == READY && !Queued(u, h)
                  && u.sems == k.sems[id := Sem(k.sems[id].value, k.sems[id].queue[1..])]
                  && u.current == k.current && OnlyProcess(k, u.(sems := k.sems), h))
    ensures Step(k, PostCall(id)) == SemPost(k, id).0
  {
    PostInv(k, id);
    if id in k.sems && k.sems[id].queue != [] {
      assert At(k.sems, id, k.sems[id].queue[0]);
    }
  }
}
