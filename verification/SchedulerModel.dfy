/**
  The state of the scheduler and of the semaphore table, and what each kernel entry does
  to it. Interrupts are off inside the kernel, so each entry is one atomic step; an entry
  that blocks its caller ends with the tick that `yield` raises.
 */
module SchedulerModel {
  import opened Basics
  import opened Semaphores
  import opened Sequences

  const QUANTUM_MAX: nat := 5
  const QUANTUM_DEFAULT: nat := 2
  const MAX_SEMAPHORES: nat := 1024
  const IDLE: Pid := 0

  datatype Status = DEAD | READY | RUNNING | ZOMBIE | BLOCKED

  datatype Reason = BLK_NONE | BLK_ARBITRARY | BLK_SEMAPHORE

  datatype Pcb = Pcb(status: Status, reason: Reason, priority: nat, quantum: nat, parent: Option<Pid>)

  datatype State = State(
    procs: map<Pid, Pcb>,
    ready: seq<Pid>,
    blocked: seq<Pid>,
    current: Option<Pid>,
    sems: map<nat, Sem<Pid>>,
    halted: bool)

  /** Queue entries and the current process are entries of the process table. */
  predicate Known(k: State) {
    && (forall p :: p in k.ready ==> p in k.procs)
    && (k.current.Some? ==> k.current.value in k.procs)
    && (forall id, p :: id in k.sems && p in k.sems[id].queue ==> p in k.procs)
  }

  function SetPcb(k: State, p: Pid, b: Pcb): State {
    k.(procs := k.procs[p := b])
  }

  /** proc_ready */
  function MakeReady(k: State, p: Pid): State
    requires p in k.procs
  {
    SetPcb(k, p, k.procs[p].(status := READY, reason := BLK_NONE)).(
      ready := k.ready + [p],
      blocked := Without(k.blocked, p))
  }

  /** enqueue_next_process: the kernel hangs when nothing is ready. */
  function Dispatch(k: State): State
    requires Known(k)
  {
    if k.ready == [] then
      k.(current := None, halted := true)
    else
      var p := k.ready[0];
      SetPcb(k, p, k.procs[p].(status := RUNNING, quantum := k.procs[p].priority)).(
        current := Some(p),
        ready := k.ready[1..])
  }

  /** The current process gives way: back to the ready queue unless it cannot run. */
  function Rotate(k: State): State
    requires Known(k) && k.current.Some?
  {
    var c := k.current.value;
    if k.procs[c].status in {BLOCKED, ZOMBIE, DEAD} then Dispatch(k) else Dispatch(MakeReady(k, c))
  }

  /** schedule: one timer tick. */
  function Tick(k: State): State
    requires Known(k)
  {
    if k.ready == [] then
      if k.current.None? || k.procs[k.current.value].status != RUNNING then
        k.(halted := true)
      else
        Refill(k, k.current.value)
    else if k.current.None? then
      Dispatch(k)
    else
      var c := k.current.value;
      var q := k.procs[c].quantum;
      if q > 1 then SetQuantum(k, c, q - 1) else Rotate(SetQuantum(k, c, 0))
  }

  function SetQuantum(k: State, p: Pid, q: nat): State
    requires p in k.procs
  {
    SetPcb(k, p, k.procs[p].(quantum := q))
  }

  function Refill(k: State, p: Pid): State
    requires p in k.procs
  {
    SetQuantum(k, p, k.procs[p].priority)
  }

  function Yield(k: State): State
    requires Known(k) && k.current.Some?
  {
    Tick(SetQuantum(k, k.current.value, 0))
  }

  /** block; a process that blocks itself yields. */
  function BlockFor(k: State, p: Pid, reason: Reason): State
    requires Known(k) && p in k.procs
  {
    var u := SetPcb(k, p, k.procs[p].(status := BLOCKED, reason := reason)).(
               ready := Without(k.ready, p),
               blocked := k.blocked + [p]);
    WithoutKnown(k.ready, p);
    if k.current == Some(p) then Yield(u) else u
  }

  lemma {:induction false} WithoutKnown(s: seq<Pid>, p: Pid)
    ensures forall q :: q in Without(s, p) ==> q in s
  {
    if s != [] {
      WithoutKnown(s[1..], p);
      assert s == [s[0]] + s[1..];
    }
  }

  /** block_process_by_pid, with its result. */
  function BlockByPid(k: State, p: Pid): (State, int)
    requires Known(k)
  {
    if p !in k.procs || k.procs[p].status in {ZOMBIE, DEAD} then (k, -1)
    else if k.procs[p].status == BLOCKED then (k, 0)
    else (BlockFor(k, p, BLK_ARBITRARY), 0)
  }

  /** unblock_process_by_pid */
  function UnblockByPid(k: State, p: Pid): (State, int) {
    if p !in k.procs then (k, -1)
    else if k.procs[p].status != BLOCKED then (k, 0)
    else (MakeReady(k, p), 0)
  }

  /** The scheduling part of sys_spawn_process, for a process id not in use. */
  function Spawn(k: State, p: Pid): State {
    MakeReady(SetPcb(k, p, Pcb(READY, BLK_NONE, QUANTUM_DEFAULT, 0, k.current)), p)
  }

  /** change_priority */
  function ChangePriority(k: State, child: Pid, n: nat): (State, int) {
    if child !in k.procs || k.procs[child].parent != k.current || n == 0 || n > QUANTUM_MAX then (k, -1)
    else (SetPcb(k, child, k.procs[child].(priority := n, quantum := n)), 0)
  }

  // ---- semaphores ----

  function SemCreate(k: State, id: nat, value: nat): (State, int) {
    if id < MAX_SEMAPHORES && id !in k.sems then (k.(sems := k.sems[id := Sem(value, [])]), 0) else (k, -1)
  }

  /** my_sem_wait by the current process. */
  function SemWait(k: State, id: nat): (State, int)
    requires Known(k) && k.current.Some?
  {
    if id !in k.sems then (k, -1)
    else
      var c := k.current.value;
      var s := k.sems[id];
      var u := k.(sems := k.sems[id := s.Wait(c)]);
      if s.Passes() then (u, 0) else (BlockFor(u, c, BLK_SEMAPHORE), 0)
  }

  function SemPost(k: State, id: nat): (State, int)
    requires Known(k)
  {
    if id !in k.sems then (k, -1)
    else
      var s := k.sems[id];
      var u := k.(sems := k.sems[id := s.Post()]);
      match s.Woken()
      case None => (u, 0)
      case Some(p) => (MakeReady(u, p), 0)
  }

  function SemTryWait(k: State, id: nat): (State, int) {
    if id !in k.sems then (k, -1)
    else (k.(sems := k.sems[id := k.sems[id].TryWait()]), if k.sems[id].Passes() then 0 else 1)
  }

  // ---- runs ----

  datatype Event =
    | TimerTick
    | YieldCall
    | SpawnCall(pid: Pid)
    | BlockCall(pid: Pid)
    | UnblockCall(pid: Pid)
    | PriorityCall(pid: Pid, n: nat)
    | CreateCall(id: nat, value: nat)
    | WaitCall(id: nat)
    | PostCall(id: nat)
    | TryWaitCall(id: nat)

  /** What the rest of the kernel owes the scheduler: idle never blocks, and a process asleep
      on a semaphore is woken only by a post of it. */
  predicate Allowed(k: State, e: Event) {
    match e
    case TimerTick => true
    case SpawnCall(p) => p !in k.procs
    case BlockCall(p) => p != IDLE && k.current.Some?
    case UnblockCall(p) => p in k.procs ==> k.procs[p].reason != BLK_SEMAPHORE
    case WaitCall(_) => k.current.Some? && k.current != Some(IDLE)
    case YieldCall => k.current.Some?
    case _ => true
  }

  /** One kernel entry. */
  function Step(k: State, e: Event): State
    requires Known(k) && Allowed(k, e)
  {
    match e
    case TimerTick => Tick(k)
    case YieldCall => Yield(k)
    case SpawnCall(p) => Spawn(k, p)
    case BlockCall(p) => BlockByPid(k, p).0
    case UnblockCall(p) => UnblockByPid(k, p).0
    case PriorityCall(p, n) => ChangePriority(k, p, n).0
    case CreateCall(id, v) => SemCreate(k, id, v).0
    case WaitCall(id) => SemWait(k, id).0
    case PostCall(id) => SemPost(k, id).0
    case TryWaitCall(id) => SemTryWait(k, id).0
  }
}
