/**
  How long a ready process waits for the processor: a bound under any mix of kernel entries,
  and the exact schedule when only the timer ticks.
 */
module SchedulerFairness {
  import opened Basics
  import opened Sequences
  import opened SchedulerModel
  import opened SchedulerPartition

  // ---- bounded waiting ----

  /** What the current process has left, plus a full quantum for each process ahead. */
  function Measure(k: State, i: nat): nat
    requires k.current.Some? && k.current.value in k.procs
  {
    k.procs[k.current.value].quantum + QUANTUM_MAX * i
  }

  /** In `u`, `p` runs, or it is ready at a place whose measure is at most `m`. */
  ghost predicate RunsWithin(u: State, p: Pid, m: int) {
    && u.current.Some? && u.current.value in u.procs
    && (u.current == Some(p) || exists j :: 0 <= j < |u.ready| && u.ready[j] == p && Measure(u, j) <= m)
  }

  lemma {:induction false} WithoutIndex(s: seq<Pid>, q: Pid, i: nat) returns (j: nat)
    requires i < |s| && s[i] != q
    ensures j <= i && j < |Without(s, q)| && Without(s, q)[j] == s[i]
  {
    if s[0] == q {
      j := i - 1;
    } else if i == 0 {
      j := 0;
    } else {
      j := WithoutIndex(s[1..], q, i - 1);
      j := j + 1;
    }
  }

  /** A dispatch brings everybody in the ready queue one place nearer. */
  lemma DispatchNearer(k: State, p: Pid, i: nat, m: int)
    requires Known(k) && i < |k.ready| && k.ready[i] == p
    requires forall q :: q in k.procs ==> k.procs[q].priority <= QUANTUM_MAX
    requires QUANTUM_MAX * i <= m
    ensures RunsWithin(Dispatch(k), p, m)
  {
  }

  lemma TickNearer(k: State, p: Pid, i: nat)
    requires Inv(k) && k.current.Some? && i < |k.ready| && k.ready[i] == p
    ensures RunsWithin(Tick(k), p, Measure(k, i) - 1)
  {
    var c := k.current.value;
    assert InPlace(k, c, k.current);
    if k.procs[c].quantum == 1 {
      RotateNearer(SetQuantum(k, c, 0), p, i, QUANTUM_MAX * i);
    }
  }

  lemma RotateNearer(k: State, p: Pid, i: nat, m: int)
    requires Known(k) && k.current.Some? && i < |k.ready| && k.ready[i] == p
    requires forall q :: q in k.procs ==> 1 <= k.procs[q].priority <= QUANTUM_MAX
    requires QUANTUM_MAX * i <= m
    ensures RunsWithin(Rotate(k), p, m)
  {
    var c := k.current.value;
    if k.procs[c].status in {BLOCKED, ZOMBIE, DEAD} {
      DispatchNearer(k, p, i, m);
    } else {
      DispatchNearer(MakeReady(k, c), p, i, m);
    }
  }

  lemma Priorities(k: State)
    requires SchedInv(k)
    ensures forall q :: q in k.procs ==> 1 <= k.procs[q].priority <= QUANTUM_MAX
  {
  }

  lemma YieldNearer(k: State, p: Pid, i: nat)
    requires Inv(k) && k.current.Some? && i < |k.ready| && k.ready[i] == p
    ensures RunsWithin(Yield(k), p, Measure(k, i))
  {
    Priorities(k);
    var u := SetQuantum(k, k.current.value, 0);
    assert SetQuantum(u, k.current.value, 0) == u;
    RotateNearer(u, p, i, QUANTUM_MAX * i);
  }

  lemma AsleepPriorities(k: State, c: Pid, reason: Reason)
    requires c in k.procs && forall q :: q in k.procs ==> k.procs[q].priority <= QUANTUM_MAX
    ensures forall q :: q in Asleep(k, c, reason).procs ==> Asleep(k, c, reason).procs[q].priority <= QUANTUM_MAX
  {
  }

  lemma SelfBlockNearer(k: State, p: Pid, i: nat, reason: Reason)
    requires SchedInv(k) && Known(k) && k.current.Some? && k.current != Some(IDLE) && i < |k.ready| && k.ready[i] == p
    ensures RunsWithin(BlockFor(k, k.current.value, reason), p, Measure(k, i))
  {
    var c := k.current.value;
    Priorities(k);
    BlockSelfKeeps(k, c, reason);
    BlockSelfIs(k, c, reason);
    AsleepPriorities(k, c, reason);
    DispatchNearer(Asleep(k, c, reason), p, i, Measure(k, i));
  }

  lemma BlockNearer(k: State, q: Pid, p: Pid, i: nat)
    requires Inv(k) && k.current.Some? && i < |k.ready| && k.ready[i] == p && q != p && q != IDLE
    ensures RunsWithin(BlockByPid(k, q).0, p, Measure(k, i))
  {
    if q in k.procs && k.procs[q].status in {READY, RUNNING} {
      assert InPlace(k, q, k.current);
      if k.current == Some(q) {
        SelfBlockNearer(k, p, i, BLK_ARBITRARY);
      } else {
        var j := WithoutIndex(k.ready, q, i);
        assert BlockFor(k, q, BLK_ARBITRARY).ready[j] == p;
      }
    }
  }

  lemma WaitNearer(k: State, id: nat, p: Pid, i: nat)
    requires Inv(k) && k.current.Some? && k.current != Some(IDLE) && i < |k.ready| && k.ready[i] == p
    ensures RunsWithin(SemWait(k, id).0, p, Measure(k, i))
  {
    if id in k.sems && !k.sems[id].Passes() {
      SameSched(k, Enqueued(k, id));
      WaitSleepsSched(k, id);
      SelfBlockNearer(Enqueued(k, id), p, i, BLK_SEMAPHORE);
    } else {
      assert SemWait(k, id).0.ready[i] == p;
    }
  }

  /** No kernel entry moves a ready process back, and a tick moves it forward. */
  lemma StepNearer(k: State, e: Event, p: Pid, i: nat)
    requires Inv(k) && Allowed(k, e) && k.current.Some? && i < |k.ready| && k.ready[i] == p && e != BlockCall(p)
    ensures RunsWithin(Step(k, e), p, Measure(k, i) - if e == TimerTick then 1 else 0)
  {
    match e
    case TimerTick => TickNearer(k, p, i);
    case YieldCall => YieldNearer(k, p, i);
    case BlockCall(q) => BlockNearer(k, q, p, i);
    case WaitCall(id) => WaitNearer(k, id, p, i);
    case PriorityCall(q, n) => PriorityNearer(k, q, n, p, i);
    case _ => StayNearer(k, e, p, i);
  }

  /** The entries that leave the current process and the ready queue, but perhaps for its end. */
  lemma StayNearer(k: State, e: Event, p: Pid, i: nat)
    requires Known(k) && Allowed(k, e) && k.current.Some? && i < |k.ready| && k.ready[i] == p
    requires e.SpawnCall? || e.UnblockCall? || e.CreateCall? || e.PostCall? || e.TryWaitCall?
    ensures RunsWithin(Step(k, e), p, Measure(k, i))
  {
    var u := Step(k, e);
    assert u.ready[i] == p && u.current == k.current;
  }

  /** Only a child of the caller changes priority, so the caller's own quantum stays. */
  lemma PriorityNearer(k: State, q: Pid, n: nat, p: Pid, i: nat)
    requires Inv(k) && k.current.Some? && i < |k.ready| && k.ready[i] == p
    ensures RunsWithin(ChangePriority(k, q, n).0, p, Measure(k, i))
  {
  }

  function Ticks(events: seq<Event>): nat {
    if events == [] then 0 else (if events[0] == TimerTick then 1 else 0) + Ticks(events[1..])
  }

  lemma {:induction false} RunsBefore(k: State, events: seq<Event>, p: Pid, i: nat) returns (n: nat)
    requires Inv(k) && Runs(k, events) && k.current.Some? && i < |k.ready| && k.ready[i] == p
    requires BlockCall(p) !in events && Ticks(events) >= Measure(k, i)
    ensures 0 < n <= |events| && Runs(k, events[..n]) && After(k, events[..n]).current == Some(p)
    decreases |events|
  {
    assert InPlace(k, k.current.value, k.current);
    var u := Step(k, events[0]);
    StepNearer(k, events[0], p, i);
    StepInv(k, events[0]);
    if u.current == Some(p) {
      n := 1;
      OneEvent(k, events);
    } else {
      var j :| 0 <= j < |u.ready| && u.ready[j] == p &&
               Measure(u, j) <= Measure(k, i) - if events[0] == TimerTick then 1 else 0;
      assert BlockCall(p) !in events[1..];
      var m := RunsBefore(u, events[1..], p, j);
      n := m + 1;
      FirstThenRest(k, events, m);
    }
  }

  lemma FirstThenRest(k: State, events: seq<Event>, m: nat)
    requires Inv(k) && Runs(k, events) && events != [] && m <= |events| - 1
    requires Inv(Step(k, events[0])) && Runs(Step(k, events[0]), events[1..][..m])
    ensures Runs(k, events[..m + 1])
    ensures After(k, events[..m + 1]) == After(Step(k, events[0]), events[1..][..m])
  {
    assert events[..m + 1][1..] == events[1..][..m];
    assert events[..m + 1][0] == events[0];
  }

  lemma OneEvent(k: State, events: seq<Event>)
    requires Inv(k) && Runs(k, events) && events != []
    ensures Runs(k, events[..1]) && After(k, events[..1]) == Step(k, events[0])
  {
    StepInv(k, events[0]);
    assert events[..1][1..] == [];
    assert events[..1][0] == events[0];
  }

  /**
    Bounded waiting: in any run that does not block it, a process at place `i` of the ready
    queue runs before QUANTUM_MAX * (i + 1) ticks have passed.
   */
  lemma ReadyProcessRuns(k: State, events: seq<Event>, p: Pid, i: nat)
    requires Inv(k) && Runs(k, events) && k.current.Some? && i < |k.ready| && k.ready[i] == p
    requires BlockCall(p) !in events && Ticks(events) >= QUANTUM_MAX * (i + 1)
    ensures exists n :: 0 < n <= |events| && Runs(k, events[..n]) && After(k, events[..n]).current == Some(p)
  {
    var n := RunsBefore(k, events, p, i);
  }

  // ---- timer ticks alone: a weighted rotation ----

  /** The running process followed by the ready ones, in order. */
  function Ring(k: State): seq<Pid>
    requires k.current.Some?
  {
    [k.current.value] + k.ready
  }

  /** What the rotation needs of a state: one process runs, others are ready. */
  ghost predicate Turning(k: State) {
    && Known(k) && k.current.Some? && k.ready != []
    && Distinct(Ring(k))
    && (forall p :: p in Ring(k) ==> MayTurn(k, p))
    && k.procs[k.current.value].quantum >= 1
  }

  ghost predicate MayTurn(k: State, p: Pid)
    requires k.current.Some?
  {
    && p in k.procs && p !in k.blocked
    && k.procs[p].reason == BLK_NONE && k.procs[p].priority >= 1
    && k.procs[p].status == if p == k.current.value then RUNNING else READY
  }

  lemma InvTurns(k: State)
    requires Inv(k) && k.current.Some? && k.ready != []
    ensures Turning(k)
  {
  }

  /** Place `i` of a history is followed by the state one tick later. */
  ghost predicate TickAt(tr: seq<State>, i: nat)
    requires i + 1 < |tr|
  {
    Known(tr[i]) && tr[i + 1] == Tick(tr[i])
  }

  /** A history of timer ticks and nothing else. */
  ghost predicate TickTrace(tr: seq<State>) {
    tr != [] && forall i: nat :: i + 1 < |tr| ==> TickAt(tr, i)
  }

  /** The end of a turn: the next process starts with a full quantum, the last one queues up. */
  function Handover(k: State): State
    requires Known(k) && k.current.Some? && k.ready != []
  {
    var c, h := k.current.value, k.ready[0];
    k.(procs := k.procs[c := k.procs[c].(status := READY, quantum := 0)]
                       [h := k.procs[h].(status := RUNNING, quantum := k.procs[h].priority)],
       ready := k.ready[1..] + [c],
       current := Some(h))
  }

  lemma LastTickHandsOver(k: State)
    requires Turning(k) && k.procs[k.current.value].quantum == 1
    ensures Tick(k) == Handover(k)
  {
    var c, h := k.current.value, k.ready[0];
    assert c in Ring(k) && h in Ring(k) && Ring(k)[0] == c && Ring(k)[1] == h;
    assert MayTurn(k, c) && MayTurn(k, h);
    WithoutAbsent(k.blocked, c);
  }

  /** During a turn only the quantum of the running process changes. */
  lemma {:induction false} QuantumRunsDown(tr: seq<State>, s: nat, n: nat)
    requires TickTrace(tr) && s + n < |tr| && Turning(tr[s]) && n < tr[s].procs[tr[s].current.value].quantum
    ensures var c := tr[s].current.value; tr[s + n] == SetQuantum(tr[s], c, tr[s].procs[c].quantum - n)
    decreases n
  {
    var k := tr[s];
    var c := k.current.value;
    if n > 0 {
      QuantumRunsDown(tr, s, n - 1);
      assert TickAt(tr, s + n - 1);
      TickInTurn(k, k.procs[c].quantum - n + 1);
    } else {
      assert SetQuantum(k, c, k.procs[c].quantum) == k;
    }
  }

  lemma TickInTurn(k: State, q: nat)
    requires Turning(k) && q > 1
    ensures Known(SetQuantum(k, k.current.value, q))
    ensures Tick(SetQuantum(k, k.current.value, q)) == SetQuantum(k, k.current.value, q - 1)
  {
  }

  lemma LessQuantum(k: State, q: nat)
    requires Turning(k) && q >= 1
    ensures Turning(SetQuantum(k, k.current.value, q))
  {
  }

  lemma TurnEnds(tr: seq<State>, s: nat)
    requires TickTrace(tr) && s < |tr| && Turning(tr[s]) && s + tr[s].procs[tr[s].current.value].quantum < |tr|
    ensures tr[s + tr[s].procs[tr[s].current.value].quantum] == Handover(tr[s])
  {
    var k := tr[s];
    var q := k.procs[k.current.value].quantum;
    QuantumRunsDown(tr, s, q - 1);
    assert TickAt(tr, s + q - 1);
    LastTick(k);
  }

  lemma LastTick(k: State)
    requires Turning(k)
    ensures Known(SetQuantum(k, k.current.value, 1))
    ensures Tick(SetQuantum(k, k.current.value, 1)) == Handover(k)
  {
    LessQuantum(k, 1);
    LastTickHandsOver(SetQuantum(k, k.current.value, 1));
    HandoverIgnoresQuantum(k, 1);
  }

  lemma HandoverIgnoresQuantum(k: State, q: nat)
    requires Turning(k)
    ensures Known(SetQuantum(k, k.current.value, q))
    ensures Handover(SetQuantum(k, k.current.value, q)) == Handover(k)
  {
  }

  // ---- the turns ----

  function Weight(k: State, s: seq<Pid>): nat
    requires forall p :: p in s ==> p in k.procs
  {
    if s == [] then 0 else Weight(k, s[..|s| - 1]) + k.procs[s[|s| - 1]].priority
  }

  /** The time at which turn `m` starts. */
  function TurnStart(k: State, m: nat): nat
    requires Known(k) && k.current.Some? && m <= |k.ready| + 1
  {
    if m == 0 then 0 else k.procs[k.current.value].quantum + Weight(k, k.ready[..m - 1])
  }

  lemma NextStart(k: State, m: nat)
    requires Known(k) && k.current.Some? && 0 < m <= |k.ready|
    ensures Ring(k)[m] in k.procs && TurnStart(k, m + 1) == TurnStart(k, m) + k.procs[Ring(k)[m]].priority
  {
    assert k.ready[..m][..m - 1] == k.ready[..m - 1];
  }

  /** The control block `b` of a ring process against `a`, the one it had at the start. */
  predicate TurnPcb(a: Pcb, b: Pcb, runs: bool) {
    if runs then b == a.(status := RUNNING, quantum := a.priority)
    else b.(quantum := 0) == a.(status := READY, quantum := 0)
  }

  /** The state at the start of turn `m` of the rotation. */
  ghost predicate AtTurn(k: State, u: State, m: nat)
    requires Turning(k) && 0 < m <= |k.ready|
  {
    && u == k.(current := Some(Ring(k)[m]), ready := Ring(k)[m + 1..] + Ring(k)[..m], procs := u.procs)
    && u.procs.Keys == k.procs.Keys
    && (forall p :: p in k.procs && p in Ring(k) ==> TurnPcb(k.procs[p], u.procs[p], p == Ring(k)[m]))
    && (forall p :: p in k.procs && p !in Ring(k) ==> u.procs[p] == k.procs[p])
  }

  lemma RingAtTurn(k: State, u: State, m: nat)
    requires Turning(k) && 0 < m <= |k.ready| && AtTurn(k, u, m)
    ensures u.ready != [] && Distinct(Ring(u)) && forall p :: p in Ring(u) <==> p in Ring(k)
  {
    var r := Ring(k);
    assert Ring(u) == r[m..] + r[..m];
    assert r == r[..m] + r[m..];
    assert forall i :: 0 <= i < |r| ==> Ring(u)[i] == r[if i + m < |r| then i + m else i + m - |r|];
  }

  lemma TurningAtTurn(k: State, u: State, m: nat)
    requires Turning(k) && 0 < m <= |k.ready| && AtTurn(k, u, m)
    ensures Turning(u) && u.procs[u.current.value].quantum == k.procs[Ring(k)[m]].priority
  {
    RingAtTurn(k, u, m);
    assert Ring(k)[m] in Ring(k) && MayTurn(k, Ring(k)[m]);
    forall p | p in Ring(u)
      ensures MayTurn(u, p)
    {
      assert MayTurn(k, p);
      assert TurnPcb(k.procs[p], u.procs[p], p == Ring(k)[m]);
    }
    assert forall p :: p in u.ready ==> p in Ring(u);
  }

  lemma FirstTurn(k: State)
    requires Turning(k)
    ensures AtTurn(k, Handover(k), 1)
  {
    var r := Ring(k);
    assert r[0] in r && r[1] in r && r[2..] == k.ready[1..] && r[..1] == [r[0]];
    assert MayTurn(k, r[0]) && MayTurn(k, r[1]);
    forall p | p in k.procs && p in r
      ensures TurnPcb(k.procs[p], Handover(k).procs[p], p == r[1])
    {
      assert MayTurn(k, p);
    }
  }

  lemma NextTurn(k: State, u: State, m: nat)
    requires Turning(k) && 0 < m < |k.ready| && AtTurn(k, u, m)
    ensures Turning(u) && AtTurn(k, Handover(u), m + 1)
  {
    var r := Ring(k);
    TurningAtTurn(k, u, m);
    assert u.ready[0] == r[m + 1];
    assert u.ready[1..] + [r[m]] == r[m + 2..] + r[..m + 1];
    assert r[m] in r && r[m + 1] in r;
    forall p | p in k.procs && p in r
      ensures TurnPcb(k.procs[p], Handover(u).procs[p], p == r[m + 1])
    {
      assert TurnPcb(k.procs[p], u.procs[p], p == r[m]);
      assert MayTurn(u, p) by {
        RingAtTurn(k, u, m);
      }
    }
  }

  lemma {:induction false} TurnBegins(tr: seq<State>, m: nat)
    requires TickTrace(tr) && Turning(tr[0]) && 0 < m <= |tr[0].ready| && TurnStart(tr[0], m) < |tr|
    ensures AtTurn(tr[0], tr[TurnStart(tr[0], m)], m)
    decreases m
  {
    if m == 1 {
      TurnEnds(tr, 0);
      FirstTurn(tr[0]);
    } else {
      NextStart(tr[0], m - 1);
      TurnBegins(tr, m - 1);
      TurnAdvances(tr, m - 1);
    }
  }

  lemma TurnAdvances(tr: seq<State>, m: nat)
    requires TickTrace(tr) && Turning(tr[0]) && 0 < m < |tr[0].ready| && TurnStart(tr[0], m + 1) < |tr|
    requires TurnStart(tr[0], m) < |tr| && AtTurn(tr[0], tr[TurnStart(tr[0], m)], m)
    ensures AtTurn(tr[0], tr[TurnStart(tr[0], m + 1)], m + 1)
  {
    TurnPasses(tr, m);
    NextTurn(tr[0], tr[TurnStart(tr[0], m)], m);
  }

  lemma TurnPasses(tr: seq<State>, m: nat)
    requires TickTrace(tr) && Turning(tr[0]) && 0 < m < |tr[0].ready| && TurnStart(tr[0], m + 1) < |tr|
    requires TurnStart(tr[0], m) < |tr| && AtTurn(tr[0], tr[TurnStart(tr[0], m)], m)
    ensures Turning(tr[TurnStart(tr[0], m)])
    ensures tr[TurnStart(tr[0], m + 1)] == Handover(tr[TurnStart(tr[0], m)])
  {
    NextStart(tr[0], m);
    TurningAtTurn(tr[0], tr[TurnStart(tr[0], m)], m);
    TurnEnds(tr, TurnStart(tr[0], m));
  }

  /** The processes that have had their turn have no quantum left. */
  ghost predicate Spent(k: State, u: State, m: nat)
    requires Turning(k) && 0 < m <= |k.ready|
  {
    forall i :: 0 <= i < m ==> Ring(k)[i] in u.procs && u.procs[Ring(k)[i]].quantum == 0
  }

  lemma FirstSpent(k: State)
    requires Turning(k)
    ensures Spent(k, Handover(k), 1)
  {
    assert Ring(k)[0] != Ring(k)[1];
  }

  lemma NextSpent(k: State, u: State, m: nat)
    requires Turning(k) && 0 < m < |k.ready| && AtTurn(k, u, m) && Spent(k, u, m)
    ensures Turning(u) && Spent(k, Handover(u), m + 1)
  {
    TurningAtTurn(k, u, m);
    assert u.ready[0] == Ring(k)[m + 1];
  }

  lemma {:induction false} SpentAtTurn(tr: seq<State>, m: nat)
    requires TickTrace(tr) && Turning(tr[0]) && 0 < m <= |tr[0].ready| && TurnStart(tr[0], m) < |tr|
    ensures Spent(tr[0], tr[TurnStart(tr[0], m)], m)
    decreases m
  {
    if m == 1 {
      TurnEnds(tr, 0);
      FirstSpent(tr[0]);
    } else {
      NextStart(tr[0], m - 1);
      TurnBegins(tr, m - 1);
      SpentAtTurn(tr, m - 1);
      TurnPasses(tr, m - 1);
      NextSpent(tr[0], tr[TurnStart(tr[0], m - 1)], m - 1);
    }
  }

  /** How long turn `m` lasts. */
  function TurnLength(k: State, m: nat): nat
    requires Known(k) && k.current.Some? && m <= |k.ready|
  {
    if m == 0 then k.procs[k.current.value].quantum else k.procs[k.ready[m - 1]].priority
  }

  lemma StartPlusLength(k: State, m: nat)
    requires Known(k) && k.current.Some? && m <= |k.ready|
    ensures TurnStart(k, m + 1) == TurnStart(k, m) + TurnLength(k, m)
  {
    if m > 0 {
      NextStart(k, m);
    }
  }

  lemma WithinTurn(tr: seq<State>, n: nat, m: nat)
    requires TickTrace(tr) && n < |tr| && Turning(tr[0]) && m <= |tr[0].ready|
    requires TurnStart(tr[0], m) <= n < TurnStart(tr[0], m + 1)
    ensures tr[n].current == Some(Ring(tr[0])[m])
  {
    StartPlusLength(tr[0], m);
    var s := TurnStart(tr[0], m);
    if m > 0 {
      TurnBegins(tr, m);
      TurningAtTurn(tr[0], tr[s], m);
    }
    QuantumRunsDown(tr, s, n - s);
  }

  /** The turn that tick `n` falls into. */
  lemma {:induction false} TurnAt(k: State, n: nat, top: nat) returns (m: nat)
    requires Known(k) && k.current.Some? && top <= |k.ready| && n < TurnStart(k, top + 1)
    ensures m <= top && TurnStart(k, m) <= n < TurnStart(k, m + 1)
    ensures m == top <==> n >= TurnStart(k, top)
    decreases top
  {
    StartPlusLength(k, top);
    if n >= TurnStart(k, top) {
      m := top;
    } else {
      m := TurnAt(k, n, top - 1);
    }
  }

  /**
    Under ticks alone the process at place `i` of the ready queue runs for exactly its own
    priority in ticks, and that begins after what is left of the current quantum and the
    priorities of those ahead; it does not run at any earlier tick.
   */
  lemma TurnOf(tr: seq<State>, i: nat, n: nat)
    requires TickTrace(tr) && Inv(tr[0]) && tr[0].current.Some? && i < |tr[0].ready| && n < |tr|
    ensures forall p :: p in tr[0].ready ==> p in tr[0].procs
    ensures var k := tr[0];
            var start := k.procs[k.current.value].quantum + Weight(k, k.ready[..i]);
            n < start + k.procs[k.ready[i]].priority ==>
              (tr[n].current == Some(k.ready[i]) <==> n >= start)
  {
    var k := tr[0];
    InvTurns(k);
    StartPlusLength(k, i + 1);
    if n < TurnStart(k, i + 2) {
      var m := TurnAt(k, n, i + 1);
      WithinTurn(tr, n, m);
      RingPlaces(k, m, i + 1);
    }
  }

  lemma RingPlaces(k: State, m: nat, j: nat)
    requires Turning(k) && m <= j <= |k.ready|
    ensures Ring(k)[m] == Ring(k)[j] <==> m == j
  {
  }

  /** Everything but the quanta left over in ready processes, which a dispatch overwrites. */
  function Observable(k: State): State {
    k.(procs := map p | p in k.procs :: Seen(k.procs[p]))
  }

  function Seen(b: Pcb): Pcb {
    if b.status == READY then b.(quantum := 0) else b
  }

  /** What is left out has no effect: states that agree otherwise still agree after a tick. */
  lemma TickObserves(k: State, u: State)
    requires Inv(k) && Inv(u) && Observable(k) == Observable(u)
    ensures Observable(Tick(k)) == Observable(Tick(u))
  {
    TickForgets(k);
    TickForgets(u);
  }

  lemma TickForgets(k: State)
    requires Inv(k)
    ensures Known(Observable(k)) && Observable(Tick(Observable(k))) == Observable(Tick(k))
  {
    if k.ready == [] {
      NothingLeftOver(k);
    } else if k.current.None? {
      DispatchForgets(k);
    } else {
      InvTurns(k);
      TurnForgets(k);
    }
  }

  lemma TurnForgets(k: State)
    requires Turning(k)
    ensures Known(Observable(k)) && Observable(Tick(Observable(k))) == Observable(Tick(k))
  {
    TurningForgets(k);
    var q := k.procs[k.current.value].quantum;
    if q > 1 {
      QuantumForgets(k, q - 1);
    } else {
      LastTickHandsOver(k);
      LastTickHandsOver(Observable(k));
      HandoverForgets(k);
    }
  }

  lemma TurningForgets(k: State)
    requires Turning(k)
    ensures Turning(Observable(k))
    ensures Observable(k).procs[k.current.value] == k.procs[k.current.value]
  {
    assert k.current.value in Ring(k) && MayTurn(k, k.current.value);
    forall p | p in Ring(Observable(k))
      ensures MayTurn(Observable(k), p)
    {
      assert p in Ring(k) && MayTurn(k, p);
    }
  }

  lemma QuantumForgets(k: State, q: nat)
    requires Turning(k) && Turning(Observable(k))
    ensures Observable(SetQuantum(Observable(k), k.current.value, q)) == Observable(SetQuantum(k, k.current.value, q))
  {
    var c := k.current.value;
    assert c in Ring(k) && MayTurn(k, c);
    assert Observable(SetQuantum(Observable(k), c, q)).procs == Observable(SetQuantum(k, c, q)).procs;
  }

  lemma DispatchForgets(k: State)
    requires Known(k) && k.ready != []
    ensures Known(Observable(k)) && Observable(Dispatch(Observable(k))) == Observable(Dispatch(k))
  {
    assert Observable(Dispatch(Observable(k))).procs == Observable(Dispatch(k)).procs;
  }

  lemma HandoverForgets(k: State)
    requires Turning(k) && Turning(Observable(k))
    ensures Observable(Handover(Observable(k))) == Observable(Handover(k))
  {
    assert k.current.value in Ring(k) && MayTurn(k, k.current.value);
    assert k.ready[0] in Ring(k) && MayTurn(k, k.ready[0]);
    HandoverForgetsProcs(k, Observable(k));
  }

  lemma HandoverForgetsProcs(k: State, u: State)
    requires Known(k) && k.current.Some? && k.ready != [] && k.ready[0] in k.procs
    requires Known(u) && u == Observable(k) && u.procs[k.current.value] == k.procs[k.current.value]
    ensures Observable(Handover(u)) == Observable(Handover(k))
  {
    assert Observable(Handover(u)).procs == Observable(Handover(k)).procs;
  }

  /** A state without quanta left over is its own observation. */
  lemma NothingLeftOver(k: State)
    requires Inv(k)
    ensures Observable(k) == k <==> forall p :: p in k.ready ==> k.procs[p].quantum == 0
  {
    if forall p :: p in k.ready ==> k.procs[p].quantum == 0 {
      forall p | p in k.procs
        ensures Observable(k).procs[p] == k.procs[p]
      {
        assert InPlace(k, p, k.current);
      }
      assert Observable(k).procs == k.procs;
    } else {
      var p :| p in k.ready && k.procs[p].quantum != 0;
      assert InPlace(k, p, k.current) && Observable(k).procs[p].quantum == 0;
    }
  }

  /** The running process has its full quantum before it. */
  predicate FreshDispatch(k: State)
    requires Known(k) && k.current.Some?
  {
    k.procs[k.current.value].quantum == k.procs[k.current.value].priority
  }

  /** The sum of the priorities of all processes that can run. */
  function Period(k: State): nat
    requires Known(k) && k.current.Some?
  {
    k.procs[k.current.value].priority + Weight(k, k.ready)
  }

  /**
    From a fresh dispatch the state repeats after exactly the sum of all priorities, except that
    the quanta left over in ready processes are spent; so it repeats entirely if and only if there
    are none.
   */
  lemma RotationRepeats(tr: seq<State>)
    requires TickTrace(tr) && Inv(tr[0]) && tr[0].current.Some? && tr[0].ready != []
    requires FreshDispatch(tr[0]) && Period(tr[0]) < |tr|
    ensures tr[Period(tr[0])] == Observable(tr[0])
    ensures Observable(tr[Period(tr[0])]) == Observable(tr[0])
    ensures tr[Period(tr[0])] == tr[0] <==> forall p :: p in tr[0].ready ==> tr[0].procs[p].quantum == 0
  {
    RotationSpends(tr);
    assert Observable(Observable(tr[0])).procs == Observable(tr[0]).procs;
    NothingLeftOver(tr[0]);
  }

  lemma RotationSpends(tr: seq<State>)
    requires TickTrace(tr) && Inv(tr[0]) && tr[0].current.Some? && tr[0].ready != []
    requires FreshDispatch(tr[0]) && Period(tr[0]) < |tr|
    ensures tr[Period(tr[0])] == Observable(tr[0])
  {
    InvTurns(tr[0]);
    PeriodEnds(tr[0]);
    var s := TurnStart(tr[0], |tr[0].ready|);
    TurnBegins(tr, |tr[0].ready|);
    SpentAtTurn(tr, |tr[0].ready|);
    LastTurn(tr, s, Period(tr[0]));
    LastHandover(tr[0], tr[s]);
  }

  lemma PeriodEnds(k: State)
    requires Known(k) && k.current.Some? && k.ready != [] && FreshDispatch(k)
    ensures Ring(k)[|k.ready|] in k.procs
    ensures Period(k) == TurnStart(k, |k.ready|) + k.procs[Ring(k)[|k.ready|]].priority
  {
  }

  lemma LastTurn(tr: seq<State>, s: nat, e: nat)
    requires TickTrace(tr) && Turning(tr[0]) && s <= e < |tr| && AtTurn(tr[0], tr[s], |tr[0].ready|)
    requires Ring(tr[0])[|tr[0].ready|] in tr[0].procs
    requires e == s + tr[0].procs[Ring(tr[0])[|tr[0].ready|]].priority
    ensures Turning(tr[s]) && tr[e] == Handover(tr[s])
  {
    TurningAtTurn(tr[0], tr[s], |tr[0].ready|);
    TurnEnds(tr, s);
  }

  lemma LastHandover(k: State, u: State)
    requires Inv(k) && Turning(k) && AtTurn(k, u, |k.ready|) && Spent(k, u, |k.ready|) && FreshDispatch(k)
    ensures Turning(u) && u.procs[u.current.value].quantum == k.procs[Ring(k)[|k.ready|]].priority
    ensures Handover(u) == Observable(k)
  {
    TurningAtTurn(k, u, |k.ready|);
    BackQueues(k, u);
    forall p | p in k.procs
      ensures Handover(u).procs[p] == Observable(k).procs[p]
    {
      if p in Ring(k) {
        BackPcb(k, u, p);
      } else {
        OutsidePcb(k, u, p);
      }
    }
    assert Handover(u).procs == Observable(k).procs;
  }

  lemma OutsidePcb(k: State, u: State, p: Pid)
    requires Inv(k) && Turning(k) && Turning(u) && AtTurn(k, u, |k.ready|)
    requires p in k.procs && p !in Ring(k) && u.ready[0] == k.current.value
    ensures p in u.procs && Handover(u).procs[p] == Observable(k).procs[p]
  {
    assert InPlace(k, p, k.current);
    assert Ring(k)[|k.ready|] in Ring(k);
  }

  lemma BackQueues(k: State, u: State)
    requires Turning(k) && Turning(u) && AtTurn(k, u, |k.ready|)
    ensures u.ready[0] == k.current.value
    ensures Handover(u) == k.(procs := Handover(u).procs) && Handover(u).procs.Keys == k.procs.Keys
  {
    var r := Ring(k);
    AllButLast(k.current.value, k.ready);
    assert r[|k.ready|] in r && r[0] in r && MayTurn(k, r[|k.ready|]) && MayTurn(k, r[0]);
  }

  lemma AllButLast(c: Pid, s: seq<Pid>)
    requires s != []
    ensures var r := [c] + s;
            && r[|s| + 1..] + r[..|s|] == r[..|s|] && r[..|s|][0] == c && r[..|s|][1..] + [r[|s|]] == s
  {
  }

  lemma BackPcb(k: State, u: State, p: Pid)
    requires Turning(k) && Turning(u) && AtTurn(k, u, |k.ready|) && Spent(k, u, |k.ready|) && FreshDispatch(k)
    requires p in k.procs && p in Ring(k) && u.ready[0] == k.current.value
    ensures p in u.procs && Handover(u).procs[p] == Observable(k).procs[p]
  {
    var r := Ring(k);
    var i :| 0 <= i < |r| && r[i] == p;
    assert r[|k.ready|] in r && r[0] in r;
    assert MayTurn(k, p) && TurnPcb(k.procs[p], u.procs[p], p == r[|k.ready|]);
  }
}
