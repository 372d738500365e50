/**
  The scheduler and the semaphore table as the kernel keeps them, on linked queues and updated in
  place by each entry. Every method is tied to the step of SchedulerModel it performs.
 */
module Scheduler {
  import opened Basics
  import opened LinkedQueue
  import opened Semaphores
  import opened Sequences
  import opened SchedulerModel

  datatype Entry = Entry(value: nat, queue: Queue<Pid>)

  /** Process `p` has left the ready queue for the blocked one. */
  function Parked(k: State, p: Pid, reason: Reason): State
    requires p in k.procs
  {
    SetPcb(k, p, k.procs[p].(status := BLOCKED, reason := reason)).(
      ready := Without(k.ready, p),
      blocked := k.blocked + [p])
  }

  lemma BlockForParks(k: State, p: Pid, reason: Reason)
    requires Known(k) && p in k.procs
    ensures Known(Parked(k, p, reason)) && Parked(k, p, reason).current == k.current
    ensures BlockFor(k, p, reason) == if k.current == Some(p) then Yield(Parked(k, p, reason)) else Parked(k, p, reason)
  {
    WithoutKnown(k.ready, p);
  }

  /** The running process has joined the queue of a semaphore without units. */
  function Joined(k: State, id: nat, c: Pid): State
    requires id in k.sems
  {
    k.(sems := k.sems[id := k.sems[id].(queue := k.sems[id].queue + [c])])
  }

  lemma WaitJoins(k: State, id: nat)
    requires Known(k) && k.current.Some? && id in k.sems && k.sems[id].value == 0
    ensures Known(Joined(k, id, k.current.value)) && Joined(k, id, k.current.value).current == k.current
    ensures SemWait(k, id) == (BlockFor(Joined(k, id, k.current.value), k.current.value, BLK_SEMAPHORE), 0)
  {
  }

  function Taken(k: State, id: nat): State
    requires id in k.sems
  {
    var s := k.sems[id];
    if s.queue == [] then k else k.(sems := k.sems[id := s.(queue := s.queue[1..])])
  }

  function WithValue(k: State, id: nat, value: nat): State
    requires id in k.sems
  {
    k.(sems := k.sems[id := k.sems[id].(value := value)])
  }

  function Raised(k: State, id: nat): State
    requires id in k.sems
  {
    WithValue(k, id, k.sems[id].value + 1)
  }

  lemma PostHands(k: State, id: nat)
    requires Known(k) && id in k.sems
    ensures var s := k.sems[id];
            if s.queue == [] then SemPost(k, id) == (Raised(Taken(k, id), id), 0)
            else s.queue[0] in k.procs && SemPost(k, id) == (MakeReady(Taken(k, id), s.queue[0]), 0)
  {
    var s := k.sems[id];
    assert s.queue != [] ==> s.queue[0] in s.queue;
  }

  lemma DispatchTakes(k: State)
    requires Known(k) && k.ready != []
    ensures var p := k.ready[0];
            && p in k.procs
            && Dispatch(k) == SetPcb(k.(current := Some(p), ready := k.ready[1..]), p,
                                     k.procs[p].(status := RUNNING, quantum := k.procs[p].priority))
  {
    assert k.ready[0] in k.ready;
  }

  class Kernel {
    var procs: map<Pid, Pcb>
    const ready: Queue<Pid>
    const blocked: Queue<Pid>
    var current: Option<Pid>
    var sems: map<nat, Entry>
    var halted: bool

    ghost var owner: map<Node<Pid>, Queue<Pid>>

    ghost function Queues(): set<Queue<Pid>>
      reads this`sems
    {
      {ready, blocked} + set id | id in sems :: sems[id].queue
    }

    /** The queue `q` is in order, and its nodes are its own. */
    ghost predicate Sound(q: Queue<Pid>)
      reads this`owner, q, owner.Keys
    {
      (forall n :: n in q.nodes ==> n in owner && owner[n] == q) && q.Valid()
    }

    /** The queues are different objects, each in order with nodes of its own. */
    ghost predicate Valid()
      reads this`sems, this`owner, Queues(), owner.Keys
    {
      && ready != blocked
      && (forall id :: id in sems ==> sems[id].queue != ready && sems[id].queue != blocked)
      && (forall id, jd :: id in sems && jd in sems && id != jd ==> sems[id].queue != sems[jd].queue)
      && (forall q :: q in Queues() ==> Sound(q))
    }

    /** The scheduling queues have gained no nodes but new ones. */
    twostate predicate OnlyNewNodes()
      reads ready, blocked
    {
      && (forall i :: 0 <= i < |ready.nodes| ==> ready.nodes[i] in old(ready.nodes) || fresh(ready.nodes[i]))
      && (forall i :: 0 <= i < |blocked.nodes| ==> blocked.nodes[i] in old(blocked.nodes) || fresh(blocked.nodes[i]))
    }

    ghost function SemsView(): map<nat, Sem<Pid>>
      reads this`sems, set id | id in sems :: sems[id].queue
    {
      map id | id in sems :: Sem(sems[id].value, sems[id].queue.Contents())
    }

    ghost function View(): State
      reads this, ready, blocked, set id | id in sems :: sems[id].queue
    {
      State(procs, ready.Contents(), blocked.Contents(), current, SemsView(), halted)
    }

    /** Writing one queue, and no node of another's, leaves the others sound. */
    twostate lemma OthersStaySound(q: Queue<Pid>)
      requires old(Valid()) && sems == old(sems) && q in Queues()
      requires forall n :: n in old(owner) ==> n in owner && owner[n] == old(owner)[n]
      requires forall r :: r in Queues() && r != q ==> unchanged(r)
      requires forall n :: n in old(owner) && old(owner)[n] != q ==> unchanged(n)
      ensures forall r :: r in Queues() && r != q ==> Sound(r)
    {
      forall r | r in Queues() && r != q
        ensures Sound(r)
      {
        assert old(Sound(r));
        assert forall n :: n in r.nodes ==> n in old(owner) && old(owner)[n] == r;
        r.Untouched();
      }
    }

    /** enqueue on one of the kernel's queues. */
    method PutLast(q: Queue<Pid>, p: Pid)
      requires Valid() && q in Queues()
      modifies this`owner, q, q.nodes
      ensures Valid() && forall n :: n in q.nodes ==> n in old(q.nodes) || fresh(n)
      ensures q.Contents() == old(q.Contents()) + [p]
    {
      assert Sound(q);
      var node := q.Enqueue(p, true);
      owner := owner[node := q];
      OthersStaySound(q);
    }

    /** dequeue on one of the kernel's queues. */
    method TakeFirst(q: Queue<Pid>) returns (p: Option<Pid>)
      requires Valid() && q in Queues()
      modifies q, q.nodes
      ensures Valid() && forall n :: n in q.nodes ==> n in old(q.nodes)
      ensures p == if old(q.Contents()) == [] then None else Some(old(q.Contents())[0])
      ensures q.Contents() == if old(q.Contents()) == [] then [] else old(q.Contents())[1..]
    {
      assert Sound(q);
      p := q.Dequeue();
      OthersStaySound(q);
    }

    /** queue_remove on one of the kernel's queues. */
    method Drop(q: Queue<Pid>, p: Pid)
      requires Valid() && q in Queues()
      modifies q, q.nodes
      ensures Valid() && forall n :: n in q.nodes ==> n in old(q.nodes)
      ensures q.Contents() == Without(old(q.Contents()), p)
    {
      assert Sound(q);
      q.Remove(p);
      OthersStaySound(q);
    }

    /** What is not written of the kernel looks the same. */
    twostate lemma ViewMoves()
      requires old(Valid()) && sems == old(sems) && procs == old(procs) && current == old(current)
      requires halted == old(halted) && forall id :: id in sems ==> unchanged(sems[id].queue)
      ensures View() == old(View()).(ready := ready.Contents(), blocked := blocked.Contents())
    {
      assert SemsView() == old(SemsView());
    }

    method PutReady(p: Pid)
      requires Valid()
      modifies this`owner, ready, ready.nodes
      ensures Valid() && OnlyNewNodes()
      ensures View() == old(View()).(ready := old(View()).ready + [p])
    {
      PutLast(ready, p);
      ViewMoves();
    }

    method TakeReady() returns (p: Option<Pid>)
      requires Valid()
      modifies ready, ready.nodes
      ensures Valid() && OnlyNewNodes()
      ensures p == if old(View()).ready == [] then None else Some(old(View()).ready[0])
      ensures View() == if p == None then old(View()) else old(View()).(ready := old(View()).ready[1..])
    {
      p := TakeFirst(ready);
      ViewMoves();
    }

    method DropReady(p: Pid)
      requires Valid()
      modifies ready, ready.nodes
      ensures Valid() && OnlyNewNodes()
      ensures View() == old(View()).(ready := Without(old(View()).ready, p))
    {
      Drop(ready, p);
      ViewMoves();
    }

    method PutBlocked(p: Pid)
      requires Valid()
      modifies this`owner, blocked, blocked.nodes
      ensures Valid() && OnlyNewNodes()
      ensures View() == old(View()).(blocked := old(View()).blocked + [p])
    {
      PutLast(blocked, p);
      ViewMoves();
    }

    method DropBlocked(p: Pid)
      requires Valid()
      modifies blocked, blocked.nodes
      ensures Valid() && OnlyNewNodes()
      ensures View() == old(View()).(blocked := Without(old(View()).blocked, p))
    {
      Drop(blocked, p);
      ViewMoves();
    }

    /** Writes fields of one control block. */
    method SetProc(p: Pid, b: Pcb)
      requires Valid()
      modifies this`procs
      ensures Valid() && procs == old(procs)[p := b] && View() == SetPcb(old(View()), p, b)
    {
      procs := procs[p := b];
    }

    method SetCurrent(c: Option<Pid>)
      requires Valid()
      modifies this`current
      ensures Valid() && current == c && View() == old(View()).(current := c)
    {
      current := c;
    }

    /** The loops of the kernel that no longer schedule. */
    method Halt()
      requires Valid()
      modifies this`halted
      ensures Valid() && View() == old(View()).(halted := true)
    {
      halted := true;
    }

    // initialize_scheduler and the spawn of idle
    constructor ()
      ensures Valid() && fresh(ready) && fresh(blocked)
      ensures View() == Spawn(State(map[], [], [], None, map[], false), IDLE)
    {
      procs := map[IDLE := Pcb(READY, BLK_NONE, QUANTUM_DEFAULT, 0, None)];
      var r := new Queue<Pid>();
      var b := new Queue<Pid>();
      ready, blocked := r, b;
      current := None;
      sems := map[];
      halted := false;
      owner := map[];
      new;
      PutReady(IDLE);
    }

    method ProcReady(p: Pid)
      requires Valid() && p in procs
      modifies this`procs, this`owner, ready, ready.nodes, blocked, blocked.nodes
      ensures Valid() && OnlyNewNodes()
      ensures View() == MakeReady(old(View()), p)
    {
      SetProc(p, procs[p].(status := READY, reason := BLK_NONE));
      PutReady(p);
      DropBlocked(p);
    }

    method EnqueueNextProcess()
      requires Valid() && Known(View())
      modifies this`procs, this`current, this`halted, ready, ready.nodes
      ensures Valid() && OnlyNewNodes()
      ensures View() == Dispatch(old(View()))
    {
      var next := TakeReady();
      SetCurrent(next);
      if next == None {
        Halt();
      } else {
        var p := next.value;
        DispatchTakes(old(View()));
        SetProc(p, procs[p].(status := RUNNING, quantum := procs[p].priority));
      }
    }

    // schedule
    method Schedule()
      requires Valid() && Known(View())
      modifies this`procs, this`owner, this`current, this`halted, ready, ready.nodes, blocked, blocked.nodes
      ensures Valid() && OnlyNewNodes()
      ensures View() == Tick(old(View()))
    {
      assert ready in Queues() && Sound(ready);
      if ready.count == 0 {
        if current == None || procs[current.value].status != RUNNING {
          Halt();
        } else {
          SetProc(current.value, procs[current.value].(quantum := procs[current.value].priority));
        }
      } else if current == None {
        EnqueueNextProcess();
      } else {
        var c := current.value;
        if procs[c].quantum > 0 {
          SetProc(c, procs[c].(quantum := procs[c].quantum - 1));
        }
        if procs[c].quantum == 0 {
          assert View() == SetQuantum(old(View()), c, 0) by {
            assert procs == old(procs)[c := old(procs)[c].(quantum := 0)];
          }
          Turn(c);
        }
      }
    }

    /** The end of a turn: the current process queues up if it can run, and the next one starts. */
    method Turn(c: Pid)
      requires Valid() && Known(View()) && current == Some(c)
      modifies this`procs, this`owner, this`current, this`halted, ready, ready.nodes, blocked, blocked.nodes
      ensures Valid() && OnlyNewNodes()
      ensures View() == Rotate(old(View()))
    {
      if procs[c].status != BLOCKED && procs[c].status != ZOMBIE && procs[c].status != DEAD {
        ProcReady(c);
      }
      EnqueueNextProcess();
    }

    // yield
    method GiveWay()
      requires Valid() && Known(View()) && current.Some?
      modifies this`procs, this`owner, this`current, this`halted, ready, ready.nodes, blocked, blocked.nodes
      ensures Valid() && OnlyNewNodes()
      ensures View() == Yield(old(View()))
    {
      SetProc(current.value, procs[current.value].(quantum := 0));
      Schedule();
    }

    method Park(p: Pid, reason: Reason)
      requires Valid() && p in procs
      modifies this`procs, this`owner, ready, ready.nodes, blocked, blocked.nodes
      ensures Valid() && OnlyNewNodes()
      ensures View() == Parked(old(View()), p, reason)
    {
      SetProc(p, procs[p].(status := BLOCKED, reason := reason));
      DropReady(p);
      PutBlocked(p);
    }

    // block
    method Block(p: Pid, reason: Reason)
      requires Valid() && Known(View()) && p in procs
      modifies this`procs, this`owner, this`current, this`halted, ready, ready.nodes, blocked, blocked.nodes
      ensures Valid() && OnlyNewNodes()
      ensures View() == BlockFor(old(View()), p, reason)
    {
      BlockForParks(View(), p, reason);
      Park(p, reason);
      if current == Some(p) {
        GiveWay();
      }
    }

    method BlockProcessByPid(p: Pid) returns (code: int)
      requires Valid() && Known(View())
      modifies this`procs, this`owner, this`current, this`halted, ready, ready.nodes, blocked, blocked.nodes
      ensures Valid() && OnlyNewNodes()
      ensures (View(), code) == BlockByPid(old(View()), p)
    {
      if p !in procs {
        return -1;
      }
      if procs[p].status == ZOMBIE || procs[p].status == DEAD {
        return -1;
      }
      if procs[p].status == BLOCKED {
        return 0;
      }
      Block(p, BLK_ARBITRARY);
      return 0;
    }

    method UnblockProcessByPid(p: Pid) returns (code: int)
      requires Valid()
      modifies this`procs, this`owner, ready, ready.nodes, blocked, blocked.nodes
      ensures Valid() && OnlyNewNodes()
      ensures (View(), code) == UnblockByPid(old(View()), p)
    {
      if p !in procs {
        return -1;
      }
      if procs[p].status != BLOCKED {
        return 0;
      }
      ProcReady(p);
      return 0;
    }

    // proc_init and proc_ready, as sys_spawn_process calls them
    method SpawnProcess(p: Pid)
      requires Valid() && p !in procs
      modifies this`procs, this`owner, ready, ready.nodes, blocked, blocked.nodes
      ensures Valid() && OnlyNewNodes()
      ensures View() == Spawn(old(View()), p)
    {
      SetProc(p, Pcb(READY, BLK_NONE, QUANTUM_DEFAULT, 0, current));
      ProcReady(p);
    }

    method SetPriority(child: Pid, n: nat) returns (code: int)
      requires Valid()
      modifies this`procs
      ensures Valid() && (View(), code) == ChangePriority(old(View()), child, n)
    {
      if child !in procs {
        return -1;
      }
      if procs[child].parent != current {
        return -1;
      }
      if n <= 0 || n > QUANTUM_MAX {
        return -1;
      }
      SetProc(child, procs[child].(priority := n, quantum := n));
      return 0;
    }

    // ---- semaphores ----

    /** The queue of an open semaphore. */
    ghost function SemQueue(id: nat): set<Queue<Pid>>
      reads this`sems
    {
      if id in sems then {sems[id].queue} else {}
    }

    ghost function SemNodes(id: nat): set<Node<Pid>>
      reads this`sems, SemQueue(id)
    {
      if id in sems then set n | n in sems[id].queue.nodes else {}
    }

    method SetValue(id: nat, value: nat)
      requires Valid() && id in sems
      modifies this`sems
      ensures Valid() && sems.Keys == old(sems).Keys
      ensures forall jd :: jd in sems ==> sems[jd].queue == old(sems)[jd].queue
      ensures View() == WithValue(old(View()), id, value)
    {
      sems := sems[id := Entry(value, sems[id].queue)];
      assert SemsView() == old(SemsView())[id := old(SemsView())[id].(value := value)];
    }

    method PutWaiter(id: nat, p: Pid)
      requires Valid() && id in sems
      modifies this`owner, SemQueue(id), SemNodes(id)
      ensures Valid() && ready.nodes == old(ready.nodes) && blocked.nodes == old(blocked.nodes)
      ensures View() == Joined(old(View()), id, p)
    {
      var q := sems[id].queue;
      PutLast(q, p);
      assert SemsView() == old(SemsView())[id := old(SemsView())[id].(queue := old(q.Contents()) + [p])];
    }

    method TakeWaiter(id: nat) returns (p: Option<Pid>)
      requires Valid() && id in sems
      modifies SemQueue(id), SemNodes(id)
      ensures Valid() && ready.nodes == old(ready.nodes) && blocked.nodes == old(blocked.nodes)
      ensures p == if old(View()).sems[id].queue == [] then None else Some(old(View()).sems[id].queue[0])
      ensures View() == Taken(old(View()), id)
    {
      var q := sems[id].queue;
      p := TakeFirst(q);
      assert SemsView() == old(SemsView())[id := old(SemsView())[id].(queue := q.Contents())];
    }

    /** A new entry of the table, with an empty queue. */
    method AddSemaphore(id: nat, value: nat, q: Queue<Pid>)
      requires Valid() && id !in sems && q !in Queues() && q.Valid() && q.nodes == []
      modifies this`sems
      ensures Valid() && View() == old(View()).(sems := old(View()).sems[id := Sem(value, [])])
    {
      sems := sems[id := Entry(value, q)];
      assert q.Contents() == [];
      assert SemsView() == old(SemsView())[id := Sem(value, [])];
    }

    // my_sem_create; without memory for the waiting queue nothing happens
    method CreateSemaphore(id: nat, value: nat, memory: bool) returns (code: int)
      requires Valid()
      modifies this`sems
      ensures Valid()
      ensures (View(), code) == if memory then SemCreate(old(View()), id, value) else (old(View()), -1)
    {
      if id < MAX_SEMAPHORES && id !in sems && memory {
        var q := new Queue<Pid>();
        AddSemaphore(id, value, q);
        return 0;
      }
      return -1;
    }

    // my_sem_wait
    method WaitSemaphore(id: nat) returns (code: int)
      requires Valid() && Known(View()) && current.Some?
      modifies this`procs, this`owner, this`current, this`halted, this`sems, ready, ready.nodes, blocked, blocked.nodes,
               SemQueue(id), SemNodes(id)
      ensures Valid() && (View(), code) == SemWait(old(View()), id)
    {
      if id !in sems {
        return -1;
      }
      if sems[id].value > 0 {
        SetValue(id, sems[id].value - 1);
        return 0;
      }
      WaitJoins(View(), id);
      PutWaiter(id, current.value);
      Block(current.value, BLK_SEMAPHORE);
      return 0;
    }

    method Raise(id: nat)
      requires Valid() && id in sems
      modifies this`sems
      ensures Valid() && View() == Raised(old(View()), id)
    {
      SetValue(id, sems[id].value + 1);
    }

    // my_sem_post
    method PostSemaphore(id: nat) returns (code: int)
      requires Valid() && Known(View())
      modifies this`procs, this`owner, this`sems, ready, ready.nodes, blocked, blocked.nodes, SemQueue(id), SemNodes(id)
      ensures Valid() && (View(), code) == SemPost(old(View()), id)
    {
      if id !in sems {
        return -1;
      }
      PostHands(View(), id);
      var p := TakeWaiter(id);
      if p != None {
        ProcReady(p.value);
      } else {
        Raise(id);
      }
      return 0;
    }

    // my_sem_trywait
    method TryWaitSemaphore(id: nat) returns (code: int)
      requires Valid()
      modifies this`sems
      ensures Valid() && (View(), code) == SemTryWait(old(View()), id)
    {
      if id !in sems {
        return -1;
      }
      if sems[id].value > 0 {
        SetValue(id, sems[id].value - 1);
        return 0;
      }
      assert View().sems == View().sems[id := View().sems[id]];
      return 1;
    }
  }
}
