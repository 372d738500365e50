/**
  The books of one semaphore over a whole run of the kernel: units are conserved, waiters are
  served in the order they arrived, and a semaphore created with value v lets at most v
  processes at a time between a wait and their post.
 */
module SemaphoreLedger {
  import opened Basics
  import opened Semaphores
  import opened SchedulerModel
  import opened SchedulerPartition

  datatype Ledger = Ledger(
    posts: nat,               // posts made
    done: nat,                // waits that have completed, at once or by a hand-off
    arrived: seq<Pid>,        // processes that had to sleep, in order
    released: seq<Pid>,       // processes handed a unit by a post, in order
    inside: multiset<Pid>)    // processes between a completed wait and their post

  const EMPTY: Ledger := Ledger(0, 0, [], [], multiset{})

  /** What event `e` in state `k` adds to the books of semaphore `id`. */
  function Entry(k: State, e: Event, id: nat, l: Ledger): Ledger
    requires Known(k) && Allowed(k, e) && id in k.sems
  {
    var s := k.sems[id];
    match e
    case WaitCall(i) =>
      if i != id then l
      else if s.Passes() then l.(done := l.done + 1, inside := l.inside + multiset{k.current.value})
      else l.(arrived := l.arrived + [k.current.value])
    case TryWaitCall(i) =>
      if i != id || !s.Passes() then l
      else l.(done := l.done + 1, inside := if k.current.Some? then l.inside + multiset{k.current.value} else l.inside)
    case PostCall(i) =>
      if i != id then l
      else
        var left := if k.current.Some? then l.inside - multiset{k.current.value} else l.inside;
        (match s.Woken()
         case None => l.(posts := l.posts + 1, inside := left)
         case Some(p) =>
           l.(posts := l.posts + 1, done := l.done + 1, released := l.released + [p], inside := left + multiset{p}))
    case _ => l
  }

  ghost function Audit(k: State, events: seq<Event>, id: nat, l: Ledger): Ledger
    requires Inv(k) && Runs(k, events) && id in k.sems
    decreases |events|
  {
    if events == [] then l
    else
      StepInv(k, events[0]);
      SemaphoreStays(k, events[0], id);
      Audit(Step(k, events[0]), events[1..], id, Entry(k, events[0], id, l))
  }

  /** Only the calls on a semaphore touch it. */
  lemma SemaphoreStays(k: State, e: Event, id: nat)
    requires Inv(k) && Allowed(k, e) && id in k.sems
    ensures id in Step(k, e).sems
    ensures Step(k, e).sems[id] ==
            if e == WaitCall(id) then k.sems[id].Wait(k.current.value)
            else if e == PostCall(id) then k.sems[id].Post()
            else if e == TryWaitCall(id) then k.sems[id].TryWait()
            else k.sems[id]
  {
    if k.current.Some? {
      assert InPlace(k, k.current.value, k.current);
    }
    if e.TimerTick? {
      TickReasons(k);
    } else if e.YieldCall? {
      TickReasons(SetQuantum(k, k.current.value, 0));
    } else if e.WaitCall? {
      WaitTouches(k, e.id);
    } else if e.BlockCall? {
      BlockTouches(k, e.pid);
    }
  }

  lemma WaitTouches(k: State, id: nat)
    requires Inv(k) && k.current.Some? && k.current != Some(IDLE)
    ensures id !in k.sems ==> SemWait(k, id).0.sems == k.sems
    ensures id in k.sems ==> SemWait(k, id).0.sems == k.sems[id := k.sems[id].Wait(k.current.value)]
  {
    if id in k.sems && !k.sems[id].Passes() {
      WaitSleepsSched(k, id);
    }
  }

  lemma BlockTouches(k: State, p: Pid)
    requires Inv(k) && k.current.Some? && p != IDLE
    ensures BlockByPid(k, p).0.sems == k.sems
  {
    if k.current == Some(p) {
      BlockReasons(k, p, BLK_ARBITRARY);
    }
  }

  /** The books balance, with initial value `v`. */
  ghost predicate Balanced(k: State, id: nat, v: nat, l: Ledger) {
    && id in k.sems
    && v + l.posts == k.sems[id].value + l.done
    && l.arrived == l.released + k.sems[id].queue
  }

  lemma EntryBalances(k: State, e: Event, id: nat, v: nat, l: Ledger)
    requires Inv(k) && Allowed(k, e) && Balanced(k, id, v, l)
    ensures Balanced(Step(k, e), id, v, Entry(k, e, id, l))
  {
    SemaphoreStays(k, e, id);
    if e == PostCall(id) || e == WaitCall(id) {
      LineMoves(l.arrived, l.released, k.sems[id].queue);
    }
  }

  /** Those that came stay those released and those waiting when one joins or the first one leaves. */
  lemma LineMoves(arrived: seq<Pid>, released: seq<Pid>, q: seq<Pid>)
    requires arrived == released + q
    ensures forall p :: arrived + [p] == released + (q + [p])
    ensures q != [] ==> arrived == released + [q[0]] + q[1..]
  {
  }

  lemma {:induction false} AuditBalances(k: State, events: seq<Event>, id: nat, v: nat, l: Ledger)
    requires Inv(k) && Runs(k, events) && Balanced(k, id, v, l)
    ensures Balanced(After(k, events), id, v, Audit(k, events, id, l))
    decreases |events|
  {
    if events != [] {
      StepInv(k, events[0]);
      EntryBalances(k, events[0], id, v, l);
      AuditBalances(Step(k, events[0]), events[1..], id, v, Entry(k, events[0], id, l));
    }
  }

  /**
    Conservation and first come, first served: from a semaphore created with value `v`, in
    every run, the initial value and the posts are the value and the completed waits; nobody
    sleeps while the value is positive; and those released are the first of those that came.
   */
  lemma UnitsConservedInOrder(k: State, events: seq<Event>, id: nat, v: nat)
    requires Inv(k) && Runs(k, events) && id in k.sems && k.sems[id] == Sem(v, [])
    ensures var u := After(k, events);
            var l := Audit(k, events, id, EMPTY);
            && id in u.sems
            && v + l.posts == u.sems[id].value + l.done
            && (u.sems[id].value > 0 ==> u.sems[id].queue == [])
            && l.arrived == l.released + u.sems[id].queue
  {
    AuditBalances(k, events, id, v, EMPTY);
  }

  // ---- mutual exclusion ----

  /** Every post of the semaphore is made by a process that is inside. */
  ghost predicate Disciplined(k: State, events: seq<Event>, id: nat, l: Ledger)
    requires Inv(k) && Runs(k, events) && id in k.sems
    decreases |events|
  {
    events == [] ||
    (&& (events[0] == PostCall(id) ==> k.current.Some? && k.current.value in l.inside)
     && (events[0] == TryWaitCall(id) ==> k.current.Some?)
     && (StepInv(k, events[0]);
         SemaphoreStays(k, events[0], id);
         Disciplined(Step(k, events[0]), events[1..], id, Entry(k, events[0], id, l))))
  }

  lemma {:induction false} InsideIsBounded(k: State, events: seq<Event>, id: nat, v: nat, l: Ledger)
    requires Inv(k) && Runs(k, events) && id in k.sems && Disciplined(k, events, id, l)
    requires |l.inside| + k.sems[id].value == v
    ensures id in After(k, events).sems
    ensures |Audit(k, events, id, l).inside| + After(k, events).sems[id].value == v
    decreases |events|
  {
    if events != [] {
      StepInv(k, events[0]);
      SemaphoreStays(k, events[0], id);
      InsideIsBounded(Step(k, events[0]), events[1..], id, v, Entry(k, events[0], id, l));
    }
  }

  /** With initial value 1 a semaphore is a lock: at most one process is inside, in every run. */
  lemma BinarySemaphoreExcludes(k: State, events: seq<Event>, id: nat)
    requires Inv(k) && Runs(k, events) && id in k.sems && k.sems[id] == Sem(1, [])
    requires Disciplined(k, events, id, EMPTY)
    ensures |Audit(k, events, id, EMPTY).inside| <= 1
  {
    InsideIsBounded(k, events, id, 1, EMPTY);
  }
}
