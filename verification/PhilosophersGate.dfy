/**
  SEM_ID is a lock: in every reachable state exactly one process is between a wait and the
  matching post, or the semaphore is free; and the processes asleep on it are exactly those
  in its queue.
 */
module PhilosophersGate {
  import opened Sequences
  import opened Philosophers

  predicate BossInSection(b: BossPc) {
    b in {GrowCreate, GrowSpawn, GrowCount, GrowExit, ShrinkTest, ShrinkRelease, ShrinkKill, ShrinkClose, ShrinkErase,
          ShrinkCount, ShrinkExit}
  }

  ghost predicate SectionEmpty(t: Table) {
    !BossInSection(t.boss) && forall i :: 0 <= i < |t.pc| ==> !InSection(t.pc[i])
  }

  /** At most one process is inside the section. */
  ghost predicate SectionExclusive(t: Table) {
    && (forall i, j :: 0 <= i < |t.pc| && 0 <= j < |t.pc| && InSection(t.pc[i]) && InSection(t.pc[j]) ==> i == j)
    && (BossInSection(t.boss) ==> forall i :: 0 <= i < |t.pc| ==> !InSection(t.pc[i]))
  }

  ghost predicate Asleep(t: Table, p: Proc) {
    match p
    case Boss => BossGateBlocked(t.boss)
    case Phylo(i) => i < |t.pc| && GateBlocked(t.pc[i])
  }

  /** The queue of SEM_ID holds exactly the processes asleep on it, each once. */
  ghost predicate QueueExact(t: Table) {
    && Distinct(t.gate.queue)
    && (forall p :: p in t.gate.queue <==> Asleep(t, p))
  }

  ghost predicate GateInv(t: Table) {
    && Shaped(t)
    && QueueExact(t)
    && SectionExclusive(t)
    && t.gate.value <= 1
    && (t.gate.value == 1 <==> SectionEmpty(t))
    && (t.gate.value == 1 ==> t.gate.queue == [])
  }

  /** A step that moves nobody in or out of the section or of the queue keeps the lock. */
  lemma GateFrame(t: Table, u: Table)
    requires GateInv(t) && Shaped(u) && |u.pc| == |t.pc| && u.gate == t.gate
    requires BossInSection(u.boss) == BossInSection(t.boss) && BossGateBlocked(u.boss) == BossGateBlocked(t.boss)
    requires forall i :: 0 <= i < |t.pc| ==>
               InSection(u.pc[i]) == InSection(t.pc[i]) && GateBlocked(u.pc[i]) == GateBlocked(t.pc[i])
    ensures GateInv(u)
  {
  }

  lemma WaitGateKeeps(t: Table, i: nat, blocked: Pc)
    requires GateInv(t) && i < |t.pc| && !InSection(t.pc[i]) && !GateBlocked(t.pc[i]) && GateBlocked(blocked)
    ensures GateInv(WaitGate(t, i, blocked))
  {
    var u := WaitGate(t, i, blocked);
    if t.gate.value == 0 {
      forall p: Proc
        ensures Asleep(u, p) <==> Asleep(t, p) || p == Phylo(i)
      {
      }
      assert !Asleep(t, Phylo(i));
      assert SectionEmpty(u) ==> SectionEmpty(t) by {
        assert forall j :: 0 <= j < |t.pc| && j != i ==> u.pc[j] == t.pc[j];
      }
    } else {
      assert InSection(u.pc[i]);
      forall p: Proc
        ensures Asleep(u, p) <==> Asleep(t, p)
      {
      }
    }
  }

  lemma BossWaitGateKeeps(t: Table, blocked: BossPc)
    requires GateInv(t) && !BossInSection(t.boss) && !BossGateBlocked(t.boss) && BossGateBlocked(blocked)
    ensures GateInv(BossWaitGate(t, blocked))
  {
    var u := BossWaitGate(t, blocked);
    assert !Asleep(t, Boss);
    forall p: Proc
      ensures Asleep(u, p) <==> Asleep(t, p) || (p == Boss && t.gate.value == 0)
    {
    }
  }

  /** The holder has left but not posted yet. */
  ghost predicate Leaving(t: Table) {
    Shaped(t) && QueueExact(t) && SectionEmpty(t) && t.gate.value == 0
  }

  lemma PostGateKeeps(t: Table)
    requires Leaving(t)
    ensures GateInv(PostGate(t))
  {
    var u := PostGate(t);
    if t.gate.queue != [] {
      var q := t.gate.queue[0];
      assert q in t.gate.queue;
      assert t.gate.queue == [q] + t.gate.queue[1..];
      forall p: Proc
        ensures Asleep(u, p) <==> Asleep(t, p) && p != q
      {
      }
      if q.Phylo? {
        assert InSection(u.pc[q.i]);
      }
    } else {
      forall p: Proc
        ensures Asleep(u, p) <==> Asleep(t, p)
      {
      }
    }
  }

  lemma LeaveSection(t: Table, i: nat, after: Pc)
    requires GateInv(t) && i < |t.pc| && InSection(t.pc[i]) && !InSection(after) && !GateBlocked(after)
    ensures GateInv(PostGate(SetPc(t, i, after)))
  {
    var u := SetPc(t, i, after);
    forall p: Proc
      ensures Asleep(u, p) <==> Asleep(t, p)
    {
    }
    PostGateKeeps(u);
  }

  lemma BossLeavesSection(t: Table, after: BossPc)
    requires GateInv(t) && BossInSection(t.boss) && !BossInSection(after) && !BossGateBlocked(after)
    ensures GateInv(PostGate(t.(boss := after)))
  {
    var u := t.(boss := after);
    forall p: Proc
      ensures Asleep(u, p) <==> Asleep(t, p)
    {
    }
    PostGateKeeps(u);
  }

  lemma VanishKeeps(t: Table, v: nat)
    requires GateInv(t) && BossInSection(t.boss) && v < |t.pc|
    ensures GateInv(Vanish(t, v))
  {
    var u := Vanish(t, v);
    WithoutDistinct(t.gate.queue, Phylo(v));
    forall p: Proc
      ensures Asleep(u, p) <==> Asleep(t, p) && p != Phylo(v)
    {
    }
  }

  /** A seat is waited for by its own philosopher and, when it is the last, by the main process. */
  ghost predicate MaySleepOn(t: Table, k: nat, p: Proc) {
    match p
    case Boss => t.boss == ShrinkSeatBlocked && k + 1 == t.count
    case Phylo(i) => i == k && i < |t.pc| && t.pc[i] == SeatBlocked
  }

  ghost predicate SeatQueues(t: Table) {
    && Shaped(t)
    && (forall k :: 0 <= k < |t.pc| ==> Distinct(t.seat[k].queue))
    && (forall k, p :: 0 <= k < |t.pc| && p in t.seat[k].queue ==> MaySleepOn(t, k, p))
  }

  /** A step that changes no seat queue and wakes no sleeper on a seat. */
  lemma SeatFrame(t: Table, u: Table)
    requires SeatQueues(t) && Shaped(u) && |u.pc| == |t.pc|
    requires forall k :: 0 <= k < |t.pc| ==> u.seat[k].queue == t.seat[k].queue
    requires t.boss == ShrinkSeatBlocked ==> u.boss == ShrinkSeatBlocked && u.count == t.count
    requires forall i :: 0 <= i < |t.pc| && t.pc[i] == SeatBlocked ==> u.pc[i] == SeatBlocked
    ensures SeatQueues(u)
  {
  }

  lemma PostSeatKeepsQueues(t: Table, k: nat)
    requires SeatQueues(t) && k < |t.pc|
    ensures SeatQueues(PostSeat(t, k))
  {
    var u := PostSeat(t, k);
    var q := t.seat[k].queue;
    if q != [] {
      assert q == [q[0]] + q[1..];
      assert q[0] in q && MaySleepOn(t, k, q[0]);
      assert q[0] !in q[1..];
    }
    forall m, p | 0 <= m < |t.pc| && p in u.seat[m].queue
      ensures MaySleepOn(u, m, p)
    {
      assert p in t.seat[m].queue;
      assert MaySleepOn(t, m, p);
    }
  }

  /** A post of a seat moves nobody in or out of the section. */
  lemma PostSeatKeepsGate(t: Table, k: nat)
    requires GateInv(t) && SeatQueues(t) && k < |t.pc|
    ensures GateInv(PostSeat(t, k))
  {
    var q := t.seat[k].queue;
    if q != [] {
      assert q[0] in q && MaySleepOn(t, k, q[0]);
    }
    GateFrame(t, PostSeat(t, k));
  }
}
