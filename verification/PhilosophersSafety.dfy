/**
  No two distinct adjacent philosophers drive at the same time, in any reachable state of
  the ring, however it grows and shrinks.
 */
module PhilosophersSafety {
  import opened Semaphores
  import opened Sequences
  import opened Philosophers
  import opened PhilosophersGate

  /** No two distinct neighbours drive. */
  ghost predicate Exclusion(t: Table) {
    t.count <= |t.phase| &&
    forall i :: 0 <= i < t.count ==>
      Right(t.count, i) == i || t.phase[i] != DRIVING || t.phase[Right(t.count, i)] != DRIVING
  }

  /** What philosopher `i`, inside the section, knows from the tests it has made. */
  ghost predicate Promise(t: Table, i: nat)
    requires Shaped(t) && i < t.count
  {
    var l, r := Left(t.count, i), Right(t.count, i);
    match t.pc[i]
    case TakeGrant => t.phase[l] != DRIVING && t.phase[r] != DRIVING
    case LeaveTestLeft => t.phase[i] == THINKING
    case LeaveGrantLeft => t.phase[i] == THINKING && CanDrive(t, l, Left(t.count, l))
    case LeaveSignalLeft => t.phase[i] == THINKING
    case LeaveTestRight => t.phase[i] == THINKING
    case LeaveGrantRight => t.phase[i] == THINKING && CanDrive(t, r, Right(t.count, r))
    case _ => true
  }

  /** What holds of a place that is not (or not yet) in the ring. */
  ghost predicate Outside(t: Table, i: nat)
    requires Shaped(t) && i < |t.pc|
  {
    && t.pc[i] in {Absent, Born, Resting, TakeBlocked}
    && t.phase[i] in {NONE, THINKING}
    && (t.pc[i] == Absent ==> t.phase[i] == NONE)
    && (t.pc[i] == Absent || (i == t.count && t.boss == GrowCount))
  }

  ghost predicate BossPromise(t: Table)
    requires Shaped(t)
  {
    && (t.boss in {GrowBlocked, GrowCreate, GrowSpawn, GrowCount} ==> t.count < |t.pc|)
    && (Shrinking(t.boss) ==> t.count > MIN_PHY)
    && (t.boss in {ShrinkKill, ShrinkClose, ShrinkErase, ShrinkCount} ==>
          t.phase[t.count - 2] != DRIVING || t.phase[0] != DRIVING)
    && (t.boss in {ShrinkClose, ShrinkErase, ShrinkCount} ==> t.pc[t.count - 1] == Absent)
    && (t.boss == ShrinkCount ==> t.phase[t.count - 1] == NONE)
  }

  ghost predicate RingInv(t: Table) {
    && Shaped(t)
    && Exclusion(t)
    && (forall i :: t.count <= i < |t.pc| ==> Outside(t, i))
    && (forall i :: 0 <= i < |t.pc| && t.pc[i] == Born ==> t.phase[i] == NONE)
    && (forall i :: 0 <= i < t.count ==> Promise(t, i))
    && BossPromise(t)
  }

  ghost predicate Inv(t: Table) {
    GateInv(t) && SeatQueues(t) && RingInv(t)
  }

  /** Promises only concern philosophers in the section. */
  ghost predicate Idlers(t: Table, except: nat)
    requires Shaped(t)
  {
    forall j :: 0 <= j < |t.pc| && j != except ==> !InSection(t.pc[j])
  }

  /** A step that writes no phase: only the movers' own promises have to be checked. */
  lemma RingFrame(t: Table, u: Table)
    requires RingInv(t) && Shaped(u) && |u.pc| == |t.pc|
    requires u.count == t.count && u.phase == t.phase
    requires u.boss == t.boss || (u.boss != GrowCount && t.boss != GrowCount && BossPromise(u))
    requires forall j :: 0 <= j < |t.pc| ==>
               u.pc[j] == t.pc[j] || (t.pc[j] != Absent && u.pc[j] !in {Absent, Born}
                                      && if j < t.count then Promise(u, j) else u.pc[j] in {Resting, TakeBlocked})
    ensures RingInv(u)
  {
    forall i | 0 <= i < t.count
      ensures Promise(u, i)
    {
      assert Promise(t, i);
    }
    forall i | t.count <= i < |t.pc|
      ensures Outside(u, i)
    {
      assert Outside(t, i);
    }
  }

  // ---- steps that write a phase, by the only process in the section ----

  lemma WriteKeepsExclusion(t: Table, k: nat, p: Phase)
    requires Exclusion(t) && k < t.count
    requires p == DRIVING && Right(t.count, k) != k ==>
               t.phase[Left(t.count, k)] != DRIVING && t.phase[Right(t.count, k)] != DRIVING
    ensures Exclusion(SetPhase(t, k, p))
  {
  }

  /** `i` writes a phase at `k` in the ring; nobody else is in the section. */
  lemma PhaseWriteKeeps(t: Table, i: nat, k: nat, p: Phase, after: Pc)
    requires RingInv(t) && i < t.count && k < t.count && Idlers(t, i) && !BossInSection(t.boss)
    requires InSection(t.pc[i]) && InSection(after)
    requires t.pc[k] != Born
    requires p == DRIVING && Right(t.count, k) != k ==>
               t.phase[Left(t.count, k)] != DRIVING && t.phase[Right(t.count, k)] != DRIVING
    requires Promise(SetPc(SetPhase(t, k, p), i, after), i)
    ensures RingInv(SetPc(SetPhase(t, k, p), i, after))
  {
    var u := SetPc(SetPhase(t, k, p), i, after);
    WriteKeepsExclusion(t, k, p);
    forall j | t.count <= j < |t.pc|
      ensures Outside(u, j)
    {
      assert Outside(t, j);
    }
    forall j | 0 <= j < t.count
      ensures Promise(u, j)
    {
      if j != i {
        assert !InSection(u.pc[j]);
      }
    }
  }

  /** A new philosopher writes THINKING over NONE, with or without the lock held by others. */
  lemma BornKeeps(t: Table, i: nat)
    requires RingInv(t) && i < |t.pc| && t.pc[i] == Born
    ensures RingInv(SetPc(SetPhase(t, i, THINKING), i, Resting))
  {
    var u := SetPc(SetPhase(t, i, THINKING), i, Resting);
    BornKeepsExclusion(t, i);
    BornKeepsPromises(t, i);
    forall j | t.count <= j < |t.pc|
      ensures Outside(u, j)
    {
      assert Outside(t, j);
    }
  }

  lemma BornKeepsExclusion(t: Table, i: nat)
    requires Exclusion(t) && i < |t.phase|
    ensures Exclusion(SetPhase(t, i, THINKING))
  {
  }

  lemma BornKeepsPromises(t: Table, i: nat)
    requires RingInv(t) && i < |t.pc| && t.pc[i] == Born
    ensures forall j :: 0 <= j < t.count ==> Promise(SetPc(SetPhase(t, i, THINKING), i, Resting), j)
  {
    forall j | 0 <= j < t.count
      ensures Promise(SetPc(SetPhase(t, i, THINKING), i, Resting), j)
    {
      assert Promise(t, j);
    }
  }

  lemma OutsidePlaces(t: Table)
    requires RingInv(t)
    ensures forall i :: t.count <= i < |t.pc| ==>
              && t.pc[i] in {Absent, Born, Resting, TakeBlocked}
              && t.phase[i] in {NONE, THINKING}
              && (t.pc[i] == Absent || (i == t.count && t.boss == GrowCount))
  {
    forall i | t.count <= i < |t.pc|
      ensures t.pc[i] in {Absent, Born, Resting, TakeBlocked}
      ensures t.phase[i] in {NONE, THINKING}
      ensures t.pc[i] == Absent || (i == t.count && t.boss == GrowCount)
    {
      assert Outside(t, i);
    }
  }

  lemma OwnSectionOnly(t: Table, i: nat)
    requires Inv(t) && i < |t.pc| && InSection(t.pc[i])
    ensures i < t.count && Idlers(t, i) && !BossInSection(t.boss) && Promise(t, i) && t.gate.value == 0
  {
    OutsidePlaces(t);
  }

  /** SEM_ID calls outside the section keep the ring: the woken process only learns nothing. */
  lemma WaitGateKeepsRing(t: Table, i: nat, blocked: Pc)
    requires Inv(t) && i < |t.pc|
    requires (blocked == TakeBlocked && t.pc[i] == Resting) || (blocked == LeaveBlocked && t.pc[i] == Driving)
    ensures Inv(WaitGate(t, i, blocked))
  {
    WaitGateKeeps(t, i, blocked);
    var u := WaitGate(t, i, blocked);
    SeatFrame(t, u);
    OutsidePlaces(t);
    RingFrame(t, u);
  }

  lemma PostGateKeepsRing(t: Table)
    requires Leaving(t) && SeatQueues(t) && RingInv(t)
    ensures Inv(PostGate(t))
  {
    PostGateKeeps(t);
    var u := PostGate(t);
    var q := t.gate.queue;
    if q != [] {
      assert q[0] in q && Asleep(t, q[0]);
    }
    OutsidePlaces(t);
    SeatFrame(t, u);
    RingFrame(t, u);
  }

  lemma LeaveSectionKeeps(t: Table, i: nat, after: Pc)
    requires Inv(t) && i < |t.pc| && InSection(t.pc[i]) && after in {Sitting, Resting}
    ensures Inv(PostGate(SetPc(t, i, after)))
  {
    OwnSectionOnly(t, i);
    var u := SetPc(t, i, after);
    LeaveSection(t, i, after);
    forall p: Proc
      ensures Asleep(u, p) <==> Asleep(t, p)
    {
    }
    SeatFrame(t, u);
    RingFrame(t, u);
    PostGateKeepsRing(u);
  }

  /** A step of the section's holder that only moves it on inside the section. */
  lemma StepInSection(t: Table, i: nat, after: Pc)
    requires Inv(t) && i < |t.pc| && InSection(t.pc[i]) && InSection(after) && i < t.count
    requires Promise(SetPc(t, i, after), i)
    ensures Inv(SetPc(t, i, after))
  {
    var u := SetPc(t, i, after);
    GateFrame(t, u);
    StepKeepsSeats(t, i, after);
    RingFrame(t, u);
  }

  lemma StepKeepsSeats(t: Table, i: nat, after: Pc)
    requires SeatQueues(t) && i < |t.pc| && t.pc[i] != SeatBlocked
    ensures SeatQueues(SetPc(t, i, after))
  {
  }

  /** A step of the section's holder that writes a phase. */
  lemma WriteInSection(t: Table, i: nat, k: nat, p: Phase, after: Pc)
    requires Inv(t) && i < t.count && k < t.count && InSection(t.pc[i]) && InSection(after)
    requires t.pc[k] != Born
    requires p == DRIVING && Right(t.count, k) != k ==>
               t.phase[Left(t.count, k)] != DRIVING && t.phase[Right(t.count, k)] != DRIVING
    requires Promise(SetPc(SetPhase(t, k, p), i, after), i)
    ensures Inv(SetPc(SetPhase(t, k, p), i, after))
  {
    OwnSectionOnly(t, i);
    WriteKeepsGate(t, i, k, p, after);
    PhaseWriteKeeps(t, i, k, p, after);
  }

  lemma WriteKeepsGate(t: Table, i: nat, k: nat, p: Phase, after: Pc)
    requires GateInv(t) && SeatQueues(t) && Shaped(t) && i < |t.pc| && k < |t.pc|
    requires InSection(t.pc[i]) && InSection(after)
    ensures GateInv(SetPc(SetPhase(t, k, p), i, after)) && SeatQueues(SetPc(SetPhase(t, k, p), i, after))
  {
    var u := SetPc(SetPhase(t, k, p), i, after);
    GateFrame(t, u);
    SeatFrame(t, u);
  }

  /** A step of the section's holder that posts a seat. */
  lemma SignalInSection(t: Table, i: nat, k: nat, after: Pc)
    requires Inv(t) && i < t.count && k < t.count && InSection(t.pc[i]) && InSection(after)
    requires Promise(SetPc(t, i, after), i)
    ensures Inv(SetPc(PostSeat(t, k), i, after))
  {
    OwnSectionOnly(t, i);
    PostSeatKeeps(t, k);
    var u := PostSeat(t, k);
    assert Promise(SetPc(u, i, after), i) by {
      assert SetPc(u, i, after).phase == SetPc(t, i, after).phase;
    }
    StepInSection(u, i, after);
  }

  lemma PostSeatKeeps(t: Table, k: nat)
    requires Inv(t) && k < t.count
    ensures Inv(PostSeat(t, k))
    ensures PostSeat(t, k).phase == t.phase && PostSeat(t, k).count == t.count
    ensures forall i :: 0 <= i < |t.pc| && InSection(t.pc[i]) ==> PostSeat(t, k).pc[i] == t.pc[i]
  {
    OutsidePlaces(t);
    PostSeatKeepsGate(t, k);
    PostSeatKeepsQueues(t, k);
    var q := t.seat[k].queue;
    if q != [] {
      assert q[0] in q && MaySleepOn(t, k, q[0]);
    }
    RingFrame(t, PostSeat(t, k));
  }

  lemma SitKeepsQueues(t: Table, i: nat)
    requires SeatQueues(t) && i < |t.pc| && t.pc[i] == Sitting
    ensures SeatQueues(Move(t, i))
  {
    var u := Move(t, i);
    forall p | p in t.seat[i].queue
      ensures p != Phylo(i)
    {
      assert MaySleepOn(t, i, p);
    }
    AppendDistinct(t.seat[i].queue, Phylo(i));
    forall k, p | 0 <= k < |t.pc| && p in u.seat[k].queue
      ensures MaySleepOn(u, k, p)
    {
      assert p in t.seat[k].queue ==> MaySleepOn(t, k, p);
    }
  }

  lemma SitKeeps(t: Table, i: nat)
    requires Inv(t) && i < |t.pc| && t.pc[i] == Sitting
    ensures Inv(Move(t, i))
  {
    OutsidePlaces(t);
    SitKeepsQueues(t, i);
    GateFrame(t, Move(t, i));
    RingFrame(t, Move(t, i));
  }

  lemma TakeMoveKeeps(t: Table, i: nat)
    requires Inv(t) && i < |t.pc| && t.pc[i] in {TakeMark, TakeTest, TakeGrant, TakeSignal, TakeExit}
    ensures i < t.count && Inv(Move(t, i))
  {
    OwnSectionOnly(t, i);
    match t.pc[i]
    case TakeMark => WriteInSection(t, i, i, WAITING, TakeTest);
    case TakeTest => StepInSection(t, i, Move(t, i).pc[i]);
    case TakeGrant => WriteInSection(t, i, i, DRIVING, TakeSignal);
    case TakeSignal => SignalInSection(t, i, i, TakeExit);
    case TakeExit => LeaveSectionKeeps(t, i, Sitting);
  }

  lemma LeaveLeftKeeps(t: Table, i: nat)
    requires Inv(t) && i < |t.pc| && t.pc[i] in {LeaveMark, LeaveTestLeft, LeaveGrantLeft, LeaveSignalLeft}
    ensures i < t.count && Inv(Move(t, i))
  {
    OwnSectionOnly(t, i);
    match t.pc[i]
    case LeaveMark => WriteInSection(t, i, i, THINKING, LeaveTestLeft);
    case LeaveTestLeft => StepInSection(t, i, Move(t, i).pc[i]);
    case LeaveGrantLeft => WriteInSection(t, i, Left(t.count, i), DRIVING, LeaveSignalLeft);
    case LeaveSignalLeft => SignalInSection(t, i, Left(t.count, i), LeaveTestRight);
  }

  lemma LeaveRightKeeps(t: Table, i: nat)
    requires Inv(t) && i < |t.pc| && t.pc[i] in {LeaveTestRight, LeaveGrantRight, LeaveSignalRight, LeaveExit}
    ensures i < t.count && Inv(Move(t, i))
  {
    OwnSectionOnly(t, i);
    match t.pc[i]
    case LeaveTestRight => StepInSection(t, i, Move(t, i).pc[i]);
    case LeaveGrantRight => WriteInSection(t, i, Right(t.count, i), DRIVING, LeaveSignalRight);
    case LeaveSignalRight => SignalInSection(t, i, Right(t.count, i), LeaveExit);
    case LeaveExit => LeaveSectionKeeps(t, i, Resting);
  }

  lemma MoveKeeps(t: Table, i: nat)
    requires Inv(t) && CanMove(t, i)
    ensures InSection(t.pc[i]) ==> i < t.count
    ensures Inv(Move(t, i))
  {
    if InSection(t.pc[i]) {
      OwnSectionOnly(t, i);
    }
    if t.pc[i] == Born {
      var u := Move(t, i);
      GateFrame(t, u);
      SeatFrame(t, u);
      BornKeeps(t, i);
    } else if t.pc[i] == Resting {
      WaitGateKeepsRing(t, i, TakeBlocked);
    } else if t.pc[i] == Driving {
      WaitGateKeepsRing(t, i, LeaveBlocked);
    } else if t.pc[i] == Sitting {
      SitKeeps(t, i);
    } else if t.pc[i] in {TakeMark, TakeTest, TakeGrant, TakeSignal, TakeExit} {
      TakeMoveKeeps(t, i);
    } else if t.pc[i] in {LeaveMark, LeaveTestLeft, LeaveGrantLeft, LeaveSignalLeft} {
      LeaveLeftKeeps(t, i);
    } else {
      LeaveRightKeeps(t, i);
    }
  }

  // ---- the main process ----

  /** A step of the main process that leaves philosophers, phases and count alone. */
  lemma BossFrame(t: Table, u: Table)
    requires Inv(t) && u == t.(boss := u.boss)
    requires BossInSection(t.boss) == BossInSection(u.boss) && BossGateBlocked(t.boss) == BossGateBlocked(u.boss)
    requires t.boss !in {ShrinkSeatBlocked, GrowCount} && u.boss != GrowCount && BossPromise(u)
    ensures Inv(u)
  {
    GateFrame(t, u);
    SeatFrame(t, u);
    RingFrame(t, u);
  }

  lemma GrowKeeps(t: Table)
    requires Inv(t) && t.boss in {GrowCreate, GrowSpawn, GrowCount}
    ensures t.count < |t.pc| && Inv(BossMove(t))
  {
    OutsidePlaces(t);
    var u := BossMove(t);
    GateFrame(t, u);
    if t.boss == GrowCreate {
      assert forall k :: 0 <= k < |t.pc| && k != t.count ==> u.seat[k] == t.seat[k];
      forall k, p | 0 <= k < |t.pc| && p in u.seat[k].queue
        ensures MaySleepOn(u, k, p)
      {
        assert MaySleepOn(t, k, p);
      }
    } else {
      SeatFrame(t, u);
    }
    GrowKeepsRing(t);
  }

  lemma GrowKeepsExclusion(t: Table)
    requires Exclusion(t) && t.count < |t.phase| && t.phase[t.count] != DRIVING
    ensures Exclusion(t.(count := t.count + 1))
  {
    var n := t.count;
    forall i | 0 <= i < n + 1
      ensures Right(n + 1, i) == i || t.phase[i] != DRIVING || t.phase[Right(n + 1, i)] != DRIVING
    {
      if i < n - 1 {
        assert Right(n, i) == Right(n + 1, i);
      }
    }
  }

  lemma ShrinkKeepsExclusion(t: Table)
    requires Exclusion(t) && t.count > MIN_PHY && (t.phase[t.count - 2] != DRIVING || t.phase[0] != DRIVING)
    ensures Exclusion(t.(count := t.count - 1))
  {
    var n := t.count;
    forall i | 0 <= i < n - 1
      ensures Right(n - 1, i) == i || t.phase[i] != DRIVING || t.phase[Right(n - 1, i)] != DRIVING
    {
      if i < n - 2 {
        assert Right(n, i) == Right(n - 1, i);
      }
    }
  }

  lemma CreateKeepsRing(t: Table)
    requires RingInv(t) && t.boss == GrowCreate && t.count < |t.pc|
    ensures RingInv(BossMove(t))
  {
    RingFrame(t, BossMove(t));
  }

  lemma GrowKeepsRing(t: Table)
    requires RingInv(t) && t.boss in {GrowCreate, GrowSpawn, GrowCount} && t.count < |t.pc| && SectionExclusive(t)
    ensures RingInv(BossMove(t))
  {
    if t.boss == GrowCreate {
      CreateKeepsRing(t);
    } else if t.boss == GrowSpawn {
      SpawnKeepsRing(t);
    } else {
      CountUpKeepsRing(t);
    }
  }

  lemma SpawnKeepsRing(t: Table)
    requires RingInv(t) && t.boss == GrowSpawn && t.count < |t.pc|
    ensures RingInv(SetPc(t, t.count, Born).(boss := GrowCount))
  {
    var u := SetPc(t, t.count, Born).(boss := GrowCount);
    assert Outside(t, t.count);
    forall i | t.count <= i < |t.pc|
      ensures Outside(u, i)
    {
      assert Outside(t, i);
    }
    forall i | 0 <= i < t.count
      ensures Promise(u, i)
    {
      assert Promise(t, i);
    }
  }

  lemma CountUpKeepsRing(t: Table)
    requires RingInv(t) && t.boss == GrowCount && t.count < |t.pc| && SectionExclusive(t)
    ensures RingInv(t.(count := t.count + 1, boss := GrowExit))
  {
    var u := t.(count := t.count + 1, boss := GrowExit);
    assert Outside(t, t.count);
    GrowKeepsExclusion(t);
    forall i | u.count <= i < |t.pc|
      ensures Outside(u, i)
    {
      assert Outside(t, i);
    }
    forall i | 0 <= i < u.count
      ensures Promise(u, i)
    {
      assert !InSection(u.pc[i]);
    }
  }

  lemma KillKeeps(t: Table)
    requires Inv(t) && t.boss == ShrinkKill
    ensures t.count > MIN_PHY && Inv(Vanish(t, t.count - 1).(boss := ShrinkClose))
  {
    var v := t.count - 1;
    VanishKeeps(t, v);
    VanishKeepsQueues(t, v);
    VanishKeepsRing(t, v);
    var u := Vanish(t, v);
    GateFrame(u, u.(boss := ShrinkClose));
    SeatFrame(u, u.(boss := ShrinkClose));
  }

  lemma VanishKeepsQueues(t: Table, v: nat)
    requires SeatQueues(t) && v < |t.pc|
    ensures SeatQueues(Vanish(t, v))
  {
    var u := Vanish(t, v);
    WithoutDistinct(t.seat[v].queue, Phylo(v));
    forall k, p | 0 <= k < |t.pc| && p in u.seat[k].queue
      ensures p in t.seat[k].queue && !(p == Phylo(v) && k == v)
      ensures MaySleepOn(u, k, p)
    {
      assert MaySleepOn(t, k, p);
    }
  }

  lemma VanishKeepsRing(t: Table, v: nat)
    requires RingInv(t) && v == t.count - 1 && t.boss == ShrinkKill
    ensures RingInv(Vanish(t, v).(boss := ShrinkClose))
  {
    var u := Vanish(t, v).(boss := ShrinkClose);
    forall i | 0 <= i < t.count
      ensures Promise(u, i)
    {
      assert Promise(t, i);
    }
    forall i | t.count <= i < |t.pc|
      ensures Outside(u, i)
    {
      assert Outside(t, i);
    }
  }

  lemma CloseKeeps(t: Table)
    requires Inv(t) && t.boss == ShrinkClose
    ensures t.count > MIN_PHY && Inv(t.(seat := t.seat[t.count - 1 := Sem(0, [])], boss := ShrinkErase))
  {
    var u := t.(seat := t.seat[t.count - 1 := Sem(0, [])], boss := ShrinkErase);
    GateFrame(t, u);
    forall k, p | 0 <= k < |t.pc| && p in u.seat[k].queue
      ensures MaySleepOn(u, k, p)
    {
      assert MaySleepOn(t, k, p);
    }
    CloseKeepsRing(t);
  }

  lemma EraseKeeps(t: Table)
    requires Inv(t) && t.boss == ShrinkErase
    ensures t.count > MIN_PHY && Inv(SetPhase(t, t.count - 1, NONE).(boss := ShrinkCount))
  {
    var u := SetPhase(t, t.count - 1, NONE).(boss := ShrinkCount);
    GateFrame(t, u);
    SeatFrame(t, u);
    EraseKeepsRing(t);
  }

  lemma CountDownKeeps(t: Table)
    requires Inv(t) && t.boss == ShrinkCount
    ensures t.count > MIN_PHY && Inv(t.(count := t.count - 1, boss := ShrinkExit))
  {
    var u := t.(count := t.count - 1, boss := ShrinkExit);
    GateFrame(t, u);
    SeatFrame(t, u);
    CountDownKeepsRing(t);
  }

  lemma CloseKeepsRing(t: Table)
    requires RingInv(t) && t.boss == ShrinkClose
    ensures RingInv(t.(seat := t.seat[t.count - 1 := Sem(0, [])], boss := ShrinkErase))
  {
    RingFrame(t, t.(seat := t.seat[t.count - 1 := Sem(0, [])], boss := ShrinkErase));
  }

  lemma EraseKeepsRing(t: Table)
    requires RingInv(t) && t.boss == ShrinkErase && SectionExclusive(t)
    ensures RingInv(SetPhase(t, t.count - 1, NONE).(boss := ShrinkCount))
  {
    EraseKeepsExclusion(t, t.count - 1);
    var u := SetPhase(t, t.count - 1, NONE).(boss := ShrinkCount);
    EraseKeepsOutside(t, u);
    IdlePromises(u);
    EraseKeepsPromise(t, u);
  }

  lemma EraseKeepsOutside(t: Table, u: Table)
    requires RingInv(t) && t.boss == ShrinkErase && u == SetPhase(t, t.count - 1, NONE).(boss := ShrinkCount)
    ensures forall i :: t.count <= i < |t.pc| ==> Outside(u, i)
  {
    forall i | t.count <= i < |t.pc|
      ensures Outside(u, i)
    {
      assert Outside(t, i);
    }
  }

  lemma EraseKeepsPromise(t: Table, u: Table)
    requires RingInv(t) && t.boss == ShrinkErase && u == SetPhase(t, t.count - 1, NONE).(boss := ShrinkCount)
    ensures BossPromise(u) && forall i :: 0 <= i < |u.pc| && u.pc[i] == Born ==> u.phase[i] == NONE
  {
  }

  /** Nobody outside the section has promised anything. */
  lemma IdlePromises(t: Table)
    requires Shaped(t) && forall i :: 0 <= i < t.count ==> !InSection(t.pc[i])
    ensures forall i :: 0 <= i < t.count ==> Promise(t, i)
  {
  }

  lemma EraseKeepsExclusion(t: Table, v: nat)
    requires Exclusion(t) && v < |t.phase|
    ensures Exclusion(SetPhase(t, v, NONE))
  {
  }

  /** Taking the last philosopher out puts two new neighbours side by side; not both drive. */
  lemma CountDownKeepsRing(t: Table)
    requires RingInv(t) && t.boss == ShrinkCount && SectionExclusive(t)
    ensures RingInv(t.(count := t.count - 1, boss := ShrinkExit))
  {
    var u := t.(count := t.count - 1, boss := ShrinkExit);
    ShrinkKeepsExclusion(t);
    forall i | u.count <= i < |t.pc|
      ensures Outside(u, i)
    {
      assert i >= t.count ==> Outside(t, i);
    }
    forall i | 0 <= i < u.count
      ensures Promise(u, i)
    {
      assert !InSection(u.pc[i]);
    }
  }

  lemma BossSitsOnce(t: Table)
    requires SeatQueues(t) && t.boss == ShrinkSit && t.count > MIN_PHY
    ensures forall k :: 0 <= k < |t.pc| ==> Distinct(BossMove(t).seat[k].queue)
  {
    var v := t.count - 1;
    forall p | p in t.seat[v].queue
      ensures p != Boss
    {
      assert MaySleepOn(t, v, p);
    }
    AppendDistinct(t.seat[v].queue, Boss);
  }

  lemma BossSitKeepsQueues(t: Table)
    requires SeatQueues(t) && t.boss == ShrinkSit && t.count > MIN_PHY
    ensures SeatQueues(BossMove(t))
  {
    var u := BossMove(t);
    BossSitsOnce(t);
    forall k, p | 0 <= k < |t.pc| && p in u.seat[k].queue
      ensures MaySleepOn(u, k, p)
    {
      assert p in t.seat[k].queue ==> MaySleepOn(t, k, p);
    }
  }

  lemma BossSitKeeps(t: Table)
    requires Inv(t) && t.boss == ShrinkSit
    ensures t.count > MIN_PHY && Inv(BossMove(t))
  {
    BossSitKeepsQueues(t);
    GateFrame(t, BossMove(t));
    RingFrame(t, BossMove(t));
  }

  lemma BossLeaves(t: Table, after: BossPc)
    requires Inv(t) && t.boss in {GrowExit, ShrinkRelease, ShrinkExit} && after in {Idle, ShrinkSit}
    requires after == ShrinkSit ==> t.count > MIN_PHY
    ensures Inv(PostGate(t.(boss := after)))
  {
    BossLeavesSection(t, after);
    var u := t.(boss := after);
    forall p: Proc
      ensures Asleep(u, p) <==> Asleep(t, p)
    {
    }
    SeatFrame(t, u);
    RingFrame(t, u);
    PostGateKeepsRing(u);
  }

  lemma BossWaits(t: Table, blocked: BossPc)
    requires Inv(t) && t.boss in {Idle, ShrinkReenter} && BossGateBlocked(blocked)
    requires blocked == GrowBlocked ==> t.count < |t.pc|
    requires blocked != GrowBlocked ==> t.count > MIN_PHY
    ensures Inv(BossWaitGate(t, blocked))
  {
    BossWaitGateKeeps(t, blocked);
    var u := BossWaitGate(t, blocked);
    SeatFrame(t, u);
    RingFrame(t, u);
  }

  lemma BossMoveKeeps(t: Table)
    requires Inv(t) && t.boss != Idle && !BossGateBlocked(t.boss) && t.boss != ShrinkSeatBlocked
    ensures BossCanMove(t) && Inv(BossMove(t))
  {
    if t.boss in {GrowCreate, GrowSpawn, GrowCount} {
      GrowKeeps(t);
    } else if t.boss in {GrowExit, ShrinkRelease, ShrinkExit} {
      BossLeaves(t, if t.boss == ShrinkRelease then ShrinkSit else Idle);
    } else if t.boss == ShrinkErase {
      EraseMoves(t);
    } else if t.boss == ShrinkCount {
      CountDownMoves(t);
    } else if t.boss == ShrinkKill {
      KillMoves(t);
    } else if t.boss == ShrinkClose {
      CloseMoves(t);
    } else {
      BossOtherKeeps(t);
    }
  }

  lemma EraseMoves(t: Table)
    requires Inv(t) && t.boss == ShrinkErase
    ensures BossCanMove(t) && Inv(BossMove(t))
  {
    EraseKeeps(t);
    assert BossMove(t) == SetPhase(t, t.count - 1, NONE).(boss := ShrinkCount);
  }

  lemma CountDownMoves(t: Table)
    requires Inv(t) && t.boss == ShrinkCount
    ensures BossCanMove(t) && Inv(BossMove(t))
  {
    CountDownKeeps(t);
    assert BossMove(t) == t.(count := t.count - 1, boss := ShrinkExit);
  }

  lemma KillMoves(t: Table)
    requires Inv(t) && t.boss == ShrinkKill
    ensures BossCanMove(t) && Inv(BossMove(t))
  {
    KillKeeps(t);
    KillStep(t);
  }

  lemma KillStep(t: Table)
    requires Shaped(t) && t.boss == ShrinkKill && t.count > MIN_PHY
    ensures BossMove(t) == Vanish(t, t.count - 1).(boss := ShrinkClose)
  {
  }

  lemma CloseMoves(t: Table)
    requires Inv(t) && t.boss == ShrinkClose
    ensures BossCanMove(t) && Inv(BossMove(t))
  {
    CloseKeeps(t);
    assert BossMove(t) == t.(seat := t.seat[t.count - 1 := Sem(0, [])], boss := ShrinkErase);
  }

  /** The loop guard of remove_phylo: when it is false, the two neighbours do not both drive. */
  lemma GuardKeeps(t: Table)
    requires Inv(t) && t.boss == ShrinkTest
    ensures t.count > MIN_PHY && Inv(BossMove(t))
  {
    GuardStep(t);
    BossFrame(t, BossMove(t));
  }

  lemma GuardStep(t: Table)
    requires Shaped(t) && t.boss == ShrinkTest && t.count > MIN_PHY
    ensures BossMove(t) == t.(boss := BossMove(t).boss) && BossMove(t).boss in {ShrinkKill, ShrinkRelease}
    ensures BossMove(t).boss == ShrinkKill ==> t.phase[t.count - 2] != DRIVING || t.phase[0] != DRIVING
  {
  }

  lemma BossOtherKeeps(t: Table)
    requires Inv(t) && t.boss in {ShrinkTest, ShrinkSit, ShrinkReenter}
    ensures BossCanMove(t) && Inv(BossMove(t))
  {
    if t.boss == ShrinkTest {
      GuardKeeps(t);
    } else if t.boss == ShrinkSit {
      BossSitKeeps(t);
    } else {
      BossWaits(t, ShrinkReenterBlocked);
    }
  }

  // ---- every reachable state ----

  /** An empty table with room for `places` philosophers, just after SEM_ID is created. */
  function Init(places: nat): Table {
    Table(0, seq(places, _ => NONE), seq(places, _ => Absent), Sem(1, []), seq(places, _ => Sem(0, [])), Idle)
  }

  lemma InitInv(places: nat)
    ensures Inv(Init(places))
  {
  }

  lemma ActKeeps(t: Table, a: Action)
    requires Inv(t)
    ensures Inv(Act(t, a))
  {
    if Enabled(t, a) {
      match a
      case PhyloStep(i) => MoveKeeps(t, i);
      case BossStep => BossMoveKeeps(t);
      case StartGrow => BossWaits(t, GrowBlocked);
      case StartShrink => BossWaits(t, ShrinkBlocked);
    }
  }

  /** The state after a sequence of steps, first step first. */
  function Run(t: Table, acts: seq<Action>): (u: Table)
    requires Shaped(t)
    ensures Shaped(u) && |u.pc| == |t.pc|
    decreases |acts|
  {
    if acts == [] then t else Run(Act(t, acts[0]), acts[1..])
  }

  lemma {:induction false} RunKeeps(t: Table, acts: seq<Action>)
    requires Inv(t)
    ensures Inv(Run(t, acts))
    decreases |acts|
  {
    if acts != [] {
      ActKeeps(t, acts[0]);
      RunKeeps(Act(t, acts[0]), acts[1..]);
    }
  }

  /** Mutual exclusion, for every capacity and every interleaving of all processes. */
  lemma NeighboursNeverDriveTogether(places: nat, acts: seq<Action>)
    ensures var t := Run(Init(places), acts);
            forall i, j :: 0 <= i < t.count && 0 <= j < t.count && i != j &&
              (j == Right(t.count, i) || j == Left(t.count, i))
              ==> !(t.phase[i] == DRIVING && t.phase[j] == DRIVING)
  {
    InitInv(places);
    RunKeeps(Init(places), acts);
    var t := Run(Init(places), acts);
    forall i, j | 0 <= i < t.count && 0 <= j < t.count && i != j && (j == Right(t.count, i) || j == Left(t.count, i))
      ensures !(t.phase[i] == DRIVING && t.phase[j] == DRIVING)
    {
      assert Right(t.count, i) == j || Right(t.count, j) == i;
    }
  }
}
