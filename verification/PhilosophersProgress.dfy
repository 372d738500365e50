/**
  Progress of the philosophers while nobody is removed: tokens are neither lost nor
  duplicated, the ring never locks up, and a waiting philosopher whose neighbours do not
  drive is always about to be served. Adding a philosopher can break only the last of
  these, and it is said exactly when.
 */
module PhilosophersProgress {
  import opened Basics
  import opened Semaphores
  import opened Philosophers
  import opened PhilosophersGate
  import opened PhilosophersSafety

  /** The phases a philosopher can be in at each point of its program. */
  predicate Agrees(pc: Pc, phase: Phase) {
    if pc in {Absent, Born} then phase == NONE
    else if pc in {TakeTest, TakeGrant} then phase == WAITING
    else if pc in {TakeSignal, Driving, LeaveBlocked, LeaveMark} then phase == DRIVING
    else if pc in {TakeExit, Sitting, SeatBlocked} then phase in {WAITING, DRIVING}
    else phase == THINKING
  }

  ghost predicate PhasesAgree(t: Table) {
    Shaped(t) && forall i :: 0 <= i < |t.pc| ==> Agrees(t.pc[i], t.phase[i])
  }

  // ---- tokens ----

  /** Between take_pedals and the first write of leave_pedals. */
  predicate Between(pc: Pc) {
    pc in {Driving, LeaveBlocked, LeaveMark}
  }

  /** The seat that philosopher `j` is about to post. */
  function Owes(t: Table, j: nat): Option<nat>
    requires Shaped(t) && j < t.count
  {
    match t.pc[j]
    case TakeSignal => Some(j)
    case LeaveSignalLeft => Some(Left(t.count, j))
    case LeaveSignalRight => Some(Right(t.count, j))
    case _ => None
  }

  ghost predicate Owed(t: Table, i: nat)
    requires Shaped(t)
  {
    exists j :: 0 <= j < t.count && Owes(t, j) == Some(i)
  }

  function Bit(b: bool): nat {
    if b then 1 else 0
  }

  /** A philosopher that drives has one token: posted, about to be posted, or consumed. */
  ghost predicate Token(t: Table, i: nat)
    requires Shaped(t) && i < |t.pc|
  {
    && t.seat[i].queue == (if t.pc[i] == SeatBlocked then [Phylo(i)] else [])
    && (t.pc[i] == SeatBlocked ==> t.seat[i].value == 0)
    && t.seat[i].value + Bit(Between(t.pc[i])) + Bit(Owed(t, i)) == Bit(t.phase[i] == DRIVING)
  }

  ghost predicate Tokens(t: Table) {
    Shaped(t) && forall i :: 0 <= i < |t.pc| ==> Token(t, i)
  }

  /** With `i` in the section, only `i` can owe a post. */
  lemma OnlyHolderOwes(t: Table, i: nat)
    requires Shaped(t) && i < t.count && Idlers(t, i)
    ensures forall k: nat :: Owed(t, k) <==> Owes(t, i) == Some(k)
  {
  }

  /** Steps that change no phase and no seat, and no philosopher's place in the token cycle. */
  lemma TokensFrame(t: Table, u: Table)
    requires Tokens(t) && Shaped(u) && |u.pc| == |t.pc| && u.seat == t.seat && u.phase == t.phase
    requires forall k: nat :: Owed(u, k) <==> Owed(t, k)
    requires forall i :: 0 <= i < |t.pc| ==>
               Between(u.pc[i]) == Between(t.pc[i]) && (u.pc[i] == SeatBlocked <==> t.pc[i] == SeatBlocked)
    ensures Tokens(u)
  {
    forall i | 0 <= i < |t.pc|
      ensures Token(u, i)
    {
      assert Token(t, i);
    }
  }

  lemma OwesFrame(t: Table, u: Table)
    requires Shaped(t) && Shaped(u) && u.count == t.count
    requires forall j :: 0 <= j < t.count ==> Owes(u, j) == Owes(t, j)
    ensures forall k: nat :: Owed(u, k) <==> Owed(t, k)
  {
  }

  predicate Signals(pc: Pc) {
    pc in {TakeSignal, LeaveSignalLeft, LeaveSignalRight}
  }

  /** Philosopher-side view of a step that only moves program counters around SEM_ID. */
  ghost predicate SameCycle(t: Table, u: Table) {
    && Shaped(t) && Shaped(u)
    && |u.pc| == |t.pc| && u.count == t.count && u.seat == t.seat && u.phase == t.phase
    && forall i :: 0 <= i < |t.pc| ==>
         u.pc[i] == t.pc[i] ||
         (!Signals(t.pc[i]) && !Signals(u.pc[i]) && t.pc[i] != SeatBlocked && u.pc[i] != SeatBlocked
          && Between(u.pc[i]) == Between(t.pc[i]) && Agrees(u.pc[i], u.phase[i]))
  }

  lemma SameCycleKeeps(t: Table, u: Table)
    requires SameCycle(t, u) && Tokens(t) && PhasesAgree(t)
    ensures Tokens(u) && PhasesAgree(u)
  {
    OwesFrame(t, u);
    TokensFrame(t, u);
  }

  /**
    A write of a phase by the section's holder `i`: it ends a drive of its own, or it starts
    the drive of a philosopher that it will owe a post.
   */
  ghost predicate FairWrite(t: Table, i: nat, k: nat, p: Phase, after: Pc)
    requires Shaped(t) && i < t.count && k < t.count
  {
    var u := SetPc(SetPhase(t, k, p), i, after);
    && Idlers(t, i) && InSection(t.pc[i]) && !Signals(t.pc[i])
    && InSection(after) && after != LeaveMark
    && Agrees(after, u.phase[i]) && Agrees(u.pc[k], p)
    && Owes(u, i) == (if p == DRIVING then Some(k) else None)
    && (if t.pc[i] == LeaveMark then k == i && p == THINKING else t.phase[k] != DRIVING)
  }

  lemma WriteKeepsTokens(t: Table, i: nat, k: nat, p: Phase, after: Pc)
    requires Tokens(t) && i < t.count && k < t.count && FairWrite(t, i, k, p, after)
    ensures Tokens(SetPc(SetPhase(t, k, p), i, after))
  {
    var u := SetPc(SetPhase(t, k, p), i, after);
    OnlyHolderOwes(t, i);
    assert Idlers(u, i);
    OnlyHolderOwes(u, i);
    assert Owes(t, i) == None;
    forall j | 0 <= j < |t.pc|
      ensures Token(u, j)
    {
      assert Token(t, j);
      assert Owed(t, j) == false;
      assert Owed(u, j) == (p == DRIVING && j == k);
    }
  }

  lemma WriteKeepsPhases(t: Table, i: nat, k: nat, p: Phase, after: Pc)
    requires PhasesAgree(t) && i < t.count && k < t.count && FairWrite(t, i, k, p, after)
    ensures PhasesAgree(SetPc(SetPhase(t, k, p), i, after))
  {
  }

  lemma PostSeatIs(t: Table, k: nat)
    requires Shaped(t) && k < |t.pc| && Token(t, k) && Owed(t, k)
    ensures t.seat[k].value == 0 && t.phase[k] == DRIVING && !Between(t.pc[k])
    ensures t.pc[k] == SeatBlocked ==> PostSeat(t, k) == SetPc(t.(seat := t.seat[k := Sem(0, [])]), k, Driving)
    ensures t.pc[k] != SeatBlocked ==> PostSeat(t, k) == t.(seat := t.seat[k := Sem(1, [])])
  {
    if t.pc[k] == SeatBlocked {
      assert t.seat[k].queue[1..] == [];
    }
  }

  /** The owed post is made: it becomes a token of the seat, or wakes its philosopher. */
  lemma SignalKeepsTokens(t: Table, i: nat, k: nat, after: Pc)
    requires Tokens(t) && i < t.count && k < t.count && Idlers(t, i) && InSection(t.pc[i])
    requires Owes(t, i) == Some(k) && InSection(after) && after != LeaveMark && !Signals(after)
    ensures Tokens(SetPc(PostSeat(t, k), i, after))
  {
    var u := SetPc(PostSeat(t, k), i, after);
    OnlyHolderOwes(t, i);
    NobodyOwes(t, i, k, after);
    assert Token(t, k);
    PostSeatOthers(t, k);
    forall j | 0 <= j < |t.pc|
      ensures Token(u, j)
    {
      assert Token(t, j);
      if j != k {
        assert Owed(t, j) == false;
        OtherTokenKept(t, u, j);
      } else {
        PostedToken(t, i, k, after);
      }
    }
  }

  lemma PostSeatOthers(t: Table, k: nat)
    requires Shaped(t) && k < |t.pc| && Token(t, k) && Owed(t, k)
    ensures forall j :: 0 <= j < |t.pc| && j != k ==>
              PostSeat(t, k).seat[j] == t.seat[j] && PostSeat(t, k).pc[j] == t.pc[j]
  {
  }

  lemma NobodyOwes(t: Table, i: nat, k: nat, after: Pc)
    requires Shaped(t) && i < t.count && k < t.count && Idlers(t, i) && Token(t, k) && Owed(t, k)
    requires InSection(after) && !Signals(after)
    ensures forall j: nat :: !Owed(SetPc(PostSeat(t, k), i, after), j)
  {
  }

  lemma PostedToken(t: Table, i: nat, k: nat, after: Pc)
    requires Shaped(t) && i < t.count && k < t.count && Token(t, k) && Owed(t, k)
    requires InSection(t.pc[i]) && InSection(after) && after != LeaveMark
    requires !Owed(SetPc(PostSeat(t, k), i, after), k)
    ensures Token(SetPc(PostSeat(t, k), i, after), k)
  {
  }

  lemma OtherTokenKept(t: Table, u: Table, j: nat)
    requires Shaped(t) && Shaped(u) && |u.pc| == |t.pc| && j < |t.pc|
    requires Token(t, j) && Owed(u, j) == Owed(t, j) && u.seat[j] == t.seat[j] && u.phase[j] == t.phase[j]
    requires Between(u.pc[j]) == Between(t.pc[j]) && (u.pc[j] == SeatBlocked) == (t.pc[j] == SeatBlocked)
    ensures Token(u, j)
  {
  }

  lemma SignalKeepsPhases(t: Table, i: nat, k: nat, after: Pc)
    requires Tokens(t) && PhasesAgree(t) && i < t.count && k < t.count && Idlers(t, i)
    requires Owes(t, i) == Some(k) && Agrees(after, t.phase[i])
    ensures PhasesAgree(SetPc(PostSeat(t, k), i, after))
  {
    assert Owed(t, k);
    assert Token(t, k);
    PostSeatIs(t, k);
  }

  /** A philosopher consumes its token or goes to sleep without one. */
  lemma SitKeepsTokens(t: Table, i: nat)
    requires Tokens(t) && PhasesAgree(t) && i < |t.pc| && t.pc[i] == Sitting
    ensures Tokens(Move(t, i)) && PhasesAgree(Move(t, i))
  {
    var u := Move(t, i);
    OwesFrame(t, u);
    assert Token(t, i);
    forall j | 0 <= j < |t.pc|
      ensures Token(u, j)
    {
      assert Token(t, j);
    }
  }

  // ---- nobody waits in vain ----

  /** Everybody waiting is impossible, except while the one that just began looks around. */
  ghost predicate Awake(t: Table) {
    Shaped(t) && (t.count > 0 ==> exists i :: 0 <= i < t.count && NotStuck(t, i))
  }

  predicate NotStuck(t: Table, i: nat)
    requires Shaped(t) && i < t.count
  {
    t.phase[i] != WAITING || t.pc[i] in {TakeTest, TakeGrant}
  }

  lemma AwakeFrame(t: Table, u: Table)
    requires Awake(t) && Shaped(u) && u.count == t.count
    requires forall i :: 0 <= i < t.count && NotStuck(t, i) ==> NotStuck(u, i)
    ensures Awake(u)
  {
  }

  /** `i` waits and neither of its neighbours drives. */
  ghost predicate Hungry(t: Table, i: nat)
    requires Shaped(t) && i < t.count
  {
    && t.phase[i] == WAITING
    && t.phase[Left(t.count, i)] != DRIVING
    && t.phase[Right(t.count, i)] != DRIVING
  }

  /** `j`, inside the section, has yet to look at `i`. */
  predicate Serves(t: Table, j: nat, i: nat)
    requires Shaped(t) && j < t.count
  {
    match t.pc[j]
    case TakeTest => i == j
    case TakeGrant => i == j
    case LeaveTestLeft => i == Left(t.count, j) || i == Right(t.count, j)
    case LeaveGrantLeft => i == Left(t.count, j) || i == Right(t.count, j)
    case LeaveSignalLeft => i == Right(t.count, j)
    case LeaveTestRight => i == Right(t.count, j)
    case LeaveGrantRight => i == Right(t.count, j)
    case _ => false
  }

  /** Whoever could drive is about to be looked at. */
  ghost predicate NoLostWakeup(t: Table) {
    Shaped(t) &&
    forall i :: 0 <= i < t.count && Hungry(t, i) ==> exists j :: 0 <= j < t.count && Serves(t, j, i)
  }

  lemma WakeupFrame(t: Table, u: Table)
    requires NoLostWakeup(t) && Shaped(u) && u.count == t.count && |u.pc| == |t.pc|
    requires forall i :: 0 <= i < t.count && Hungry(u, i) ==> Hungry(t, i)
    requires forall j, i: nat :: 0 <= j < t.count && Serves(t, j, i) ==> Serves(u, j, i)
    ensures NoLostWakeup(u)
  {
  }

  /** A step of the holder `h`: whoever is hungry after it was, and is still to be looked at. */
  lemma HolderKeepsWakeups(t: Table, u: Table, h: nat)
    requires NoLostWakeup(t) && h < t.count && Idlers(t, h) && Shaped(u) && u.count == t.count
    requires forall i :: 0 <= i < t.count && Hungry(u, i) ==>
               Serves(u, h, i) || (Hungry(t, i) && (Serves(t, h, i) ==> Serves(u, h, i)))
    ensures NoLostWakeup(u)
  {
  }

  // ---- the progress invariant ----

  predicate Growing(b: BossPc) {
    b in {Idle, GrowBlocked, GrowCreate, GrowSpawn, GrowCount, GrowExit}
  }

  ghost predicate Progress(t: Table) {
    PhasesAgree(t) && Tokens(t) && Awake(t)
  }

  /** Steps around SEM_ID: nobody's place in any cycle changes. */
  lemma SameCycleProgress(t: Table, u: Table)
    requires SameCycle(t, u) && Progress(t)
    requires forall i :: 0 <= i < |t.pc| && t.pc[i] in {TakeTest, TakeGrant} ==> u.pc[i] == t.pc[i]
    ensures Progress(u)
  {
    SameCycleKeeps(t, u);
    AwakeFrame(t, u);
  }

  lemma PostGateSameCycle(t: Table)
    requires PhasesAgree(t) && QueueExact(t)
    ensures SameCycle(t, PostGate(t))
    ensures forall i :: 0 <= i < |t.pc| && InSection(t.pc[i]) ==> PostGate(t).pc[i] == t.pc[i]
    ensures forall i :: 0 <= i < |t.pc| && !InSection(t.pc[i]) ==>
              PostGate(t).pc[i] == t.pc[i] || PostGate(t).pc[i] in {TakeMark, LeaveMark}
  {
    var q := t.gate.queue;
    if q != [] {
      assert q[0] in q && Asleep(t, q[0]);
    }
  }

  /** The holder `i` posts SEM_ID and goes on outside the section. */
  lemma LeaveProgress(t: Table, i: nat, after: Pc)
    requires Inv(t) && Progress(t) && i < t.count
    requires (t.pc[i] == TakeExit && after == Sitting) || (t.pc[i] == LeaveExit && after == Resting)
    ensures Progress(PostGate(SetPc(t, i, after)))
    ensures NoLostWakeup(t) ==> NoLostWakeup(PostGate(SetPc(t, i, after)))
  {
    LeaveSameCycle(t, i, after);
    SameQueue(t, i, after);
    PostGateProgress(SetPc(t, i, after));
    if NoLostWakeup(t) {
      LeaveWakeups(t, i, after);
    }
  }

  lemma LeaveSameCycle(t: Table, i: nat, after: Pc)
    requires Progress(t) && i < t.count
    requires (t.pc[i] == TakeExit && after == Sitting) || (t.pc[i] == LeaveExit && after == Resting)
    ensures Progress(SetPc(t, i, after))
  {
    assert SameCycle(t, SetPc(t, i, after));
    SameCycleProgress(t, SetPc(t, i, after));
  }

  lemma PostGateProgress(u: Table)
    requires Progress(u) && QueueExact(u)
    ensures Progress(PostGate(u))
  {
    PostGateSameCycle(u);
    SameCycleProgress(u, PostGate(u));
  }

  lemma LeaveWakeups(t: Table, i: nat, after: Pc)
    requires NoLostWakeup(t) && i < |t.pc| && t.pc[i] in {TakeExit, LeaveExit} && !GateBlocked(after)
    requires PhasesAgree(SetPc(t, i, after)) && QueueExact(SetPc(t, i, after))
    ensures NoLostWakeup(PostGate(SetPc(t, i, after)))
  {
    var u := SetPc(t, i, after);
    PostGateSameCycle(u);
    WakeupFrame(t, u);
    WakeupFrame(u, PostGate(u));
  }

  lemma SameQueue(t: Table, i: nat, after: Pc)
    requires Shaped(t) && QueueExact(t) && i < |t.pc| && !GateBlocked(t.pc[i]) && !GateBlocked(after)
    ensures QueueExact(SetPc(t, i, after))
  {
  }

  /** A philosopher waits for SEM_ID. */
  lemma EnterProgress(t: Table, i: nat, blocked: Pc)
    requires Shaped(t) && Progress(t) && i < |t.pc|
    requires (blocked == TakeBlocked && t.pc[i] == Resting) || (blocked == LeaveBlocked && t.pc[i] == Driving)
    ensures Progress(WaitGate(t, i, blocked))
    ensures NoLostWakeup(t) ==> NoLostWakeup(WaitGate(t, i, blocked))
  {
    var u := WaitGate(t, i, blocked);
    assert SameCycle(t, u);
    SameCycleProgress(t, u);
    if NoLostWakeup(t) {
      WakeupFrame(t, u);
    }
  }

  lemma SitProgress(t: Table, i: nat)
    requires Progress(t) && i < |t.pc| && t.pc[i] == Sitting
    ensures Progress(Move(t, i))
    ensures NoLostWakeup(t) ==> NoLostWakeup(Move(t, i))
  {
    SitKeepsTokens(t, i);
    AwakeFrame(t, Move(t, i));
    if NoLostWakeup(t) {
      WakeupFrame(t, Move(t, i));
    }
  }

  lemma BornProgress(t: Table, i: nat)
    requires Progress(t) && i < |t.pc| && t.pc[i] == Born
    ensures Progress(Move(t, i))
    ensures NoLostWakeup(t) ==> NoLostWakeup(Move(t, i))
  {
    var u := Move(t, i);
    OwesFrame(t, u);
    forall j | 0 <= j < |t.pc|
      ensures Token(u, j)
    {
      assert Token(t, j);
      OtherTokenKept(t, t, j);
    }
    AwakeFrame(t, u);
    if NoLostWakeup(t) {
      WakeupFrame(t, u);
    }
  }

  /** The tests: a look at the neighbours, and the decision. */
  lemma TestProgress(t: Table, i: nat)
    requires Inv(t) && Progress(t) && i < t.count && t.pc[i] in {TakeTest, LeaveTestLeft, LeaveTestRight}
    ensures Progress(Move(t, i))
    ensures NoLostWakeup(t) ==> NoLostWakeup(Move(t, i))
  {
    OwnSectionOnly(t, i);
    TestSameCycle(t, i);
    SameCycleKeeps(t, Move(t, i));
    TestKeepsAwake(t, i);
    if NoLostWakeup(t) {
      TestWakeups(t, i);
    }
  }

  lemma TestSameCycle(t: Table, i: nat)
    requires PhasesAgree(t) && i < t.count && t.pc[i] in {TakeTest, LeaveTestLeft, LeaveTestRight}
    ensures SameCycle(t, Move(t, i))
  {
    assert Agrees(t.pc[i], t.phase[i]);
  }

  lemma TestWakeups(t: Table, i: nat)
    requires NoLostWakeup(t) && i < t.count && Idlers(t, i) && t.pc[i] in {TakeTest, LeaveTestLeft, LeaveTestRight}
    ensures NoLostWakeup(Move(t, i))
  {
    if t.pc[i] == TakeTest {
      TakeTestWakeups(t, i);
    } else {
      LeaveTestWakeups(t, i);
    }
  }

  lemma TakeTestWakeups(t: Table, i: nat)
    requires NoLostWakeup(t) && i < t.count && Idlers(t, i) && t.pc[i] == TakeTest
    ensures NoLostWakeup(Move(t, i))
  {
    HolderKeepsWakeups(t, Move(t, i), i);
  }

  lemma LeaveTestWakeups(t: Table, i: nat)
    requires NoLostWakeup(t) && i < t.count && Idlers(t, i) && t.pc[i] in {LeaveTestLeft, LeaveTestRight}
    ensures NoLostWakeup(Move(t, i))
  {
    HolderKeepsWakeups(t, Move(t, i), i);
  }

  lemma TestKeepsAwake(t: Table, i: nat)
    requires Awake(t) && i < t.count && t.pc[i] in {TakeTest, LeaveTestLeft, LeaveTestRight}
    ensures Awake(Move(t, i))
  {
    var u := Move(t, i);
    if t.pc[i] == TakeTest && u.pc[i] == TakeExit {
      var l, r := Left(t.count, i), Right(t.count, i);
      assert NotStuck(u, if t.phase[l] == DRIVING then l else r);
    } else {
      AwakeFrame(t, u);
    }
  }

  /** The five writes of a phase. */
  lemma WriteProgress(t: Table, i: nat, k: nat, p: Phase, after: Pc)
    requires Inv(t) && Progress(t) && i < t.count && k < t.count
    requires FairWrite(t, i, k, p, after)
    requires NotStuck(SetPc(SetPhase(t, k, p), i, after), k)
    requires NoLostWakeup(t) ==>
               forall x :: 0 <= x < t.count && Hungry(SetPc(SetPhase(t, k, p), i, after), x) ==>
                 Serves(SetPc(SetPhase(t, k, p), i, after), i, x)
                 || (Hungry(t, x) && !Serves(t, i, x))
    ensures Progress(SetPc(SetPhase(t, k, p), i, after))
    ensures NoLostWakeup(t) ==> NoLostWakeup(SetPc(SetPhase(t, k, p), i, after))
  {
    var u := SetPc(SetPhase(t, k, p), i, after);
    WriteKeepsTokens(t, i, k, p, after);
    WriteKeepsPhases(t, i, k, p, after);
    if NoLostWakeup(t) {
      HolderKeepsWakeups(t, u, i);
    }
  }

  lemma TakeMarkProgress(t: Table, i: nat)
    requires Inv(t) && Progress(t) && i < t.count && t.pc[i] == TakeMark
    ensures Progress(Move(t, i))
    ensures NoLostWakeup(t) ==> NoLostWakeup(Move(t, i))
  {
    OwnSectionOnly(t, i);
    assert Agrees(t.pc[i], t.phase[i]);
    WriteProgress(t, i, i, WAITING, TakeTest);
  }

  lemma TakeGrantProgress(t: Table, i: nat)
    requires Inv(t) && Progress(t) && i < t.count && t.pc[i] == TakeGrant
    ensures Progress(Move(t, i))
    ensures NoLostWakeup(t) ==> NoLostWakeup(Move(t, i))
  {
    OwnSectionOnly(t, i);
    assert Agrees(t.pc[i], t.phase[i]);
    WriteProgress(t, i, i, DRIVING, TakeSignal);
  }

  lemma LeaveMarkProgress(t: Table, i: nat)
    requires Inv(t) && Progress(t) && i < t.count && t.pc[i] == LeaveMark
    ensures Progress(Move(t, i))
    ensures NoLostWakeup(t) ==> NoLostWakeup(Move(t, i))
  {
    OwnSectionOnly(t, i);
    assert Agrees(t.pc[i], t.phase[i]);
    WriteProgress(t, i, i, THINKING, LeaveTestLeft);
  }

  lemma GrantLeftProgress(t: Table, i: nat)
    requires Inv(t) && Progress(t) && i < t.count && t.pc[i] == LeaveGrantLeft
    ensures Progress(Move(t, i))
    ensures NoLostWakeup(t) ==> NoLostWakeup(Move(t, i))
  {
    OwnSectionOnly(t, i);
    var k := Left(t.count, i);
    GrantLeftIsFair(t, i, k);
    GrantLeftIs(t, i);
    WriteProgress(t, i, k, DRIVING, LeaveSignalLeft);
  }

  lemma GrantLeftIs(t: Table, i: nat)
    requires Shaped(t) && i < t.count && t.pc[i] == LeaveGrantLeft
    ensures Move(t, i) == SetPc(SetPhase(t, Left(t.count, i), DRIVING), i, LeaveSignalLeft)
  {
  }

  lemma GrantLeftIsFair(t: Table, i: nat, k: nat)
    requires PhasesAgree(t) && i < t.count && k == Left(t.count, i) && t.pc[i] == LeaveGrantLeft && Idlers(t, i)
    requires Promise(t, i)
    ensures FairWrite(t, i, k, DRIVING, LeaveSignalLeft)
  {
  }

  lemma GrantRightProgress(t: Table, i: nat)
    requires Inv(t) && Progress(t) && i < t.count && t.pc[i] == LeaveGrantRight
    ensures Progress(Move(t, i))
    ensures NoLostWakeup(t) ==> NoLostWakeup(Move(t, i))
  {
    OwnSectionOnly(t, i);
    var k := Right(t.count, i);
    GrantRightIsFair(t, i, k);
    WriteProgress(t, i, k, DRIVING, LeaveSignalRight);
  }

  lemma GrantRightIsFair(t: Table, i: nat, k: nat)
    requires PhasesAgree(t) && i < t.count && k == Right(t.count, i) && t.pc[i] == LeaveGrantRight && Idlers(t, i)
    requires Promise(t, i)
    ensures FairWrite(t, i, k, DRIVING, LeaveSignalRight)
  {
    assert Agrees(t.pc[k], t.phase[k]) && Agrees(t.pc[i], t.phase[i]);
  }

  /** The philosopher a post is for can move after it. */
  lemma SignalAwakens(t: Table, i: nat, k: nat, after: Pc)
    requires Inv(t) && Tokens(t) && i < t.count && k < t.count && Owes(t, i) == Some(k) && InSection(after)
    ensures NotStuck(SetPc(PostSeat(t, k), i, after), k)
  {
    assert Owed(t, k) && Token(t, k);
    PostSeatIs(t, k);
  }

  lemma SignalProgress(t: Table, i: nat, k: nat, after: Pc)
    requires Inv(t) && Progress(t) && i < t.count && k < t.count
    requires Owes(t, i) == Some(k)
    requires after == if t.pc[i] == TakeSignal then TakeExit
                      else if t.pc[i] == LeaveSignalLeft then LeaveTestRight else LeaveExit
    ensures Progress(SetPc(PostSeat(t, k), i, after))
    ensures NoLostWakeup(t) ==> NoLostWakeup(SetPc(PostSeat(t, k), i, after))
  {
    OwnSectionOnly(t, i);
    var u := SetPc(PostSeat(t, k), i, after);
    assert Agrees(t.pc[i], t.phase[i]);
    SignalKeepsTokens(t, i, k, after);
    SignalKeepsPhases(t, i, k, after);
    SignalAwakens(t, i, k, after);
    if NoLostWakeup(t) {
      SignalWakeups(t, i, k, after);
    }
  }

  lemma SignalWakeups(t: Table, i: nat, k: nat, after: Pc)
    requires NoLostWakeup(t) && i < t.count && k < t.count && Idlers(t, i)
    requires Owes(t, i) == Some(k)
    requires after == if t.pc[i] == TakeSignal then TakeExit
                      else if t.pc[i] == LeaveSignalLeft then LeaveTestRight else LeaveExit
    ensures NoLostWakeup(SetPc(PostSeat(t, k), i, after))
  {
    HolderKeepsWakeups(t, SetPc(PostSeat(t, k), i, after), i);
  }

  lemma SectionProgress(t: Table, i: nat)
    requires Inv(t) && Progress(t) && i < |t.pc| && InSection(t.pc[i])
    ensures i < t.count && Progress(Move(t, i)) && (NoLostWakeup(t) ==> NoLostWakeup(Move(t, i)))
  {
    OwnSectionOnly(t, i);
    match t.pc[i]
    case TakeMark => TakeMarkProgress(t, i);
    case TakeTest => TestProgress(t, i);
    case TakeGrant => TakeGrantProgress(t, i);
    case TakeSignal => SignalProgress(t, i, i, TakeExit);
    case TakeExit => LeaveProgress(t, i, Sitting);
    case LeaveMark => LeaveMarkProgress(t, i);
    case LeaveTestLeft => TestProgress(t, i);
    case LeaveGrantLeft => GrantLeftProgress(t, i);
    case LeaveSignalLeft => SignalProgress(t, i, Left(t.count, i), LeaveTestRight);
    case LeaveTestRight => TestProgress(t, i);
    case LeaveGrantRight => GrantRightProgress(t, i);
    case LeaveSignalRight => SignalProgress(t, i, Right(t.count, i), LeaveExit);
    case LeaveExit => LeaveProgress(t, i, Resting);
  }

  lemma MoveProgress(t: Table, i: nat)
    requires Inv(t) && Progress(t) && CanMove(t, i)
    ensures InSection(t.pc[i]) ==> i < t.count
    ensures Progress(Move(t, i)) && (NoLostWakeup(t) ==> NoLostWakeup(Move(t, i)))
  {
    if InSection(t.pc[i]) {
      SectionProgress(t, i);
    } else if t.pc[i] == Born {
      BornProgress(t, i);
    } else if t.pc[i] == Resting {
      EnterProgress(t, i, TakeBlocked);
    } else if t.pc[i] == Driving {
      EnterProgress(t, i, LeaveBlocked);
    } else {
      SitProgress(t, i);
    }
  }

  // ---- growth ----

  /** The step that puts the new philosopher between the last one and the first. */
  lemma CountUpProgress(t: Table)
    requires Inv(t) && Progress(t) && t.boss == GrowCount
    ensures t.count < |t.pc| && Progress(BossMove(t))
  {
    var u := BossMove(t);
    assert Outside(t, t.count);
    NobodyOwesInGrowth(t, u);
    forall j | 0 <= j < |t.pc|
      ensures Token(u, j)
    {
      assert Token(t, j);
      OtherTokenKept(t, u, j);
    }
    assert NotStuck(u, t.count);
  }

  lemma NobodyOwesInGrowth(t: Table, u: Table)
    requires Shaped(t) && Shaped(u) && u.pc == t.pc && forall i :: 0 <= i < |t.pc| ==> !InSection(t.pc[i])
    ensures forall k: nat :: !Owed(t, k) && !Owed(u, k)
  {
  }

  lemma BossGrowProgress(t: Table)
    requires Inv(t) && Progress(t) && t.boss in {GrowCreate, GrowSpawn, GrowExit}
    ensures BossCanMove(t) && Progress(BossMove(t))
    ensures NoLostWakeup(t) ==> NoLostWakeup(BossMove(t))
  {
    BossGrowSameCycle(t);
    SameCycleProgress(t, BossMove(t));
    if NoLostWakeup(t) {
      WakeupFrame(t, BossMove(t));
    }
  }

  lemma BossGrowSameCycle(t: Table)
    requires Inv(t) && Progress(t) && t.boss in {GrowCreate, GrowSpawn, GrowExit}
    ensures BossCanMove(t) && SameCycle(t, BossMove(t))
    ensures forall i :: 0 <= i < |t.pc| && InSection(t.pc[i]) ==> BossMove(t).pc[i] == t.pc[i]
  {
    if t.boss == GrowExit {
      var w := t.(boss := Idle);
      forall p: Proc
        ensures Asleep(w, p) <==> Asleep(t, p)
      {
      }
      PostGateSameCycle(w);
    } else {
      assert Outside(t, t.count) && Token(t, t.count);
      assert t.boss == GrowCreate ==> t.seat[t.count := Sem(0, [])] == t.seat;
    }
  }

  /** The last philosopher waits only for the first, or the first only for the last. */
  predicate SeamWaits(t: Table)
    requires Shaped(t)
  {
    var n := t.count;
    n >= 3 &&
    ((t.phase[n - 1] == WAITING && t.phase[0] == DRIVING && t.phase[n - 2] != DRIVING) ||
     (t.phase[0] == WAITING && t.phase[n - 1] == DRIVING && t.phase[1] != DRIVING))
  }

  /**
    Adding a philosopher leaves somebody waiting for a neighbour that is none any more
    if and only if somebody at the seam waits only for the philosopher across it.
   */
  lemma GrowthLosesWakeupIff(t: Table)
    requires Inv(t) && NoLostWakeup(t) && t.boss == GrowCount
    ensures t.count < |t.pc| && (NoLostWakeup(BossMove(t)) <==> !SeamWaits(t))
  {
    assert Outside(t, t.count);
    NobodyIsHungry(t);
    CountingIn(t);
    GrowthHunger(t, BossMove(t));
  }

  lemma CountingIn(t: Table)
    requires Shaped(t) && t.boss == GrowCount && t.count < |t.pc|
    ensures BossMove(t) == t.(count := t.count + 1, boss := GrowExit)
  {
  }

  /** While the main process counts somebody in, nobody else is in the section to look after the hungry. */
  lemma NobodyIsHungry(t: Table)
    requires Inv(t) && NoLostWakeup(t) && t.boss == GrowCount
    ensures forall i :: 0 <= i < |t.pc| ==> !InSection(t.pc[i])
    ensures forall i :: 0 <= i < t.count ==> !Hungry(t, i)
  {
    assert forall j, i: nat :: 0 <= j < t.count ==> !Serves(t, j, i);
  }

  lemma GrowthHunger(t: Table, u: Table)
    requires Shaped(t) && t.count < |t.pc| && u == t.(count := t.count + 1, boss := GrowExit)
    requires t.phase[t.count] in {NONE, THINKING}
    requires forall i :: 0 <= i < t.count ==> !Hungry(t, i)
    requires forall i :: 0 <= i < |t.pc| ==> !InSection(t.pc[i])
    ensures NoLostWakeup(u) <==> !SeamWaits(t)
  {
    var n := t.count;
    assert forall j, i: nat :: 0 <= j < u.count ==> !Serves(u, j, i);
    if SeamWaits(t) {
      assert Hungry(u, if t.phase[n - 1] == WAITING then n - 1 else 0);
    } else {
      forall i | 0 <= i < u.count
        ensures !Hungry(u, i)
      {
        assert i < n ==> !Hungry(t, i);
      }
    }
  }

  // ---- runs ----

  lemma ActProgress(t: Table, a: Action)
    requires Inv(t) && Progress(t) && Growing(t.boss) && a != StartShrink
    ensures Progress(Act(t, a)) && Growing(Act(t, a).boss)
    ensures NoLostWakeup(t) && !(a == BossStep && t.boss == GrowCount && SeamWaits(t)) ==> NoLostWakeup(Act(t, a))
  {
    if Enabled(t, a) {
      match a
      case PhyloStep(i) =>
        MoveProgress(t, i);
        MoveLeavesBoss(t, i);
      case BossStep =>
        BossStaysGrowing(t);
        if t.boss == GrowCount {
          CountUpProgress(t);
          if NoLostWakeup(t) {
            GrowthLosesWakeupIff(t);
          }
        } else {
          BossGrowProgress(t);
        }
      case StartGrow =>
        var u := Act(t, a);
        SameCycleProgress(t, u);
        if NoLostWakeup(t) {
          WakeupFrame(t, u);
        }
    }
  }

  /** A philosopher's step moves the main process at most past a wait it sleeps in. */
  lemma MoveLeavesBoss(t: Table, i: nat)
    requires Inv(t) && Tokens(t) && CanMove(t, i) && Growing(t.boss) && (InSection(t.pc[i]) ==> i < t.count)
    ensures Growing(Move(t, i).boss)
  {
    if Signals(t.pc[i]) {
      var k := Owes(t, i).value;
      assert Owed(t, k) && Token(t, k);
      SignalPresent(t, i, k);
    } else {
      QuietMoveLeavesBoss(t, i);
    }
  }

  lemma QuietMoveLeavesBoss(t: Table, i: nat)
    requires Shaped(t) && CanMove(t, i) && (InSection(t.pc[i]) ==> i < t.count) && !Signals(t.pc[i])
    requires Growing(t.boss)
    ensures Growing(Move(t, i).boss)
  {
  }

  lemma BossStaysGrowing(t: Table)
    requires Inv(t) && Growing(t.boss) && BossCanMove(t)
    ensures t.boss in {GrowCreate, GrowSpawn, GrowCount, GrowExit} && Growing(BossMove(t).boss)
  {
  }

  /** Everybody in the ring is there, and so is the one about to be counted in. */
  ghost predicate Present(t: Table) {
    && Shaped(t)
    && (forall i :: 0 <= i < t.count ==> t.pc[i] != Absent)
    && (t.boss == GrowCount && t.count < |t.pc| ==> t.pc[t.count] != Absent)
  }

  lemma ActPresent(t: Table, a: Action)
    requires Inv(t) && Progress(t) && Present(t) && Growing(t.boss) && a != StartShrink
    ensures Present(Act(t, a))
  {
    if Enabled(t, a) {
      match a
      case PhyloStep(i) =>
        MoveKeepsPresent(t, i);
      case BossStep =>
        BossStaysGrowing(t);
        BossPresent(t);
      case StartGrow =>
    }
  }

  lemma MoveKeepsPresent(t: Table, i: nat)
    requires Inv(t) && Tokens(t) && Present(t) && CanMove(t, i) && (InSection(t.pc[i]) ==> i < t.count)
    ensures Present(Move(t, i))
  {
    MovePresent(t, i);
  }

  lemma BossPresent(t: Table)
    requires Present(t) && BossCanMove(t) && t.boss in {GrowCreate, GrowSpawn, GrowCount, GrowExit}
    ensures Present(BossMove(t))
  {
  }

  /** A philosopher's step makes nobody vanish, and it starts no count. */
  lemma MovePresent(t: Table, i: nat)
    requires Inv(t) && Tokens(t) && CanMove(t, i) && (InSection(t.pc[i]) ==> i < t.count)
    ensures Move(t, i).count == t.count && (Move(t, i).boss == GrowCount ==> t.boss == GrowCount)
    ensures forall j :: 0 <= j < |t.pc| && t.pc[j] != Absent ==> Move(t, i).pc[j] != Absent
  {
    if Signals(t.pc[i]) {
      var k := Owes(t, i).value;
      assert Owed(t, k) && Token(t, k);
      SignalPresent(t, i, k);
    } else {
      QuietMovePresent(t, i);
    }
  }

  lemma SignalPresent(t: Table, i: nat, k: nat)
    requires Shaped(t) && i < t.count && k < |t.pc| && Owes(t, i) == Some(k) && Token(t, k) && Owed(t, k)
    ensures Move(t, i).count == t.count && Move(t, i).boss == t.boss
    ensures forall j :: 0 <= j < |t.pc| && t.pc[j] != Absent ==> Move(t, i).pc[j] != Absent
  {
    PostSeatIs(t, k);
  }

  lemma QuietMovePresent(t: Table, i: nat)
    requires Shaped(t) && CanMove(t, i) && (InSection(t.pc[i]) ==> i < t.count) && !Signals(t.pc[i])
    ensures Move(t, i).count == t.count && (Move(t, i).boss == GrowCount ==> t.boss == GrowCount)
    ensures forall j :: 0 <= j < |t.pc| && t.pc[j] != Absent ==> Move(t, i).pc[j] != Absent
  {
  }

  lemma InitProgress(places: nat)
    ensures Progress(Init(places)) && NoLostWakeup(Init(places))
  {
  }

  lemma {:induction false} RunProgress(t: Table, acts: seq<Action>)
    requires Inv(t) && Progress(t) && Present(t) && Growing(t.boss) && StartShrink !in acts
    ensures Inv(Run(t, acts)) && Progress(Run(t, acts)) && Present(Run(t, acts))
    decreases |acts|
  {
    if acts != [] {
      ActKeeps(t, acts[0]);
      ActProgress(t, acts[0]);
      ActPresent(t, acts[0]);
      RunProgress(Act(t, acts[0]), acts[1..]);
    }
  }

  /**
    Tokens: in every state reached without removals, the value of a philosopher's seat, plus
    one if it is between taking and leaving, plus one if a post to it is due, is one if its
    phase is DRIVING and zero otherwise.
   */
  lemma TokensBalance(places: nat, acts: seq<Action>, i: nat)
    requires StartShrink !in acts && i < places
    ensures var t := Run(Init(places), acts);
            && i < |t.pc|
            && t.seat[i].value + Bit(Between(t.pc[i])) + Bit(Owed(t, i)) == Bit(t.phase[i] == DRIVING)
            && (t.seat[i].queue != [] ==> t.pc[i] == SeatBlocked && t.seat[i].value == 0)
  {
    InitInv(places);
    InitProgress(places);
    RunProgress(Init(places), acts);
    RunPlaces(Init(places), acts);
    assert Token(Run(Init(places), acts), i);
  }

  lemma {:induction false} RunPlaces(t: Table, acts: seq<Action>)
    requires Shaped(t)
    ensures |Run(t, acts).pc| == |t.pc|
    decreases |acts|
  {
    if acts != [] {
      RunPlaces(Act(t, acts[0]), acts[1..]);
    }
  }

  /** No deadlock: a philosopher or the main process can always move. */
  lemma NeverStuck(places: nat, acts: seq<Action>)
    requires StartShrink !in acts
    ensures var t := Run(Init(places), acts);
            t.count > 0 ==> BossCanMove(t) || exists i :: 0 <= i < t.count && CanMove(t, i)
  {
    InitInv(places);
    InitProgress(places);
    RunProgress(Init(places), acts);
    var t := Run(Init(places), acts);
    if t.count > 0 {
      if BossInSection(t.boss) {
        BossMoveKeeps(t);
      } else {
        SomebodyMoves(t);
      }
    }
  }

  lemma SomebodyMoves(t: Table)
    requires Inv(t) && Progress(t) && Present(t) && t.count > 0 && !BossInSection(t.boss)
    ensures exists i :: 0 <= i < t.count && CanMove(t, i)
  {
    if h :| 0 <= h < |t.pc| && InSection(t.pc[h]) {
      OwnSectionOnly(t, h);
      assert CanMove(t, h);
    } else {
      assert SectionEmpty(t);
      var i: nat :| i < t.count && NotStuck(t, i);
      assert !Asleep(t, Phylo(i)) by {
        assert Phylo(i) !in t.gate.queue;
      }
      assert Agrees(t.pc[i], t.phase[i]);
      assert Token(t, i);
      NobodyOwesInGrowth(t, t);
      assert CanMove(t, i);
    }
  }

  /** Runs in which nobody is removed and no philosopher is added at a seam that waits. */
  ghost predicate Gentle(t: Table, acts: seq<Action>)
    requires Shaped(t)
    decreases |acts|
  {
    acts == [] ||
    (&& acts[0] != StartShrink
     && !(acts[0] == BossStep && t.boss == GrowCount && SeamWaits(t))
     && Gentle(Act(t, acts[0]), acts[1..]))
  }

  lemma {:induction false} GentleRun(t: Table, acts: seq<Action>)
    requires Inv(t) && Progress(t) && Growing(t.boss) && NoLostWakeup(t) && Gentle(t, acts)
    ensures Inv(Run(t, acts)) && NoLostWakeup(Run(t, acts))
    decreases |acts|
  {
    if acts != [] {
      ActKeeps(t, acts[0]);
      ActProgress(t, acts[0]);
      GentleRun(Act(t, acts[0]), acts[1..]);
    }
  }

  /** Whenever SEM_ID is free, a waiting philosopher has a neighbour that drives. */
  lemma WaitersHaveDrivingNeighbour(places: nat, acts: seq<Action>)
    requires Gentle(Init(places), acts)
    ensures var t := Run(Init(places), acts);
            t.gate.value > 0 ==>
              forall i :: 0 <= i < t.count && t.phase[i] == WAITING ==>
                t.phase[Left(t.count, i)] == DRIVING || t.phase[Right(t.count, i)] == DRIVING
  {
    InitInv(places);
    InitProgress(places);
    GentleRun(Init(places), acts);
    var t := Run(Init(places), acts);
    if t.gate.value > 0 {
      assert forall j, i: nat :: 0 <= j < t.count && Serves(t, j, i) ==> InSection(t.pc[j]);
      forall i | 0 <= i < t.count && t.phase[i] == WAITING
        ensures t.phase[Left(t.count, i)] == DRIVING || t.phase[Right(t.count, i)] == DRIVING
      {
        assert !Hungry(t, i);
      }
    }
  }
}
