/**
  What adding and removing a philosopher come to, whatever the others do meanwhile: from the moment
  the main process sets out until it is back, exactly one philosopher joins at the end of the ring,
  or exactly the last one is gone, and the others stay.
 */
module PhilosophersPassage {
  import opened Semaphores
  import opened Sequences
  import opened Philosophers
  import opened PhilosophersGate
  import opened PhilosophersSafety

  /** The main process is under way before each of these steps. */
  ghost predicate UnderWay(t: Table, acts: seq<Action>)
    requires Shaped(t)
    decreases |acts|
  {
    acts == [] || (t.boss != Idle && UnderWay(Act(t, acts[0]), acts[1..]))
  }

  // ---- who comes and goes ----

  /** The place at which the main process adds or removes a philosopher. */
  predicate AtWork(t: Table, i: nat) {
    (Shrinking(t.boss) && i + 1 == t.count) || (t.boss in {GrowCreate, GrowSpawn} && i == t.count)
  }

  /** A step of the main process leaves every other place alone, but for the philosopher it lets into the section. */
  lemma MainLeavesOthers(t: Table, a: Action, i: nat)
    requires Shaped(t) && QueueExact(t) && !a.PhyloStep? && i < |t.pc| && !AtWork(t, i)
    ensures Act(t, a).phase[i] == t.phase[i] && Act(t, a).seat[i] == t.seat[i]
    ensures Act(t, a).pc[i] == t.pc[i] ||
            (GateBlocked(t.pc[i]) && Act(t, a).pc[i] == AfterGate(t.pc[i])
             && t.gate.queue != [] && t.gate.queue[0] == Phylo(i))
  {
    if t.gate.queue != [] {
      assert t.gate.queue[0] in t.gate.queue;
    }
  }

  /** No step makes a philosopher vanish, but for the main process at the last place. */
  lemma StepStays(t: Table, a: Action, i: nat)
    requires Shaped(t) && i < |t.pc| && t.pc[i] != Absent && !(Shrinking(t.boss) && i + 1 == t.count)
    ensures Act(t, a).pc[i] != Absent
  {
    if Enabled(t, a) && a.PhyloStep? {
      MoveStays(t, a.i, i);
    } else if Enabled(t, a) && a.BossStep? {
      MainStays(t, i);
    }
  }

  lemma MoveStays(t: Table, i: nat, j: nat)
    requires Shaped(t) && Enabled(t, PhyloStep(i)) && j < |t.pc| && t.pc[j] != Absent
    ensures Move(t, i).pc[j] != Absent
  {
    match t.pc[i]
    case TakeExit => PostGateStays(SetPc(t, i, Sitting), j);
    case LeaveExit => PostGateStays(SetPc(t, i, Resting), j);
    case TakeSignal => PostSeatStays(t, i, j);
    case LeaveSignalLeft => PostSeatStays(t, Left(t.count, i), j);
    case LeaveSignalRight => PostSeatStays(t, Right(t.count, i), j);
    case _ =>
  }

  lemma PostGateStays(t: Table, j: nat)
    requires j < |t.pc| && t.pc[j] != Absent
    ensures PostGate(t).pc[j] != Absent
  {
  }

  lemma PostSeatStays(t: Table, k: nat, j: nat)
    requires Shaped(t) && k < |t.pc| && j < |t.pc| && t.pc[j] != Absent
    ensures PostSeat(t, k).pc[j] != Absent
  {
  }

  lemma MainStays(t: Table, i: nat)
    requires Shaped(t) && BossCanMove(t) && i < |t.pc| && t.pc[i] != Absent && !(Shrinking(t.boss) && i + 1 == t.count)
    ensures BossMove(t).pc[i] != Absent
  {
    match t.boss
    case GrowExit => PostGateStays(t.(boss := Idle), i);
    case ShrinkExit => PostGateStays(t.(boss := Idle), i);
    case ShrinkRelease => PostGateStays(t.(boss := ShrinkSit), i);
    case _ =>
  }

  /** A post of SEM_ID lets the main process in only if it waits there. */
  lemma PostGateKeepsMain(t: Table)
    ensures PostGate(t).count == t.count
    ensures PostGate(t).boss == t.boss || (BossGateBlocked(t.boss) && PostGate(t).boss == BossAfterGate(t.boss))
  {
  }

  lemma PostSeatKeepsMain(t: Table, k: nat)
    requires SeatQueues(t) && k < |t.pc|
    ensures PostSeat(t, k).boss == t.boss || (t.boss == ShrinkSeatBlocked && PostSeat(t, k).boss == ShrinkReenter)
  {
    if t.seat[k].queue != [] {
      assert t.seat[k].queue[0] in t.seat[k].queue && MaySleepOn(t, k, t.seat[k].queue[0]);
    }
  }

  /** A philosopher's step leaves the count, and the main process but for waking it where it sleeps. */
  lemma MoveMayWakeMain(t: Table, i: nat)
    requires Inv(t) && Enabled(t, PhyloStep(i))
    ensures Move(t, i).count == t.count
    ensures var b := Move(t, i).boss;
            || b == t.boss
            || (t.boss == ShrinkSeatBlocked && b == ShrinkReenter)
            || (BossGateBlocked(t.boss) && b == BossAfterGate(t.boss))
  {
    match t.pc[i]
    case TakeExit => PostGateKeepsMain(SetPc(t, i, Sitting));
    case LeaveExit => PostGateKeepsMain(SetPc(t, i, Resting));
    case TakeSignal => PostSeatKeepsMain(t, i);
    case LeaveSignalLeft => PostSeatKeepsMain(t, Left(t.count, i));
    case LeaveSignalRight => PostSeatKeepsMain(t, Right(t.count, i));
    case _ =>
  }

  // ---- a removal ----

  predicate Removing(b: BossPc) {
    Shrinking(b) || b == ShrinkExit
  }

  /** A removal that began with `n` philosophers: the last one counts until the very end. */
  ghost predicate RemovalAt(t: Table, n: nat) {
    && n > MIN_PHY && (t.boss == Idle || Removing(t.boss))
    && t.count == if t.boss in {ShrinkExit, Idle} then n - 1 else n
  }

  lemma RemovalSteps(t: Table, a: Action, n: nat)
    requires Inv(t) && RemovalAt(t, n) && t.boss != Idle
    ensures RemovalAt(Act(t, a), n)
  {
    if Enabled(t, a) && a.PhyloStep? {
      MoveMayWakeMain(t, a.i);
    } else if Enabled(t, a) && a.BossStep? {
      MainRemoves(t, n);
    }
  }

  lemma MainRemoves(t: Table, n: nat)
    requires Inv(t) && RemovalAt(t, n) && t.boss != Idle && BossCanMove(t)
    ensures RemovalAt(BossMove(t), n)
  {
    PostGateKeepsMain(t.(boss := ShrinkSit));
    PostGateKeepsMain(t.(boss := Idle));
  }

  lemma {:induction false} RemovalRuns(t: Table, acts: seq<Action>, n: nat)
    requires Inv(t) && RemovalAt(t, n) && UnderWay(t, acts)
    ensures RemovalAt(Run(t, acts), n)
    ensures forall i :: 0 <= i < n - 1 && i < |t.pc| && t.pc[i] != Absent ==> Run(t, acts).pc[i] != Absent
    decreases |acts|
  {
    if acts != [] {
      RemovalSteps(t, acts[0], n);
      ActKeeps(t, acts[0]);
      RemovalRuns(Act(t, acts[0]), acts[1..], n);
      forall i | 0 <= i < n - 1 && i < |t.pc| && t.pc[i] != Absent
        ensures Run(t, acts).pc[i] != Absent
      {
        StepStays(t, acts[0], i);
      }
    }
  }

  /** Of the first `n` places nobody is gone, and from there on nobody is left. */
  ghost predicate OnlyFirst(t: Table, v: Table, n: nat) {
    && n <= |v.pc| == |v.phase| == |t.pc|
    && (forall i :: n <= i < |v.pc| ==> v.pc[i] == Absent && v.phase[i] == NONE)
    && forall i :: 0 <= i < n && t.pc[i] != Absent ==> v.pc[i] != Absent
  }

  /**
    A removal, from the moment the main process sets out until it is back, among whatever steps of the
    others: the count is lower by one, the last place is empty and out of the ring, and whoever sat in a
    place below still does.
   */
  lemma RemovalTakesLastOut(t: Table, acts: seq<Action>)
    requires Inv(t) && t.boss == Idle && t.count > MIN_PHY
    requires UnderWay(Act(t, StartShrink), acts) && Run(Act(t, StartShrink), acts).boss == Idle
    ensures Run(Act(t, StartShrink), acts).count == t.count - 1
    ensures OnlyFirst(t, Run(Act(t, StartShrink), acts), t.count - 1)
  {
    var u := Act(t, StartShrink);
    ActKeeps(t, StartShrink);
    RemovalRuns(u, acts, t.count);
    RunKeeps(u, acts);
    NobodyOutside(Run(u, acts));
  }

  lemma NobodyOutside(t: Table)
    requires Inv(t) && t.boss == Idle
    ensures forall i :: t.count <= i < |t.pc| ==> t.pc[i] == Absent && t.phase[i] == NONE
  {
    forall i | t.count <= i < |t.pc|
      ensures t.pc[i] == Absent && t.phase[i] == NONE
    {
      assert Outside(t, i);
    }
  }

  // ---- a growth ----

  predicate Adding(b: BossPc) {
    b in {GrowBlocked, GrowCreate, GrowSpawn, GrowCount, GrowExit}
  }

  /** A growth that began with `n` philosophers: the new one sits before it counts. */
  ghost predicate GrowthAt(t: Table, n: nat) {
    && n < |t.pc| && (t.boss == Idle || Adding(t.boss))
    && (t.count == if t.boss in {GrowExit, Idle} then n + 1 else n)
    && (t.boss in {GrowCount, GrowExit, Idle} ==> t.pc[n] != Absent)
  }

  lemma GrowthSteps(t: Table, a: Action, n: nat)
    requires Inv(t) && GrowthAt(t, n) && t.boss != Idle
    ensures GrowthAt(Act(t, a), n)
  {
    if t.pc[n] != Absent {
      StepStays(t, a, n);
    }
    if Enabled(t, a) && a.PhyloStep? {
      MoveMayWakeMain(t, a.i);
    } else if Enabled(t, a) && a.BossStep? {
      MainAdds(t, n);
    }
  }

  lemma MainAdds(t: Table, n: nat)
    requires Inv(t) && GrowthAt(t, n) && t.boss != Idle && BossCanMove(t)
    ensures GrowthAt(BossMove(t), n) || t.pc[n] != Absent
    ensures BossMove(t).boss == Idle || Adding(BossMove(t).boss)
    ensures BossMove(t).count == if BossMove(t).boss in {GrowExit, Idle} then n + 1 else n
  {
    PostGateKeepsMain(t.(boss := Idle));
  }

  lemma {:induction false} GrowthRuns(t: Table, acts: seq<Action>, n: nat)
    requires Inv(t) && GrowthAt(t, n) && UnderWay(t, acts)
    ensures GrowthAt(Run(t, acts), n)
    ensures forall i :: 0 <= i < n && t.pc[i] != Absent ==> Run(t, acts).pc[i] != Absent
    decreases |acts|
  {
    if acts != [] {
      GrowthSteps(t, acts[0], n);
      ActKeeps(t, acts[0]);
      GrowthRuns(Act(t, acts[0]), acts[1..], n);
      forall i | 0 <= i < n && t.pc[i] != Absent
        ensures Run(t, acts).pc[i] != Absent
      {
        StepStays(t, acts[0], i);
      }
    }
  }

  /** A growth likewise: the count is higher by one, and somebody new sits at the end of the ring. */
  lemma GrowthBringsOneIn(t: Table, acts: seq<Action>)
    requires Inv(t) && t.boss == Idle && t.count < |t.pc|
    requires UnderWay(Act(t, StartGrow), acts) && Run(Act(t, StartGrow), acts).boss == Idle
    ensures Run(Act(t, StartGrow), acts).count == t.count + 1
    ensures t.pc[t.count] == Absent && Run(Act(t, StartGrow), acts).pc[t.count] != Absent
    ensures OnlyFirst(t, Run(Act(t, StartGrow), acts), t.count + 1)
  {
    var u := Act(t, StartGrow);
    NobodyOutside(t);
    ActKeeps(t, StartGrow);
    GrowthRuns(u, acts, t.count);
    RunKeeps(u, acts);
    NobodyOutside(Run(u, acts));
  }

  // ---- nobody is missing ----

  /** Every place of the ring, but the one being cleared, has its philosopher; the next may have one. */
  ghost predicate Seated(t: Table) {
    && Shaped(t)
    && (forall i :: 0 <= i < t.count ==>
          t.pc[i] != Absent || (i + 1 == t.count && t.boss in {ShrinkClose, ShrinkErase, ShrinkCount}))
    && (t.boss == GrowCount && t.count < |t.pc| ==> t.pc[t.count] != Absent)
  }

  lemma SeatedSteps(t: Table, a: Action)
    requires Inv(t) && Seated(t)
    ensures Seated(Act(t, a))
  {
    var u := Act(t, a);
    forall i | 0 <= i < |t.pc| && t.pc[i] != Absent && !(Shrinking(t.boss) && i + 1 == t.count)
      ensures u.pc[i] != Absent
    {
      StepStays(t, a, i);
    }
    if Enabled(t, a) && a.PhyloStep? {
      MoveMayWakeMain(t, a.i);
      MoveSeats(t, a.i);
    } else if Enabled(t, a) && a.BossStep? {
      MainSeats(t);
    }
  }

  lemma MoveSeats(t: Table, i: nat)
    requires Shaped(t) && Enabled(t, PhyloStep(i))
    ensures forall j :: 0 <= j < |t.pc| && t.pc[j] != Absent ==> Move(t, i).pc[j] != Absent
  {
    forall j | 0 <= j < |t.pc| && t.pc[j] != Absent
      ensures Move(t, i).pc[j] != Absent
    {
      MoveStays(t, i, j);
    }
  }

  lemma MainSeats(t: Table)
    requires Shaped(t) && Seated(t) && BossCanMove(t)
    ensures Seated(BossMove(t))
  {
    match t.boss
    case GrowExit => PostGateSeats(t, Idle);
    case ShrinkExit => PostGateSeats(t, Idle);
    case ShrinkRelease => PostGateSeats(t, ShrinkSit);
    case _ =>
  }

  lemma PostGateSeats(t: Table, after: BossPc)
    requires Seated(t) && t.boss in {GrowExit, ShrinkExit, ShrinkRelease} && after in {Idle, ShrinkSit}
    ensures Seated(PostGate(t.(boss := after)))
  {
    PostGateKeepsMain(t.(boss := after));
    forall i | 0 <= i < |t.pc| && t.pc[i] != Absent
      ensures PostGate(t.(boss := after)).pc[i] != Absent
    {
      PostGateStays(t.(boss := after), i);
    }
  }

  lemma {:induction false} SeatedRuns(t: Table, acts: seq<Action>)
    requires Inv(t) && Seated(t)
    ensures Seated(Run(t, acts))
    decreases |acts|
  {
    if acts != [] {
      ActKeeps(t, acts[0]);
      SeatedSteps(t, acts[0]);
      SeatedRuns(Act(t, acts[0]), acts[1..]);
    }
  }

  /** In every run, removals included, each place of the ring but one being cleared has its philosopher. */
  lemma NobodyIsMissing(places: nat, acts: seq<Action>)
    ensures var t := Run(Init(places), acts);
            && (forall i :: 0 <= i < t.count ==> t.pc[i] != Absent || (i + 1 == t.count && Shrinking(t.boss)))
            && (t.boss == Idle ==> forall i :: 0 <= i < |t.pc| ==> (t.pc[i] != Absent <==> i < t.count))
  {
    InitInv(places);
    SeatedRuns(Init(places), acts);
    RunKeeps(Init(places), acts);
    if Run(Init(places), acts).boss == Idle {
      NobodyOutside(Run(Init(places), acts));
    }
  }

  // ---- inside the section ----

  /** `n` steps of the main process. */
  function Alone(t: Table, n: nat): Table
    requires Shaped(t)
  {
    Run(t, seq(n, _ => BossStep))
  }

  lemma OneAlone(t: Table, n: nat)
    requires Shaped(t) && n > 0
    ensures Alone(t, n) == Alone(Act(t, BossStep), n - 1)
  {
    assert seq(n, _ => BossStep)[1..] == seq(n - 1, _ => BossStep);
  }

  /** SEM_ID is free, or its first waiter is past the call it slept in; nobody else has moved. */
  ghost predicate GatePassed(queue: seq<Proc>, pc: seq<Pc>, v: Table) {
    if queue == [] then
      v.gate == Sem(1, []) && v.pc == pc
    else
      && v.gate == Sem(0, queue[1..])
      && queue[0].Phylo? && queue[0].i < |pc| && v.pc == pc[queue[0].i := AfterGate(pc[queue[0].i])]
  }

  lemma PostGatePasses(t: Table)
    requires QueueExact(t) && !BossGateBlocked(t.boss) && t.gate.value == 0
    ensures GatePassed(t.gate.queue, t.pc, PostGate(t)) && PostGate(t).boss == t.boss
  {
    if t.gate.queue != [] {
      assert t.gate.queue[0] in t.gate.queue;
    }
  }

  /** The guard lets the removal go on exactly when the neighbours of the last place do not both drive. */
  lemma GuardIff(t: Table)
    requires Shaped(t) && t.boss == ShrinkTest && t.count > MIN_PHY
    ensures Act(t, BossStep) == t.(boss := Act(t, BossStep).boss)
    ensures Act(t, BossStep).boss == ShrinkKill <==> !(t.phase[t.count - 2] == DRIVING && t.phase[0] == DRIVING)
    ensures Act(t, BossStep).boss == ShrinkRelease <==> t.phase[t.count - 2] == DRIVING && t.phase[0] == DRIVING
  {
  }

  /** The state in which the main process has cleared the last place and has yet to post SEM_ID. */
  function Cleared(t: Table): Table
    requires Shaped(t) && t.count > 0
  {
    var v := t.count - 1;
    Table(v, t.phase[v := NONE], t.pc[v := Absent],
          Sem(t.gate.value, Without(t.gate.queue, Phylo(v))), t.seat[v := Sem(0, [])], ShrinkExit)
  }

  lemma ClearsAlone(t: Table)
    requires Shaped(t) && t.boss == ShrinkKill && t.count > MIN_PHY
    ensures Alone(t, 4) == Cleared(t)
  {
    KillNext(t, 4);
    CloseNext(Killed(t), 3);
    EraseNext(Closed(Killed(t)), 2);
    CountNext(Erased(Closed(Killed(t))));
    ClearedIs(t);
  }

  lemma NextAlone(t: Table, u: Table, n: nat)
    requires Shaped(t) && n > 0 && Act(t, BossStep) == u
    ensures Alone(t, n) == Alone(u, n - 1) && (n == 1 ==> Alone(t, n) == u)
  {
    OneAlone(t, n);
  }

  function Killed(t: Table): (u: Table)
    requires Shaped(t) && t.count > 0
    ensures Shaped(u) && u.count == t.count && u.boss == ShrinkClose
  {
    Vanish(t, t.count - 1).(boss := ShrinkClose)
  }

  function Closed(t: Table): (u: Table)
    requires Shaped(t) && t.count > 0
    ensures Shaped(u) && u.count == t.count && u.boss == ShrinkErase
  {
    t.(seat := t.seat[t.count - 1 := Sem(0, [])], boss := ShrinkErase)
  }

  function Erased(t: Table): (u: Table)
    requires Shaped(t) && t.count > 0
    ensures Shaped(u) && u.count == t.count && u.boss == ShrinkCount
  {
    t.(phase := t.phase[t.count - 1 := NONE], boss := ShrinkCount)
  }

  lemma KillNext(t: Table, n: nat)
    requires Shaped(t) && t.boss == ShrinkKill && t.count > MIN_PHY && n > 0
    ensures Alone(t, n) == Alone(Killed(t), n - 1)
  {
    KillStep(t);
    NextAlone(t, Killed(t), n);
  }

  lemma CloseNext(t: Table, n: nat)
    requires Shaped(t) && t.boss == ShrinkClose && t.count > MIN_PHY && n > 0
    ensures Alone(t, n) == Alone(Closed(t), n - 1)
  {
    NextAlone(t, Closed(t), n);
  }

  lemma EraseNext(t: Table, n: nat)
    requires Shaped(t) && t.boss == ShrinkErase && t.count > MIN_PHY && n > 0
    ensures Alone(t, n) == Alone(Erased(t), n - 1)
  {
    NextAlone(t, Erased(t), n);
  }

  lemma CountNext(t: Table)
    requires Shaped(t) && t.boss == ShrinkCount && t.count > MIN_PHY
    ensures Alone(t, 1) == t.(count := t.count - 1, boss := ShrinkExit)
  {
    NextAlone(t, t.(count := t.count - 1, boss := ShrinkExit), 1);
  }

  lemma ClearedIs(t: Table)
    requires Shaped(t) && t.count > 0
    ensures Erased(Closed(Killed(t))).(count := t.count - 1, boss := ShrinkExit) == Cleared(t)
  {
    assert Closed(Killed(t)).seat == t.seat[t.count - 1 := Sem(0, [])];
  }

  lemma {:induction false} LastAlone(t: Table, n: nat)
    requires Shaped(t)
    ensures Alone(t, n + 1) == Act(Alone(t, n), BossStep)
    decreases n
  {
    OneAlone(t, n + 1);
    if n > 0 {
      OneAlone(t, n);
      LastAlone(Act(t, BossStep), n - 1);
    }
  }

  /** The last philosopher is out: its place is cleared, and nobody else's state or seat has changed. */
  ghost predicate LastIsOut(t: Table, v: Table)
    requires Shaped(t) && t.count > 0
  {
    var out := t.count - 1;
    && v.boss == Idle && v.count == out
    && v.phase == t.phase[out := NONE] && v.seat == t.seat[out := Sem(0, [])]
    && GatePassed(Without(t.gate.queue, Phylo(out)), t.pc[out := Absent], v)
  }

  /**
    Once the guard is passed the main process needs six steps to be done; the section is its own, so
    this is the whole effect of the removal.
   */
  lemma GuardPassedRemoves(t: Table)
    requires Inv(t) && t.boss == ShrinkTest && !(t.phase[t.count - 2] == DRIVING && t.phase[0] == DRIVING)
    ensures t.count > MIN_PHY && LastIsOut(t, Alone(t, 6))
  {
    SixSteps(t);
    ClearedAwake(t);
    PostGatePasses(Cleared(t).(boss := Idle));
  }

  lemma SixSteps(t: Table)
    requires Shaped(t) && t.boss == ShrinkTest && t.count > MIN_PHY
    requires !(t.phase[t.count - 2] == DRIVING && t.phase[0] == DRIVING)
    ensures Alone(t, 6) == Through(t)
  {
    GuardNext(t, 6);
    FiveSteps(t.(boss := ShrinkKill));
    ThroughAlike(t);
  }

  /** The removal is done. */
  function Through(t: Table): Table
    requires Shaped(t) && t.count > 0
  {
    PostGate(Cleared(t).(boss := Idle))
  }

  lemma ThroughAlike(t: Table)
    requires Shaped(t) && t.count > 0
    ensures Through(t.(boss := ShrinkKill)) == Through(t)
  {
    assert Cleared(t.(boss := ShrinkKill)) == Cleared(t);
  }

  lemma GuardNext(t: Table, n: nat)
    requires Shaped(t) && t.boss == ShrinkTest && t.count > MIN_PHY && n > 0
    requires !(t.phase[t.count - 2] == DRIVING && t.phase[0] == DRIVING)
    ensures Alone(t, n) == Alone(t.(boss := ShrinkKill), n - 1)
  {
    GuardThrough(t);
    NextAlone(t, t.(boss := ShrinkKill), n);
  }

  lemma GuardThrough(t: Table)
    requires Shaped(t) && t.boss == ShrinkTest && t.count > MIN_PHY
    requires !(t.phase[t.count - 2] == DRIVING && t.phase[0] == DRIVING)
    ensures Act(t, BossStep) == t.(boss := ShrinkKill)
  {
    GuardIff(t);
  }

  lemma FiveSteps(t: Table)
    requires Shaped(t) && t.boss == ShrinkKill && t.count > MIN_PHY
    ensures Alone(t, 5) == Through(t)
  {
    LastAlone(t, 4);
    ClearsAlone(t);
    ExitStep(Cleared(t));
  }

  lemma ExitStep(t: Table)
    requires Shaped(t) && t.boss in {GrowExit, ShrinkExit}
    ensures Act(t, BossStep) == PostGate(t.(boss := Idle))
  {
  }

  lemma ClearedAwake(t: Table)
    requires GateInv(t) && t.boss == ShrinkTest && t.count > 0
    ensures QueueExact(Cleared(t).(boss := Idle)) && t.gate.value == 0
  {
    var w := Cleared(t).(boss := Idle);
    WithoutDistinct(t.gate.queue, Phylo(t.count - 1));
    forall p: Proc
      ensures Asleep(w, p) <==> Asleep(t, p) && p != Phylo(t.count - 1)
    {
    }
  }

  /** While both neighbours drive the main process lets go of SEM_ID, and nothing else changes. */
  lemma GuardHeldReleases(t: Table)
    requires Inv(t) && t.boss == ShrinkTest && t.phase[t.count - 2] == DRIVING && t.phase[0] == DRIVING
    ensures var v := Alone(t, 2);
            && v.boss == ShrinkSit && v.count == t.count && v.phase == t.phase && v.seat == t.seat
            && GatePassed(t.gate.queue, t.pc, v)
  {
    GuardIff(t);
    OneAlone(t, 2);
    OneAlone(Act(t, BossStep), 1);
    var w := t.(boss := ShrinkSit);
    assert QueueExact(w) by {
      assert forall p: Proc :: Asleep(w, p) <==> Asleep(t, p);
    }
    PostGatePasses(w);
  }

  /**
    After letting go the main process goes on exactly with a token of the last seat, which it takes;
    without one it lines up there.
   */
  lemma MainWaitsForSeat(t: Table)
    requires Shaped(t) && t.boss == ShrinkSit && t.count > MIN_PHY
    ensures var u, k := Act(t, BossStep), t.count - 1;
            && u == t.(boss := u.boss, seat := t.seat[k := u.seat[k]])
            && (t.seat[k].value > 0 ==>
                  u.boss == ShrinkReenter && u.seat[k] == Sem(t.seat[k].value - 1, t.seat[k].queue))
            && (t.seat[k].value == 0 ==>
                  u.boss == ShrinkSeatBlocked && u.seat[k] == Sem(0, t.seat[k].queue + [Boss]))
  {
  }

  /** The new philosopher is in: it sits at the end of the ring with an empty seat. */
  ghost predicate NewIsIn(t: Table, v: Table)
    requires Shaped(t) && t.count < |t.pc|
  {
    && v.boss == Idle && v.count == t.count + 1
    && v.phase == t.phase && v.seat == t.seat[t.count := Sem(0, [])]
    && GatePassed(t.gate.queue, t.pc[t.count := Born], v)
  }

  /** In the section the main process needs four steps to add a philosopher. */
  lemma SectionAdds(t: Table)
    requires Inv(t) && t.boss == GrowCreate
    ensures t.count < |t.pc| && t.phase[t.count] == NONE && NewIsIn(t, Alone(t, 4))
  {
    assert Outside(t, t.count);
    FourSteps(t);
    AddedAwake(t);
    PostGatePasses(Added(t).(boss := Idle));
  }

  function Added(t: Table): Table
    requires Shaped(t) && t.count < |t.pc|
  {
    t.(count := t.count + 1, pc := t.pc[t.count := Born], seat := t.seat[t.count := Sem(0, [])], boss := GrowExit)
  }

  lemma FourSteps(t: Table)
    requires Shaped(t) && t.boss == GrowCreate && t.count < |t.pc|
    ensures Alone(t, 4) == PostGate(Added(t).(boss := Idle))
  {
    var a := t.(seat := t.seat[t.count := Sem(0, [])], boss := GrowSpawn);
    GrowSteps(t);
    GrowSteps(a);
    GrowSteps(a.(pc := t.pc[t.count := Born], boss := GrowCount));
    NextAlone(t, a, 4);
    NextAlone(a, a.(pc := t.pc[t.count := Born], boss := GrowCount), 3);
    NextAlone(a.(pc := t.pc[t.count := Born], boss := GrowCount), Added(t), 2);
    ExitStep(Added(t));
    NextAlone(Added(t), PostGate(Added(t).(boss := Idle)), 1);
  }

  lemma GrowSteps(t: Table)
    requires Shaped(t) && t.boss in {GrowCreate, GrowSpawn, GrowCount} && t.count < |t.pc|
    ensures Act(t, BossStep) ==
            match t.boss
            case GrowCreate => t.(seat := t.seat[t.count := Sem(0, [])], boss := GrowSpawn)
            case GrowSpawn => t.(pc := t.pc[t.count := Born], boss := GrowCount)
            case _ => t.(count := t.count + 1, boss := GrowExit)
  {
  }

  lemma AddedAwake(t: Table)
    requires GateInv(t) && t.boss == GrowCreate && t.count < |t.pc| && t.pc[t.count] == Absent
    ensures QueueExact(Added(t).(boss := Idle)) && t.gate.value == 0
  {
    var w := Added(t).(boss := Idle);
    forall p: Proc
      ensures Asleep(w, p) <==> Asleep(t, p)
    {
    }
  }
}
