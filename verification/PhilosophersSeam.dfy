/**
  A run in which growth loses a wakeup: three philosophers sit down, the first drives, the last
  waits for it across the seam, and then a fourth is put between them.
 */
module PhilosophersSeam {
  import opened Semaphores
  import opened Philosophers
  import opened PhilosophersSafety
  import opened PhilosophersProgress

  /** Some run without removals leads from the empty table to `t`. */
  ghost predicate Reached(places: nat, t: Table) {
    exists acts :: StartShrink !in acts && Run(Init(places), acts) == t
  }

  lemma {:induction false} RunOneMore(t: Table, acts: seq<Action>, a: Action)
    requires Shaped(t)
    ensures Run(t, acts + [a]) == Act(Run(t, acts), a)
    decreases |acts|
  {
    if acts == [] {
      assert [a][1..] == [];
    } else {
      RunOneMore(Act(t, acts[0]), acts[1..], a);
      assert (acts + [a])[1..] == acts[1..] + [a];
    }
  }

  lemma Step(places: nat, t: Table, a: Action)
    requires Reached(places, t) && Shaped(t) && a != StartShrink
    ensures Reached(places, Act(t, a))
  {
    var acts :| StartShrink !in acts && Run(Init(places), acts) == t;
    RunOneMore(Init(places), acts, a);
    assert StartShrink !in acts + [a];
  }

  /** The main process is about to count a new philosopher in. */
  function Counting(t: Table): Table
    requires Shaped(t) && t.count < |t.pc|
  {
    t.(gate := Sem(0, []), seat := t.seat[t.count := Sem(0, [])], pc := t.pc[t.count := Born], boss := GrowCount)
  }

  lemma CountingReached(places: nat, t: Table)
    requires Reached(places, t) && Shaped(t) && t.boss == Idle && t.gate == Sem(1, []) && t.count < |t.pc|
    ensures Reached(places, Counting(t))
  {
    Step(places, t, StartGrow);
    var u := t.(gate := Sem(0, []), boss := GrowCreate);
    Step(places, u, BossStep);
    Step(places, u.(seat := t.seat[t.count := Sem(0, [])], boss := GrowSpawn), BossStep);
  }

  /** The new philosopher is counted in and SEM_ID released. */
  function Counted(t: Table): Table {
    t.(count := t.count + 1, gate := Sem(1, []), boss := Idle)
  }

  lemma CountedReached(places: nat, t: Table)
    requires Reached(places, t) && Shaped(t) && t.boss == GrowCount && t.gate == Sem(0, []) && t.count < |t.pc|
    ensures Reached(places, Counted(t))
  {
    Step(places, t, BossStep);
    Step(places, t.(count := t.count + 1, boss := GrowExit), BossStep);
  }

  /** The table with `n` of four seats taken by thinkers. */
  function Thinkers(n: nat): Table
    requires n <= 4
  {
    Table(n, seq(4, i requires 0 <= i < 4 => if i < n then THINKING else NONE),
          seq(4, i requires 0 <= i < 4 => if i < n then Resting else Absent), Sem(1, []), seq(4, _ => Sem(0, [])), Idle)
  }

  lemma {:induction false} ThinkersReached(n: nat)
    requires n <= 4
    ensures Reached(4, Thinkers(n))
  {
    if n == 0 {
      assert Thinkers(0) == Init(4);
      assert Run(Init(4), []) == Init(4);
    } else {
      ThinkersReached(n - 1);
      SeatedReached(4, Thinkers(n - 1));
      OneMoreThinker(n);
    }
  }

  /** The next philosopher is counted in and takes its first step. */
  lemma SeatedReached(places: nat, t: Table)
    requires Reached(places, t) && Shaped(t) && t.boss == Idle && t.gate == Sem(1, []) && t.count < |t.pc|
    ensures Reached(places, Act(Counted(Counting(t)), PhyloStep(t.count)))
  {
    CountingReached(places, t);
    CountedReached(places, Counting(t));
    Step(places, Counted(Counting(t)), PhyloStep(t.count));
  }

  lemma OneMoreThinker(n: nat)
    requires 0 < n <= 4
    ensures Act(Counted(Counting(Thinkers(n - 1))), PhyloStep(n - 1)) == Thinkers(n)
  {
  }

  /** Philosopher `i` enters take_pedals and marks itself as waiting. */
  lemma MarkedReached(places: nat, t: Table, i: nat)
    requires Reached(places, t) && Shaped(t) && i < t.count && t.gate == Sem(1, []) && t.pc[i] == Resting
    ensures Reached(places, t.(gate := Sem(0, []), phase := t.phase[i := WAITING], pc := t.pc[i := TakeTest]))
  {
    Step(places, t, PhyloStep(i));
    Step(places, t.(gate := Sem(0, []), pc := t.pc[i := TakeMark]), PhyloStep(i));
    assert t.pc[i := TakeMark][i := TakeTest] == t.pc[i := TakeTest];
  }

  /** It leaves the section and waits for its own seat. */
  lemma SitsReached(places: nat, t: Table, i: nat)
    requires Reached(places, t) && Shaped(t) && i < t.count && t.gate == Sem(0, []) && t.pc[i] == TakeExit
    ensures Reached(places, t.(gate := Sem(1, []), seat := t.seat[i := t.seat[i].Wait(Phylo(i))],
                               pc := t.pc[i := if t.seat[i].Passes() then Driving else SeatBlocked]))
  {
    Step(places, t, PhyloStep(i));
    var u := t.(gate := Sem(1, []), pc := t.pc[i := Sitting]);
    Step(places, u, PhyloStep(i));
    assert u.pc[i := Driving] == t.pc[i := Driving] && u.pc[i := SeatBlocked] == t.pc[i := SeatBlocked];
  }

  lemma SeatsWithoutUnit(places: nat, t: Table, i: nat)
    requires Reached(places, t) && Shaped(t) && i < t.count && t.gate == Sem(0, []) && t.pc[i] == TakeExit
    requires t.seat[i] == Sem(0, [])
    ensures Reached(places, t.(gate := Sem(1, []), seat := t.seat[i := Sem(0, [Phylo(i)])],
                               pc := t.pc[i := SeatBlocked]))
  {
    SitsReached(places, t, i);
    assert t.seat[i].Wait(Phylo(i)) == Sem(0, [Phylo(i)]);
  }

  /** Between neighbours that do not drive it grants itself the pedals and signals its seat. */
  lemma GrantedReached(places: nat, t: Table, i: nat)
    requires Reached(places, t) && Shaped(t) && i < t.count && t.pc[i] == TakeTest && t.seat[i] == Sem(0, [])
    requires t.phase[Left(t.count, i)] != DRIVING && t.phase[Right(t.count, i)] != DRIVING
    ensures Reached(places, t.(phase := t.phase[i := DRIVING], pc := t.pc[i := TakeExit],
                               seat := t.seat[i := Sem(1, [])]))
  {
    Step(places, t, PhyloStep(i));
    Step(places, t.(pc := t.pc[i := TakeGrant]), PhyloStep(i));
    assert t.pc[i := TakeGrant][i := TakeSignal] == t.pc[i := TakeSignal];
    Step(places, t.(phase := t.phase[i := DRIVING], pc := t.pc[i := TakeSignal]), PhyloStep(i));
    assert t.pc[i := TakeSignal][i := TakeExit] == t.pc[i := TakeExit];
  }

  /** Next to a neighbour that drives it leaves without a grant. */
  lemma HeldBackReached(places: nat, t: Table, i: nat)
    requires Reached(places, t) && Shaped(t) && i < t.count && t.pc[i] == TakeTest
    requires t.phase[Left(t.count, i)] == DRIVING || t.phase[Right(t.count, i)] == DRIVING
    ensures Reached(places, t.(pc := t.pc[i := TakeExit]))
  {
    Step(places, t, PhyloStep(i));
  }

  /** 0 drives, 1 and 2 think. */
  function FirstDrives(): Table {
    Table(3, [DRIVING, THINKING, THINKING, NONE], [Driving, Resting, Resting, Absent], Sem(1, []),
          [Sem(0, []), Sem(0, []), Sem(0, []), Sem(0, [])], Idle)
  }

  lemma FirstDrivesReached()
    ensures Reached(4, FirstDrives())
  {
    ThinkersReached(3);
    var t := Thinkers(3);
    MarkedReached(4, t, 0);
    var u := t.(gate := Sem(0, []), phase := t.phase[0 := WAITING], pc := t.pc[0 := TakeTest]);
    GrantedReached(4, u, 0);
    var v := u.(phase := u.phase[0 := DRIVING], pc := u.pc[0 := TakeExit], seat := u.seat[0 := Sem(1, [])]);
    SitsReached(4, v, 0);
    assert v.(gate := Sem(1, []), seat := v.seat[0 := Sem(0, [])], pc := v.pc[0 := Driving]) == FirstDrives();
  }

  /** 0 drives, 2 waits for it across the seam, 1 thinks. */
  function LastWaits(): Table {
    Table(3, [DRIVING, THINKING, WAITING, NONE], [Driving, Resting, SeatBlocked, Absent], Sem(1, []),
          [Sem(0, []), Sem(0, []), Sem(0, [Phylo(2)]), Sem(0, [])], Idle)
  }

  /** A philosopher next to one that drives goes to sleep on its seat. */
  function Waiting(t: Table, i: nat): Table
    requires Shaped(t) && i < |t.pc|
  {
    t.(phase := t.phase[i := WAITING], pc := t.pc[i := SeatBlocked], seat := t.seat[i := Sem(0, [Phylo(i)])])
  }

  lemma WaitingReached(places: nat, t: Table, i: nat)
    requires Reached(places, t) && Shaped(t) && i < t.count && t.gate == Sem(1, []) && t.pc[i] == Resting
    requires t.seat[i] == Sem(0, []) && Left(t.count, i) != i && Right(t.count, i) != i
    requires t.phase[Left(t.count, i)] == DRIVING || t.phase[Right(t.count, i)] == DRIVING
    ensures Reached(places, Waiting(t, i))
  {
    MarkedReached(places, t, i);
    var u := t.(gate := Sem(0, []), phase := t.phase[i := WAITING], pc := t.pc[i := TakeTest]);
    HeldBackReached(places, u, i);
    var v := u.(pc := u.pc[i := TakeExit]);
    SeatsWithoutUnit(places, v, i);
    assert v.pc[i := SeatBlocked] == t.pc[i := SeatBlocked];
  }

  lemma LastWaitsReached()
    ensures Reached(4, LastWaits())
  {
    FirstDrivesReached();
    WaitingReached(4, FirstDrives(), 2);
    assert Waiting(FirstDrives(), 2) == LastWaits();
  }

  /** The same, with a fourth philosopher about to be counted in. */
  function WaitingSeam(): Table {
    Table(3, [DRIVING, THINKING, WAITING, NONE], [Driving, Resting, SeatBlocked, Born], Sem(0, []),
          [Sem(0, []), Sem(0, []), Sem(0, [Phylo(2)]), Sem(0, [])], GrowCount)
  }

  lemma WaitingSeamReached()
    ensures Reached(4, WaitingSeam())
  {
    LastWaitsReached();
    CountingReached(4, LastWaits());
    assert Counting(LastWaits()) == WaitingSeam();
  }

  /** Whatever a run without removals reaches satisfies the invariants. */
  lemma ReachedIsSound(places: nat, t: Table)
    requires Reached(places, t)
    ensures Inv(t) && Progress(t)
  {
    var acts :| StartShrink !in acts && Run(Init(places), acts) == t;
    InitInv(places);
    InitProgress(places);
    RunProgress(Init(places), acts);
  }

  /**
    A run in which nobody is removed reaches a seam that waits, and counting the next philosopher
    in loses the wakeup.
   */
  lemma GrowthCanLoseWakeup()
    ensures Reached(4, WaitingSeam()) && Inv(WaitingSeam()) && Progress(WaitingSeam())
    ensures NoLostWakeup(WaitingSeam()) && !NoLostWakeup(BossMove(WaitingSeam()))
  {
    WaitingSeamReached();
    ReachedIsSound(4, WaitingSeam());
    NobodyHungryYet();
    GrowthLosesWakeupIff(WaitingSeam());
  }

  lemma NobodyHungryYet()
    ensures NoLostWakeup(WaitingSeam()) && SeamWaits(WaitingSeam())
  {
    forall i | 0 <= i < 3
      ensures !Hungry(WaitingSeam(), i)
    {
    }
  }

  /** In some run SEM_ID is free and a philosopher waits although neither neighbour drives. */
  lemma WaiterCanBeStranded()
    ensures exists acts :: StartShrink !in acts &&
              var t := Run(Init(4), acts);
              && t.gate.value > 0 && t.count == 4 && t.phase[2] == WAITING
              && t.phase[Left(4, 2)] != DRIVING && t.phase[Right(4, 2)] != DRIVING
  {
    WaitingSeamReached();
    CountedReached(4, WaitingSeam());
    var t := Counted(WaitingSeam());
    var acts :| StartShrink !in acts && Run(Init(4), acts) == t;
    assert t.phase[1] == THINKING && t.phase[3] == NONE;
  }
}
