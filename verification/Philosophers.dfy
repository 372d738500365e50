/**
  The dining philosophers of the user land program: a ring of philosophers that share the
  array of states under the semaphore SEM_ID, and a main process that adds a philosopher
  at the end of the ring or removes the last one. Every semaphore call and every write of
  a shared variable is one atomic step, and the steps of all processes interleave freely.
 */
module Philosophers {
  import opened Modular
  import opened Semaphores
  import opened Sequences

  datatype Phase = NONE | DRIVING | WAITING | THINKING

  /** Where a philosopher is: the step it takes next, or the semaphore it sleeps on. */
  datatype Pc =
    | Absent           // no process in this place
    | Born             // about to write THINKING for the first time
    | Resting          // about to wait for SEM_ID in take_pedals
    | TakeBlocked      // asleep on SEM_ID in take_pedals
    | TakeMark         // about to write WAITING
    | TakeTest         // about to look at both neighbours
    | TakeGrant        // about to write DRIVING
    | TakeSignal       // about to post its own seat
    | TakeExit         // about to post SEM_ID
    | Sitting          // about to wait for its own seat
    | SeatBlocked      // asleep on its own seat
    | Driving          // out of take_pedals, about to wait for SEM_ID in leave_pedals
    | LeaveBlocked     // asleep on SEM_ID in leave_pedals
    | LeaveMark        // about to write THINKING
    | LeaveTestLeft    // about to look whether the left neighbour can drive
    | LeaveGrantLeft   // about to write DRIVING for it
    | LeaveSignalLeft  // about to post its seat
    | LeaveTestRight
    | LeaveGrantRight
    | LeaveSignalRight
    | LeaveExit        // about to post SEM_ID

  /** Where the main process is. */
  datatype BossPc =
    | Idle
    | GrowBlocked      // asleep on SEM_ID in new_phylo
    | GrowCreate       // about to create the seat semaphore
    | GrowSpawn        // about to spawn the philosopher
    | GrowCount        // about to increment the count
    | GrowExit         // about to post SEM_ID
    | ShrinkBlocked    // asleep on SEM_ID in remove_phylo
    | ShrinkTest       // about to look at the victim's neighbours
    | ShrinkRelease    // both drive: about to post SEM_ID
    | ShrinkSit        // about to wait for the victim's seat
    | ShrinkSeatBlocked
    | ShrinkReenter    // about to wait for SEM_ID again
    | ShrinkReenterBlocked
    | ShrinkKill       // about to kill the victim
    | ShrinkClose      // about to destroy its seat semaphore
    | ShrinkErase      // about to write NONE
    | ShrinkCount      // about to decrement the count
    | ShrinkExit       // about to post SEM_ID

  datatype Proc = Phylo(i: nat) | Boss

  datatype Table = Table(
    count: nat,
    phase: seq<Phase>,
    pc: seq<Pc>,
    gate: Sem<Proc>,
    seat: seq<Sem<Proc>>,
    boss: BossPc)

  const MIN_PHY: nat := 3

  /** The next place on a ring of `n`, wrapping round. */
  function Right(n: nat, x: nat): nat
    requires x < n
  {
    if x + 1 == n then 0 else x + 1
  }

  function Left(n: nat, x: nat): nat
    requires x < n
  {
    if x == 0 then n - 1 else x - 1
  }

  /** The modular arithmetic of RIGHT_PHYLO and LEFT_PHYLO computes these neighbours. */
  lemma RingArithmetic(n: nat, x: nat)
    requires x < n
    ensures Right(n, x) == (x + 1) % n && Left(n, x) == (x + n - 1) % n
    ensures Left(n, Right(n, x)) == x && Right(n, Left(n, x)) == x
  {
    WrapsOnce(x + 1, n);
    WrapsOnce(x + n - 1, n);
  }

  predicate Shaped(t: Table) {
    |t.phase| == |t.pc| == |t.seat| && t.count <= |t.pc|
  }

  // ---- semaphore calls ----

  predicate GateBlocked(pc: Pc) {
    pc == TakeBlocked || pc == LeaveBlocked
  }

  predicate BossGateBlocked(b: BossPc) {
    b == GrowBlocked || b == ShrinkBlocked || b == ShrinkReenterBlocked
  }

  function AfterGate(pc: Pc): Pc {
    if pc == TakeBlocked then TakeMark else if pc == LeaveBlocked then LeaveMark else pc
  }

  function BossAfterGate(b: BossPc): BossPc {
    if b == GrowBlocked then GrowCreate
    else if b == ShrinkBlocked || b == ShrinkReenterBlocked then ShrinkTest
    else b
  }

  function SetPc(t: Table, i: nat, pc: Pc): Table
    requires i < |t.pc|
  {
    t.(pc := t.pc[i := pc])
  }

  /** Philosopher `i` waits for SEM_ID: it goes on past the call, or sleeps in `blocked`. */
  function WaitGate(t: Table, i: nat, blocked: Pc): Table
    requires i < |t.pc|
  {
    SetPc(t, i, if t.gate.Passes() then AfterGate(blocked) else blocked).(gate := t.gate.Wait(Phylo(i)))
  }

  function BossWaitGate(t: Table, blocked: BossPc): Table {
    t.(boss := if t.gate.Passes() then BossAfterGate(blocked) else blocked, gate := t.gate.Wait(Boss))
  }

  /** A post of SEM_ID moves the process it wakes past the call it sleeps in. */
  function PostGate(t: Table): (u: Table)
    ensures u.count == t.count && u.phase == t.phase && u.seat == t.seat && |u.pc| == |t.pc|
  {
    var u := t.(gate := t.gate.Post());
    match t.gate.Woken()
    case None => u
    case Some(Boss) => u.(boss := BossAfterGate(t.boss))
    case Some(Phylo(j)) => if j < |t.pc| then SetPc(u, j, AfterGate(t.pc[j])) else u
  }

  function PostSeat(t: Table, k: nat): (u: Table)
    requires Shaped(t) && k < |t.pc|
    ensures u.count == t.count && u.phase == t.phase && u.gate == t.gate && |u.pc| == |t.pc| && |u.seat| == |t.seat|
  {
    var u := t.(seat := t.seat[k := t.seat[k].Post()]);
    match t.seat[k].Woken()
    case None => u
    case Some(Boss) => u.(boss := ShrinkReenter)
    case Some(Phylo(j)) => if j < |t.pc| then SetPc(u, j, Driving) else u
  }

  // ---- the steps of a philosopher ----

  predicate CanMove(t: Table, i: nat) {
    i < |t.pc| && t.pc[i] != Absent && !GateBlocked(t.pc[i]) && t.pc[i] != SeatBlocked
  }

  predicate InSection(pc: Pc) {
    pc in {TakeMark, TakeTest, TakeGrant, TakeSignal, TakeExit, LeaveMark, LeaveTestLeft, LeaveGrantLeft,
           LeaveSignalLeft, LeaveTestRight, LeaveGrantRight, LeaveSignalRight, LeaveExit}
  }

  function SetPhase(t: Table, k: nat, p: Phase): Table
    requires k < |t.phase|
  {
    t.(phase := t.phase[k := p])
  }

  /** Philosopher `i` takes its next step. */
  function Move(t: Table, i: nat): (u: Table)
    requires Shaped(t) && CanMove(t, i) && (InSection(t.pc[i]) ==> i < t.count)
    ensures Shaped(u) && |u.pc| == |t.pc|
  {
    var n := t.count;
    match t.pc[i]
    case Born => SetPc(SetPhase(t, i, THINKING), i, Resting)
    case Resting => WaitGate(t, i, TakeBlocked)
    case TakeMark => SetPc(SetPhase(t, i, WAITING), i, TakeTest)
    case TakeTest =>
      SetPc(t, i, if t.phase[Left(n, i)] != DRIVING && t.phase[Right(n, i)] != DRIVING then TakeGrant else TakeExit)
    case TakeGrant => SetPc(SetPhase(t, i, DRIVING), i, TakeSignal)
    case TakeSignal => SetPc(PostSeat(t, i), i, TakeExit)
    case TakeExit => PostGate(SetPc(t, i, Sitting))
    case Sitting =>
      SetPc(t, i, if t.seat[i].Passes() then Driving else SeatBlocked).(
        seat := t.seat[i := t.seat[i].Wait(Phylo(i))])
    case Driving => WaitGate(t, i, LeaveBlocked)
    case LeaveMark => SetPc(SetPhase(t, i, THINKING), i, LeaveTestLeft)
    case LeaveTestLeft =>
      SetPc(t, i, if CanDrive(t, Left(n, i), Left(n, Left(n, i))) then LeaveGrantLeft else LeaveTestRight)
    case LeaveGrantLeft => SetPc(SetPhase(t, Left(n, i), DRIVING), i, LeaveSignalLeft)
    case LeaveSignalLeft => SetPc(PostSeat(t, Left(n, i)), i, LeaveTestRight)
    case LeaveTestRight =>
      SetPc(t, i, if CanDrive(t, Right(n, i), Right(n, Right(n, i))) then LeaveGrantRight else LeaveExit)
    case LeaveGrantRight => SetPc(SetPhase(t, Right(n, i), DRIVING), i, LeaveSignalRight)
    case LeaveSignalRight => SetPc(PostSeat(t, Right(n, i)), i, LeaveExit)
    case LeaveExit => PostGate(SetPc(t, i, Resting))
  }

  /** The test of leave_pedals: the neighbour `x` waits and its far neighbour does not drive. */
  predicate CanDrive(t: Table, x: nat, far: nat)
    requires x < |t.phase| && far < |t.phase|
  {
    t.phase[x] == WAITING && t.phase[far] != DRIVING
  }

  // ---- the steps of the main process ----

  /** The process in place `v` vanishes from the system. */
  function Vanish(t: Table, v: nat): Table
    requires Shaped(t) && v < |t.pc|
  {
    SetPc(t, v, Absent).(
      gate := Sem(t.gate.value, Without(t.gate.queue, Phylo(v))),
      seat := t.seat[v := Sem(t.seat[v].value, Without(t.seat[v].queue, Phylo(v)))])
  }

  predicate BossCanMove(t: Table) {
    && t.boss != Idle && !BossGateBlocked(t.boss) && t.boss != ShrinkSeatBlocked
    && (t.boss in {GrowCreate, GrowSpawn, GrowCount} ==> t.count < |t.pc|)
    && (Shrinking(t.boss) ==> t.count > MIN_PHY)
  }

  predicate Shrinking(b: BossPc) {
    b in {ShrinkBlocked, ShrinkTest, ShrinkRelease, ShrinkSit, ShrinkSeatBlocked, ShrinkReenter,
          ShrinkReenterBlocked, ShrinkKill, ShrinkClose, ShrinkErase, ShrinkCount}
  }

  function BossMove(t: Table): (u: Table)
    requires Shaped(t) && BossCanMove(t)
    ensures Shaped(u) && |u.pc| == |t.pc|
  {
    var n := t.count;
    match t.boss
    case GrowCreate => t.(seat := t.seat[n := Sem(0, [])], boss := GrowSpawn)
    case GrowSpawn => SetPc(t, n, Born).(boss := GrowCount)
    case GrowCount => t.(count := n + 1, boss := GrowExit)
    case GrowExit => PostGate(t.(boss := Idle))
    case ShrinkTest =>
      var v := n - 1;
      t.(boss := if t.phase[Left(n, v)] == DRIVING && t.phase[Right(n, v)] == DRIVING then ShrinkRelease
                 else ShrinkKill)
    case ShrinkRelease => PostGate(t.(boss := ShrinkSit))
    case ShrinkSit =>
      t.(boss := if t.seat[n - 1].Passes() then ShrinkReenter else ShrinkSeatBlocked,
         seat := t.seat[n - 1 := t.seat[n - 1].Wait(Boss)])
    case ShrinkReenter => BossWaitGate(t, ShrinkReenterBlocked)
    case ShrinkKill => Vanish(t, n - 1).(boss := ShrinkClose)
    case ShrinkClose => t.(seat := t.seat[n - 1 := Sem(0, [])], boss := ShrinkErase)
    case ShrinkErase => SetPhase(t, n - 1, NONE).(boss := ShrinkCount)
    case ShrinkCount => t.(count := n - 1, boss := ShrinkExit)
    case ShrinkExit => PostGate(t.(boss := Idle))
  }

  // ---- runs ----

  datatype Action = PhyloStep(i: nat) | BossStep | StartGrow | StartShrink

  predicate Enabled(t: Table, a: Action) {
    match a
    case PhyloStep(i) => CanMove(t, i) && (InSection(t.pc[i]) ==> i < t.count)
    case BossStep => BossCanMove(t)
    case StartGrow => t.boss == Idle && t.count < |t.pc|
    case StartShrink => t.boss == Idle && t.count > MIN_PHY
  }

  /** One step of the system; an action that is not possible leaves it unchanged. */
  function Act(t: Table, a: Action): (u: Table)
    requires Shaped(t)
    ensures Shaped(u) && |u.pc| == |t.pc|
  {
    if !Enabled(t, a) then t
    else match a
      case PhyloStep(i) => Move(t, i)
      case BossStep => BossMove(t)
      case StartGrow => BossWaitGate(t, GrowBlocked)
      case StartShrink => BossWaitGate(t, ShrinkBlocked)
  }
}
