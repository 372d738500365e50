/**
  The image that execv leaves on a new process's stack, byte by byte, and the context switch that
  consumes it: popState, then iretq into process_wrapper.
 */
module ExecStack {
  import opened Basics

  type CString = s: seq<Byte> | 0 !in s

  const STACK_SIZE: nat := 8192
  const X86_SS: nat := 0
  const X86_CS: nat := 8
  const X86_RFLAGS: nat := 0x202

  // ---- little-endian words ----

  function BytesOf(w: nat, n: nat): (s: seq<Byte>)
    ensures |s| == n
  {
    if n == 0 then [] else [w % 256] + BytesOf(w / 256, n - 1)
  }

  function ValueOf(s: seq<Byte>, i: nat): nat
    requires i <= |s|
    decreases |s| - i
  {
    if i == |s| then 0 else s[i] + 256 * ValueOf(s, i + 1)
  }

  function Pow256(n: nat): nat {
    if n == 0 then 1 else 256 * Pow256(n - 1)
  }

  /** What is stored in `n` bytes is read back. */
  lemma WordRoundTrip(w: nat, n: nat)
    requires w < Pow256(n)
    ensures ValueOf(BytesOf(w, n), 0) == w
  {
    SuffixRoundTrip(BytesOf(w, n), 0, w, n);
  }

  lemma {:induction false} SuffixRoundTrip(s: seq<Byte>, i: nat, w: nat, n: nat)
    requires i + n == |s| && s[i..] == BytesOf(w, n) && w < Pow256(n)
    ensures ValueOf(s, i) == w
    decreases n
  {
    if n > 0 {
      assert s[i] == s[i..][0] == w % 256;
      assert s[i + 1..] == s[i..][1..] == BytesOf(w / 256, n - 1);
      SuffixRoundTrip(s, i + 1, w / 256, n - 1);
    }
  }

  lemma SixtyFourBits()
    ensures Pow256(8) == WORDS
  {
  }

  function WordAt(mem: seq<Byte>, off: nat): nat
    requires off + 8 <= |mem|
  {
    ValueOf(mem[off..off + 8], 0)
  }

  /** The two memories differ at most inside `[lo, hi)`. */
  ghost predicate Agree(before: seq<Byte>, after: seq<Byte>, lo: int, hi: int) {
    |before| == |after| && forall k :: 0 <= k < |before| && !(lo <= k < hi) ==> after[k] == before[k]
  }

  /** Writes below writes stay inside the joined range. */
  lemma AgreeJoins(a: seq<Byte>, b: seq<Byte>, c: seq<Byte>, lo: int, mid: int, hi: int)
    requires Agree(a, b, mid, hi) && Agree(b, c, lo, mid) && lo <= mid <= hi
    ensures Agree(a, c, lo, hi)
  {
  }

  lemma WordKept(before: seq<Byte>, after: seq<Byte>, lo: int, hi: int, off: nat)
    requires Agree(before, after, lo, hi) && off + 8 <= |before| && (off + 8 <= lo || hi <= off)
    ensures WordAt(after, off) == WordAt(before, off)
  {
    assert after[off..off + 8] == before[off..off + 8];
  }

  // ---- strings ----

  ghost predicate TextAt(mem: seq<Byte>, off: int, text: CString) {
    && 0 <= off && off + |text| < |mem|
    && mem[off..off + |text|] == text && mem[off + |text|] == 0
  }

  lemma TextKept(before: seq<Byte>, after: seq<Byte>, lo: int, hi: int, off: int, text: CString)
    requires Agree(before, after, lo, hi) && TextAt(before, off, text)
    requires off + |text| < lo || hi <= off
    ensures TextAt(after, off, text)
  {
  }

  /** What a C program reads at `off`: the bytes before the first NUL. */
  function Scan(mem: seq<Byte>, off: nat): (s: seq<Byte>)
    decreases |mem| - off
  {
    if off >= |mem| || mem[off] == 0 then [] else [mem[off]] + Scan(mem, off + 1)
  }

  lemma {:induction false} ScanFindsText(mem: seq<Byte>, off: nat, text: CString)
    requires TextAt(mem, off, text)
    ensures Scan(mem, off) == text
    decreases |text|
  {
    if text != [] {
      assert mem[off] == mem[off..off + |text|][0] == text[0];
      assert text[0] in text;
      var rest: CString := text[1..];
      assert mem[off + 1..off + 1 + |rest|] == mem[off..off + |text|][1..];
      ScanFindsText(mem, off + 1, rest);
    }
  }

  // ---- the layout ----

  /** A missing argument is an empty string. */
  function Text(arg: Option<CString>): CString {
    match arg
    case Some(text) => text
    case None => []
  }

  /** The stack address once the first `n` arguments are copied below `top`. */
  function Below(top: int, argv: seq<Option<CString>>, n: nat): (r: int)
    requires n <= |argv|
    ensures r <= top - n
  {
    if n == 0 then top else Below(top, argv, n - 1) - |Text(argv[n - 1])| - 1
  }

  function AlignDown(a: int): (r: int)
    ensures r % 8 == 0 && a - 8 < r <= a
  {
    a - a % 8
  }

  function ArgvAddress(top: int, argv: seq<Option<CString>>): int {
    AlignDown(Below(top, argv, |argv|)) - 8 * (|argv| + 1)
  }

  /** The bytes of the first `n` arguments with their NULs. */
  function TextBytes(argv: seq<Option<CString>>, n: nat): nat
    requires n <= |argv|
  {
    if n == 0 then 0 else TextBytes(argv, n - 1) + |Text(argv[n - 1])| + 1
  }

  /** The unused bytes between the last copy and the array. */
  function Padding(top: int, argv: seq<Option<CString>>): (r: int)
    ensures 0 <= r < 8
  {
    (top - TextBytes(argv, |argv|)) % 8
  }

  /** The copies, the padding, the array, argc and argv, and the frame are no more than the stack. */
  predicate Fits(base: nat, top: int, argv: seq<Option<CString>>) {
    TextBytes(argv, |argv|) + Padding(top, argv) + 8 * (|argv| + 1) + 16 + 160 <= top - base
  }

  lemma {:induction false} BelowIsBytes(top: int, argv: seq<Option<CString>>, n: nat)
    requires n <= |argv|
    ensures Below(top, argv, n) == top - TextBytes(argv, n)
  {
    if n > 0 {
      BelowIsBytes(top, argv, n - 1);
    }
  }

  /** The size bound on the arguments decides where the stack pointer ends. */
  lemma FitsIff(base: nat, top: int, argv: seq<Option<CString>>)
    ensures Fits(base, top, argv) <==> base <= ArgvAddress(top, argv) - 176
  {
    BelowIsBytes(top, argv, |argv|);
  }

  lemma {:induction false} BelowDescends(top: int, argv: seq<Option<CString>>, i: nat, j: nat)
    requires i <= j <= |argv|
    ensures Below(top, argv, j) <= Below(top, argv, i) - (j - i)
    decreases j
  {
    if i < j {
      BelowDescends(top, argv, i, j - 1);
    }
  }

  /** The copies lie below `top` and above the array, and no two of them meet. */
  lemma CopiesAreDisjoint(top: int, argv: seq<Option<CString>>, i: nat, j: nat)
    requires i < |argv| && j < |argv| && i != j
    ensures ArgvAddress(top, argv) + 8 * (|argv| + 1) <= Below(top, argv, i + 1)
    ensures Below(top, argv, i + 1) + |Text(argv[i])| < top
    ensures || Below(top, argv, i + 1) + |Text(argv[i])| < Below(top, argv, j + 1)
            || Below(top, argv, j + 1) + |Text(argv[j])| < Below(top, argv, i + 1)
  {
    BelowDescends(top, argv, i + 1, |argv|);
    BelowDescends(top, argv, 0, i);
    if i < j {
      BelowDescends(top, argv, i + 1, j);
    } else {
      BelowDescends(top, argv, j + 1, i);
    }
  }

  // ---- the context switch ----

  // In the order of popState.
  datatype Reg = R15 | R14 | R13 | R12 | R11 | R10 | R9 | R8 | Rsi | Rdi | Rbp | Rdx | Rcx | Rbx | Rax

  function PlaceOf(r: Reg): (k: nat)
    ensures k < 15
  {
    match r
    case R15 => 0 case R14 => 1 case R13 => 2 case R12 => 3 case R11 => 4 case R10 => 5 case R9 => 6 case R8 => 7
    case Rsi => 8 case Rdi => 9 case Rbp => 10 case Rdx => 11 case Rcx => 12 case Rbx => 13 case Rax => 14
  }

  datatype Cpu = Cpu(popped: seq<nat>, rip: nat, cs: nat, rflags: nat, rsp: nat, ss: nat)

  function Register(cpu: Cpu, r: Reg): nat
    requires |cpu.popped| == 15
  {
    cpu.popped[PlaceOf(r)]
  }

  /** popState, fifteen pops from `off` up, followed by iretq. */
  function Resume(mem: seq<Byte>, off: nat): (cpu: Cpu)
    requires off + 160 <= |mem|
    ensures |cpu.popped| == 15
  {
    var f := off + 120;
    Cpu(seq(15, k requires 0 <= k < 15 => WordAt(mem, off + 8 * k)),
        WordAt(mem, f), WordAt(mem, f + 8), WordAt(mem, f + 16), WordAt(mem, f + 24), WordAt(mem, f + 32))
  }

  function ReadWords(mem: seq<Byte>, at: nat, n: nat): (r: seq<nat>)
    requires at + 8 * n <= |mem|
    ensures |r| == n
  {
    seq(n, i requires 0 <= i < n => WordAt(mem, at + 8 * i))
  }

  /** What process_wrapper sees: `rdi` strings, found through the NULL-ended array at `rsi`. */
  function ArgvSeen(mem: seq<Byte>, cpu: Cpu): Option<seq<seq<Byte>>>
    requires |cpu.popped| == 15
  {
    ReadArgv(mem, Register(cpu, Rsi), Register(cpu, Rdi))
  }

  function ReadArgv(mem: seq<Byte>, argv: nat, argc: nat): Option<seq<seq<Byte>>> {
    if argv + 8 * (argc + 1) > |mem| then None
    else
      var pointers := ReadWords(mem, argv, argc + 1);
      if pointers[argc] != 0 then None
      else Some(seq(argc, i requires 0 <= i < argc => Scan(mem, pointers[i])))
  }

  function Texts(argv: seq<Option<CString>>): (r: seq<seq<Byte>>)
    ensures |r| == |argv|
  {
    seq(|argv|, i requires 0 <= i < |argv| => Text(argv[i]))
  }

  /** The process sees each argument, and an empty string for a missing one. */
  lemma TextsAre(argv: seq<Option<CString>>, i: nat)
    requires i < |argv|
    ensures argv[i].Some? ==> Texts(argv)[i] == argv[i].value
    ensures argv[i].None? ==> Texts(argv)[i] == []
  {
  }

  /** Argument `i` is copied to the address `p`, right below the one before it. */
  ghost predicate CopyAt(mem: seq<Byte>, top: nat, argv: seq<Option<CString>>, i: nat, p: nat)
    requires i < |argv|
  {
    p == Below(top, argv, i + 1) && TextAt(mem, p, Text(argv[i]))
  }

  /** The first `n` arguments are copied and `buf` points to the copies. */
  ghost predicate Copied(mem: seq<Byte>, top: nat, argv: seq<Option<CString>>, n: nat, buf: seq<nat>)
    requires n <= |argv| < |buf|
  {
    forall k :: 0 <= k < n ==> CopyAt(mem, top, argv, k, buf[k])
  }

  /** What is written below the copies leaves them alone. */
  lemma CopiesKept(before: seq<Byte>, after: seq<Byte>, lo: int, hi: int, top: nat, argv: seq<Option<CString>>,
                   n: nat, buf: seq<nat>)
    requires n <= |argv| < |buf| && Copied(before, top, argv, n, buf)
    requires Agree(before, after, lo, hi) && hi <= Below(top, argv, n)
    ensures Copied(after, top, argv, n, buf)
  {
    forall k | 0 <= k < n
      ensures CopyAt(after, top, argv, k, buf[k])
    {
      BelowDescends(top, argv, k + 1, n);
      TextKept(before, after, lo, hi, buf[k], Text(argv[k]));
    }
  }

  lemma CopyOneMore(before: seq<Byte>, after: seq<Byte>, top: nat, argv: seq<Option<CString>>,
                    n: nat, buf: seq<nat>, p: nat)
    requires n < |argv| < |buf| && Copied(before, top, argv, n, buf)
    requires p == Below(top, argv, n + 1) && TextAt(after, p, Text(argv[n]))
    requires Agree(before, after, p, p + |Text(argv[n])| + 1)
    ensures Copied(after, top, argv, n + 1, buf[n := p])
  {
    CopiesKept(before, after, p, Below(top, argv, n), top, argv, n, buf);
  }

  /** The array at `at` holds a pointer to a copy of each argument, and then NULL. */
  ghost predicate ArrayAt(mem: seq<Byte>, at: nat, top: nat, argv: seq<Option<CString>>) {
    && at + 8 * (|argv| + 1) <= |mem|
    && var pointers := ReadWords(mem, at, |argv| + 1);
    && pointers[|argv|] == 0
    && Copied(mem, top, argv, |argv|, pointers)
  }

  /** Reading the array gives the arguments. */
  lemma ArrayIsRead(mem: seq<Byte>, at: nat, top: nat, argv: seq<Option<CString>>)
    requires ArrayAt(mem, at, top, argv)
    ensures ReadArgv(mem, at, |argv|) == Some(Texts(argv))
  {
    var pointers := ReadWords(mem, at, |argv| + 1);
    forall i | 0 <= i < |argv|
      ensures Scan(mem, pointers[i]) == Texts(argv)[i]
    {
      assert CopyAt(mem, top, argv, i, pointers[i]);
      ScanFindsText(mem, pointers[i], Text(argv[i]));
    }
    var seen := seq(|argv|, i requires 0 <= i < |argv| => Scan(mem, pointers[i]));
    assert seen == Texts(argv);
  }

  /** The buffer's pointers, laid down below the copies, make the array. */
  lemma ArrayIsMade(before: seq<Byte>, after: seq<Byte>, at: nat, top: nat, argv: seq<Option<CString>>, buf: seq<nat>)
    requires |buf| == |argv| + 1 && buf[|argv|] == 0 && Copied(before, top, argv, |argv|, buf)
    requires Agree(before, after, at, Below(top, argv, |argv|))
    requires at + 8 * |buf| <= |after| && ReadWords(after, at, |buf|) == buf
    ensures ArrayAt(after, at, top, argv)
  {
    CopiesKept(before, after, at, Below(top, argv, |argv|), top, argv, |argv|, buf);
  }

  /** What is written below the array leaves the array and the copies alone. */
  lemma ArrayKept(before: seq<Byte>, after: seq<Byte>, lo: int, hi: int, at: nat, top: nat,
                  argv: seq<Option<CString>>)
    requires ArrayAt(before, at, top, argv) && Agree(before, after, lo, hi)
    requires hi <= at && hi <= Below(top, argv, |argv|)
    ensures ArrayAt(after, at, top, argv)
  {
    CopiesKept(before, after, lo, hi, top, argv, |argv|, ReadWords(before, at, |argv| + 1));
    WordsKept(before, after, lo, hi, at, |argv| + 1);
  }

  lemma WordsKept(before: seq<Byte>, after: seq<Byte>, lo: int, hi: int, at: nat, n: nat)
    requires Agree(before, after, lo, hi) && at + 8 * n <= |before| && hi <= at
    ensures ReadWords(after, at, n) == ReadWords(before, at, n)
  {
    forall i | 0 <= i < n
      ensures ReadWords(after, at, n)[i] == ReadWords(before, at, n)[i]
    {
      WordKept(before, after, lo, hi, at + 8 * i);
    }
  }

  /** The value of the `p`th push of setup_initial_stack_frame. */
  function Pushed(p: nat, top: nat, argc: nat, argv: nat, wrapper: nat): nat {
    if p == 0 then X86_SS
    else if p == 1 then top
    else if p == 2 then X86_RFLAGS
    else if p == 3 then X86_CS
    else if p == 4 then wrapper
    else if p == 5 + 5 then argc
    else if p == 5 + 6 then argv
    else 0
  }

  ghost predicate PushAt(mem: seq<Byte>, top: nat, p: nat, w: nat)
    requires 8 * (p + 1) <= top <= |mem|
  {
    WordAt(mem, top - 8 * (p + 1)) == w
  }

  /** The first `n` pushes below `top` are in place. */
  ghost predicate FrameAt(mem: seq<Byte>, top: nat, n: nat, argc: nat, argv: nat, wrapper: nat) {
    && 8 * n <= top <= |mem|
    && forall p :: 0 <= p < n ==> PushAt(mem, top, p, Pushed(p, top, argc, argv, wrapper))
  }

  function Passed(r: Reg, argc: nat, argv: nat): nat {
    if r == Rdi then argc else if r == Rsi then argv else 0
  }

  /** The process starts in process_wrapper(argc, argv), with its stack at `rsp`. */
  ghost predicate Started(cpu: Cpu, rsp: nat, argc: nat, argv: nat, wrapper: nat) {
    && cpu.rip == wrapper && cpu.cs == X86_CS && cpu.rflags == X86_RFLAGS && cpu.ss == X86_SS && cpu.rsp == rsp
    && |cpu.popped| == 15
    && forall r: Reg :: Register(cpu, r) == Passed(r, argc, argv)
  }

  lemma RegisterIsPopped(mem: seq<Byte>, top: nat, argc: nat, argv: nat, wrapper: nat, r: Reg)
    requires FrameAt(mem, top, 20, argc, argv, wrapper)
    ensures Register(Resume(mem, top - 160), r) == Passed(r, argc, argv)
  {
    var p := 19 - PlaceOf(r);
    assert PushAt(mem, top, p, Pushed(p, top, argc, argv, wrapper));
  }

  /** A frame pushed in this order is what popState and iretq expect. */
  lemma FrameIsPopped(mem: seq<Byte>, top: nat, argc: nat, argv: nat, wrapper: nat)
    requires FrameAt(mem, top, 20, argc, argv, wrapper)
    ensures Started(Resume(mem, top - 160), top, argc, argv, wrapper)
  {
    var cpu := Resume(mem, top - 160);
    forall r: Reg
      ensures Register(cpu, r) == Passed(r, argc, argv)
    {
      RegisterIsPopped(mem, top, argc, argv, wrapper, r);
    }
    assert PushAt(mem, top, 4, Pushed(4, top, argc, argv, wrapper));
    assert PushAt(mem, top, 3, Pushed(3, top, argc, argv, wrapper));
    assert PushAt(mem, top, 2, Pushed(2, top, argc, argv, wrapper));
    assert PushAt(mem, top, 1, Pushed(1, top, argc, argv, wrapper));
    assert PushAt(mem, top, 0, Pushed(0, top, argc, argv, wrapper));
  }

  /**
    The finished image, with the stack pointer at `sp` and strings below `top`: resuming it starts
    process_wrapper with the argument count and an aligned array through which exactly the
    arguments are read back, and with everything the process pushes going below that array.
   */
  ghost predicate Image(mem: seq<Byte>, sp: nat, top: nat, argv: seq<Option<CString>>, wrapper: nat) {
    var at := ArgvAddress(top, argv);
    && sp == at - 176 && sp + 160 <= |mem| && at % 8 == 0
    && ArrayAt(mem, at, top, argv)
    && Started(Resume(mem, sp), at - 16, |argv|, at, wrapper)
    && ArgvSeen(mem, Resume(mem, sp)) == Some(Texts(argv))
  }

  /** A process started with the array reads back the arguments. */
  lemma ArgumentsAreSeen(mem: seq<Byte>, at: nat, top: nat, argv: seq<Option<CString>>, cpu: Cpu, rsp: nat,
                         wrapper: nat)
    requires ArrayAt(mem, at, top, argv) && Started(cpu, rsp, |argv|, at, wrapper)
    ensures ArgvSeen(mem, cpu) == Some(Texts(argv))
  {
    assert Register(cpu, Rdi) == |argv| && Register(cpu, Rsi) == at;
    ArrayIsRead(mem, at, top, argv);
  }

  /** Laying the frame below the array completes the image. */
  lemma ImageIsMade(listed: seq<Byte>, mem: seq<Byte>, sp: nat, top: nat, argv: seq<Option<CString>>,
                    wrapper: nat)
    requires sp == ArgvAddress(top, argv) - 176
    requires ArrayAt(listed, sp + 176, top, argv) && Agree(listed, mem, sp, sp + 176)
    requires FrameAt(mem, sp + 160, 20, |argv|, sp + 176, wrapper)
    ensures Image(mem, sp, top, argv, wrapper)
  {
    var at := sp + 176;
    ArrayKept(listed, mem, sp, at, at, top, argv);
    FrameIsPopped(mem, sp + 160, |argv|, at, wrapper);
    ArgumentsAreSeen(mem, at, top, argv, Resume(mem, sp), at - 16, wrapper);
  }

  /** A word stored past the first `n` extends what is read. */
  lemma OneMoreWord(before: seq<Byte>, after: seq<Byte>, at: nat, n: nat)
    requires at + 8 * (n + 1) <= |before| && Agree(before, after, at + 8 * n, at + 8 * n + 8)
    ensures ReadWords(after, at, n + 1) == ReadWords(before, at, n) + [WordAt(after, at + 8 * n)]
  {
    forall i | 0 <= i < n
      ensures ReadWords(after, at, n + 1)[i] == ReadWords(before, at, n)[i]
    {
      WordKept(before, after, at + 8 * n, at + 8 * n + 8, at + 8 * i);
    }
  }

  // ---- execv ----

  class ProcStack {
    const mem: array<Byte>  // all of memory, indexed by address
    const stackStart: nat
    var sp: nat             // stack_pointer

    // proc_init: the stack pointer starts past the last byte of the stack.
    constructor (mem: array<Byte>, stackStart: nat)
      requires stackStart + STACK_SIZE <= mem.Length
      ensures this.mem == mem && this.stackStart == stackStart && sp == stackStart + STACK_SIZE
    {
      this.mem := mem;
      this.stackStart := stackStart;
      sp := stackStart + STACK_SIZE;
    }

    method StoreWord(addr: nat, w: nat)
      requires addr + 8 <= mem.Length && w < WORDS
      modifies mem
      ensures WordAt(mem[..], addr) == w
      ensures Agree(old(mem[..]), mem[..], addr, addr + 8)
    {
      ghost var digits := BytesOf(w, 8);
      var v, j := w, 0;
      while j < 8
        invariant 0 <= j <= 8 && digits[j..] == BytesOf(v, 8 - j)
        invariant forall k :: 0 <= k < j ==> mem[addr + k] == digits[k]
        invariant Agree(old(mem[..]), mem[..], addr, addr + 8)
      {
        assert digits[j] == digits[j..][0] == v % 256;
        assert digits[j + 1..] == digits[j..][1..];
        mem[addr + j] := v % 256;
        v, j := v / 256, j + 1;
      }
      assert mem[..][addr..addr + 8] == digits;
      SixtyFourBits();
      WordRoundTrip(w, 8);
    }

    // str_cpy
    method CopyText(addr: nat, text: CString)
      requires addr + |text| < mem.Length
      modifies mem
      ensures TextAt(mem[..], addr, text)
      ensures Agree(old(mem[..]), mem[..], addr, addr + |text| + 1)
    {
      var j := 0;
      while j < |text|
        invariant 0 <= j <= |text|
        invariant mem[addr..addr + j] == text[..j]
        invariant Agree(old(mem[..]), mem[..], addr, addr + |text| + 1)
      {
        mem[addr + j] := text[j];
        assert mem[addr..addr + j + 1] == mem[addr..addr + j] + [text[j]];
        j := j + 1;
      }
      mem[addr + j] := 0;
      assert mem[..][addr..addr + |text|] == text;
    }

    /** prepare_argv_on_stack; `room` says whether the kernel has memory for the buffer. */
    method PrepareArgv(argv: seq<Option<CString>>, room: bool)
      returns (buf: Option<array<nat>>, addr: nat)
      requires sp <= mem.Length < WORDS && 0 <= Below(sp, argv, |argv|)
      modifies mem
      ensures buf.Some? == room
      ensures buf.None? ==> mem[..] == old(mem[..])
      ensures buf.Some? ==>
                && fresh(buf.value) && buf.value.Length == |argv| + 1 && buf.value[|argv|] == 0
                && Copied(mem[..], sp, argv, |argv|, buf.value[..])
                && addr == Below(sp, argv, |argv|)
                && Agree(old(mem[..]), mem[..], addr, sp)
    {
      addr := sp;
      if !room {
        return None, addr;
      }
      var b := new nat[|argv| + 1];
      var i := 0;
      while i < |argv|
        invariant 0 <= i <= |argv| && addr == Below(sp, argv, i)
        invariant Copied(mem[..], sp, argv, i, b[..])
        invariant Agree(old(mem[..]), mem[..], addr, sp)
      {
        BelowDescends(sp, argv, i + 1, |argv|);
        BelowDescends(sp, argv, 0, i);
        ghost var before, from := mem[..], addr;
        addr := CopyArg(argv, i, addr, b);
        AgreeJoins(old(mem[..]), before, mem[..], addr, from, sp);
        i := i + 1;
      }
      ghost var pointers := b[..];
      b[|argv|] := 0;
      assert forall k :: 0 <= k < |argv| ==> b[..][k] == pointers[k];
      buf := Some(b);
    }

    /** One round of the loop: argument `i` goes below the ones before it. */
    method CopyArg(argv: seq<Option<CString>>, i: nat, from: nat, b: array<nat>) returns (addr: nat)
      requires i < |argv| < b.Length && Copied(mem[..], sp, argv, i, b[..])
      requires sp <= mem.Length && from == Below(sp, argv, i) && 0 <= Below(sp, argv, i + 1)
      modifies mem, b
      ensures addr == Below(sp, argv, i + 1) < from && Copied(mem[..], sp, argv, i + 1, b[..])
      ensures Agree(old(mem[..]), mem[..], addr, from)
    {
      var text := Text(argv[i]);
      BelowDescends(sp, argv, 0, i);
      addr := from - (|text| + 1);
      ghost var before, pointers := mem[..], b[..];
      CopyText(addr, text);
      CopyOneMore(before, mem[..], sp, argv, i, pointers, addr);
      b[i] := addr;
      assert b[..] == pointers[i := addr];
    }

    /** copy_argv_ptr_array_to_stack */
    method CopyPointers(from: nat, buf: array<nat>) returns (addr: nat)
      requires from <= mem.Length && 0 <= AlignDown(from) - 8 * buf.Length
      requires forall i :: 0 <= i < buf.Length ==> buf[i] < WORDS
      modifies mem
      ensures addr == AlignDown(from) - 8 * buf.Length
      ensures ReadWords(mem[..], addr, buf.Length) == buf[..]
      ensures Agree(old(mem[..]), mem[..], addr, from)
    {
      addr := AlignDown(from) - 8 * buf.Length;
      var i := 0;
      while i < buf.Length
        invariant 0 <= i <= buf.Length
        invariant ReadWords(mem[..], addr, i) == buf[..i]
        invariant Agree(old(mem[..]), mem[..], addr, from)
      {
        ghost var before := mem[..];
        var at := addr + 8 * i;
        StoreWord(at, buf[i]);
        OneMoreWord(before, mem[..], addr, i);
        i := i + 1;
      }
    }

    /** push_argc_argv_to_stack */
    method PushArgcArgv(from: nat, argc: nat, argv: nat) returns (addr: nat)
      requires 16 <= from <= mem.Length && argc < WORDS && argv < WORDS
      modifies mem
      ensures addr == from - 16
      ensures WordAt(mem[..], addr) == argc && WordAt(mem[..], addr + 8) == argv
      ensures Agree(old(mem[..]), mem[..], addr, from)
    {
      addr := from - 8;
      StoreWord(addr, argv);
      ghost var before := mem[..];
      addr := addr - 8;
      StoreWord(addr, argc);
      WordKept(before, mem[..], addr, addr + 8, addr + 8);
    }

    /** One `*(--stack) = w` of the initial frame: the earlier pushes stay. */
    method PushWord(top: nat, p: nat, w: nat, ghost argc: nat, ghost argv: nat, ghost wrapper: nat)
      requires 8 * (p + 1) <= top <= mem.Length
      requires FrameAt(mem[..], top, p, argc, argv, wrapper)
      requires w == Pushed(p, top, argc, argv, wrapper) < WORDS
      modifies mem
      ensures FrameAt(mem[..], top, p + 1, argc, argv, wrapper)
      ensures Agree(old(mem[..]), mem[..], top - 8 * (p + 1), top - 8 * p)
    {
      ghost var before := mem[..];
      var at := top - 8 * (p + 1);
      StoreWord(at, w);
      forall q | 0 <= q < p
        ensures WordAt(mem[..], top - 8 * (q + 1)) == Pushed(q, top, argc, argv, wrapper)
      {
        WordKept(before, mem[..], at, at + 8, top - 8 * (q + 1));
      }
    }

    /** setup_initial_stack_frame */
    method SetupFrame(top: nat, argc: nat, argv: nat, wrapper: nat) returns (addr: nat)
      requires 160 <= top <= mem.Length
      requires top < WORDS && argc < WORDS && argv < WORDS && wrapper < WORDS
      modifies mem
      ensures addr == top - 160 && FrameAt(mem[..], top, 20, argc, argv, wrapper)
      ensures Agree(old(mem[..]), mem[..], addr, top)
    {
      PushWord(top, 0, X86_SS, argc, argv, wrapper);
      PushWord(top, 1, top, argc, argv, wrapper);
      PushWord(top, 2, X86_RFLAGS, argc, argv, wrapper);
      PushWord(top, 3, X86_CS, argc, argv, wrapper);
      PushWord(top, 4, wrapper, argc, argv, wrapper);
      var i := 0;
      while i < 15
        invariant 0 <= i <= 15
        invariant FrameAt(mem[..], top, 5 + i, argc, argv, wrapper)
        invariant Agree(old(mem[..]), mem[..], top - 160, top)
      {
        var w := if i == 5 then argc else if i == 6 then argv else 0;
        PushWord(top, 5 + i, w, argc, argv, wrapper);
        i := i + 1;
      }
      addr := top - 160;
    }

    /**
      execv: resuming the process starts process_wrapper with the argument count and an aligned
      array through which it reads back exactly the arguments, on a stack that lies wholly below
      that array. Nothing above the old stack pointer or below the new one is written, and the
      image stays inside the stack exactly when it fits; the size is never checked. Without memory
      for the kernel buffer nothing changes.
     */
    method Execv(argv: seq<Option<CString>>, room: bool, wrapper: nat) returns (r: int)
      requires sp <= mem.Length < WORDS && wrapper < WORDS && |argv| < WORDS
      requires 0 <= ArgvAddress(sp, argv) - 176
      modifies this`sp, mem
      ensures r == if room then 0 else -1
      ensures !room ==> sp == old(sp) && mem[..] == old(mem[..])
      ensures room ==> Agree(old(mem[..]), mem[..], sp, old(sp))
      ensures room ==> (stackStart <= sp <==> Fits(stackStart, old(sp), argv))
      ensures room ==> Image(mem[..], sp, old(sp), argv, wrapper)
    {
      ghost var top := sp;
      var buf, addr := PrepareArgv(argv, room);
      if buf.None? {
        return -1;
      }
      var b := buf.value;
      ghost var copied := mem[..];
      addr := CopyPointers(addr, b);
      var at := addr;
      ghost var listed := mem[..];
      ArrayIsMade(copied, listed, at, top, argv, b[..]);
      AgreeJoins(old(mem[..]), copied, listed, at, Below(top, argv, |argv|), top);
      addr := PushArgcArgv(addr, |argv|, at);
      ghost var pushed := mem[..];
      sp := addr;
      sp := SetupFrame(addr, |argv|, at, wrapper);
      r := 0;
      AgreeJoins(listed, pushed, mem[..], sp, addr, at);
      AgreeJoins(old(mem[..]), listed, mem[..], sp, at, top);
      ImageIsMade(listed, mem[..], sp, top, argv, wrapper);
      assert stackStart <= sp <==> Fits(stackStart, top, argv) by {
        FitsIff(stackStart, top, argv);
      }
    }
  }
}
