/**
  The byte ring behind pipes and the keyboard: head and tail run from 0 to size inclusive,
  with both 0 and size standing for the first cell, and one cell is always kept free.
 */
module RingBuffer {
  import opened Basics
  import opened Modular

  function Min(a: nat, b: nat): nat {
    if a < b then a else b
  }

  /** The positions the ring can be in. */
  predicate Positions(size: nat, head: nat, tail: nat) {
    && size >= 1 && head <= size && tail <= size
    && (tail == 0 ==> head == 0)
    && !(head == 0 && tail == size)
  }

  /** The bytes between head and tail. */
  function Stored(b: seq<Byte>, head: nat, tail: nat): seq<Byte>
    requires head <= |b| && tail <= |b|
  {
    if head <= tail then b[head..tail] else b[head..] + b[..tail]
  }

  /** The cell a position stands for. */
  function Cell(size: nat, pos: nat): nat {
    if pos == size then 0 else pos
  }

  lemma StoredFits(b: seq<Byte>, head: nat, tail: nat)
    requires Positions(|b|, head, tail)
    ensures |Stored(b, head, tail)| < |b|
    ensures Stored(b, head, tail) == [] <==> head == tail
  {
  }

  /** The test for a full ring holds exactly when all cells but one are taken. */
  lemma FullTest(b: seq<Byte>, head: nat, tail: nat)
    requires Positions(|b|, head, tail)
    ensures (tail + 1) % |b| == head % |b| <==> |Stored(b, head, tail)| == |b| - 1
  {
    if |b| > 1 {
      WrapsOnce(tail + 1, |b|);
      WrapsOnce(head, |b|);
    }
  }

  /** Taking the byte at the head. */
  lemma StoredPop(b: seq<Byte>, head: nat, tail: nat)
    requires Positions(|b|, head, tail) && head != tail
    ensures var h := Cell(|b|, head);
            && h < |b| && Positions(|b|, h + 1, tail)
            && Stored(b, head, tail) == [b[h]] + Stored(b, h + 1, tail)
  {
    if head == |b| {
      assert b[head..] == [];
      SliceHead(b, 0, tail);
    } else if head < tail {
      SliceHead(b, head, tail);
    } else {
      SliceHead(b, head, |b|);
      assert b[head..] + b[..tail] == [b[head]] + (b[head + 1..] + b[..tail]);
    }
  }

  lemma SliceHead(b: seq<Byte>, i: nat, j: nat)
    requires i < j <= |b|
    ensures b[i..j] == [b[i]] + b[i + 1..j]
  {
  }

  /** Putting a byte at the tail of a ring that is not full. */
  lemma StoredPush(b: seq<Byte>, head: nat, tail: nat, x: Byte)
    requires Positions(|b|, head, tail) && |Stored(b, head, tail)| < |b| - 1
    ensures var t := Cell(|b|, tail);
            && t < |b| && Positions(|b|, head, t + 1)
            && Stored(b[t := x], head, t + 1) == Stored(b, head, tail) + [x]
  {
  }

  /** The length of the prefix of `s` up to and including the first `c`; 0 if there is none. */
  function UpTo(s: seq<Byte>, c: Byte): (k: nat)
    ensures k <= |s|
  {
    if s == [] then 0
    else if s[0] == c then 1
    else
      var k := UpTo(s[1..], c);
      if k == 0 then 0 else k + 1
  }

  lemma {:induction false} UpToIsFirst(s: seq<Byte>, c: Byte)
    ensures UpTo(s, c) == 0 <==> c !in s
    ensures UpTo(s, c) > 0 ==> s[UpTo(s, c) - 1] == c && c !in s[..UpTo(s, c) - 1]
  {
    if s != [] {
      UpToIsFirst(s[1..], c);
      assert s == [s[0]] + s[1..];
      var k := UpTo(s[1..], c);
      assert k > 0 ==> s[..k] == [s[0]] + s[1..][..k - 1];
    }
  }

  /** A scan that has passed `k` bytes without a hit looks at the next one. */
  lemma {:induction false} UpToStep(s: seq<Byte>, c: Byte, k: nat)
    requires k < |s| && (UpTo(s, c) == 0 || UpTo(s, c) > k)
    ensures if s[k] == c then UpTo(s, c) == k + 1 else UpTo(s, c) == 0 || UpTo(s, c) > k + 1
  {
    if k > 0 {
      UpToStep(s[1..], c, k - 1);
    }
  }

  /** The scan of the stored bytes `s` moves from byte `k` to the next. */
  lemma ScanStep(b: seq<Byte>, h: nat, tail: nat, s: seq<Byte>, k: nat)
    requires Positions(|b|, h, tail) && k <= |s| && Stored(b, h, tail) == s[k..]
    requires h != tail || k < |s|
    ensures var g := Cell(|b|, h);
            && k < |s| && b[g] == s[k] && Positions(|b|, g + 1, tail) && Stored(b, g + 1, tail) == s[k + 1..]
  {
  }

  /** A destination whose first `k` places hold the start of `s` gets the next byte. */
  lemma MovedOne(s: seq<Byte>, was: seq<Byte>, k: nat)
    requires k < |s| && k < |was|
    ensures (s[..k] + was[k..])[k := s[k]] == s[..k + 1] + was[k + 1..]
    ensures s[k..][0] == s[k] && s[k..][1..] == s[k + 1..]
  {
  }

  // ---- taking back the last byte ----

  /** The tail after ringbuf_unwrite. */
  function Unwritten(size: nat, head: nat, tail: nat): nat
    requires size > 0
  {
    if tail == head then tail else if tail == 0 then size - 1 else tail - 1
  }

  /** What a read of up to `n` bytes delivers, cell by cell, from any positions. */
  function Drained(b: seq<Byte>, head: nat, tail: nat, n: nat): seq<Byte>
    requires |b| > 0 && head <= |b|
    decreases n
  {
    if n == 0 || head == tail then []
    else
      var h := Cell(|b|, head);
      [b[h]] + Drained(b, h + 1, tail, n - 1)
  }

  function Prefix(s: seq<Byte>, n: nat): seq<Byte> {
    s[..Min(n, |s|)]
  }

  lemma PrefixCons(s: seq<Byte>, n: nat)
    requires n > 0 && s != []
    ensures Prefix(s, n) == [s[0]] + Prefix(s[1..], n - 1)
  {
  }

  lemma DrainedStep(b: seq<Byte>, head: nat, tail: nat, n: nat, s: seq<Byte>)
    requires head <= |b| && 0 < |b| && head != tail && n > 0 && s != [] && b[Cell(|b|, head)] == s[0]
    requires Drained(b, Cell(|b|, head) + 1, tail, n - 1) == Prefix(s[1..], n - 1)
    ensures Drained(b, head, tail, n) == Prefix(s, n)
  {
    PrefixCons(s, n);
  }

  lemma {:induction false} DrainedIsPrefix(b: seq<Byte>, head: nat, tail: nat, n: nat, s: seq<Byte>)
    requires Positions(|b|, head, tail) && Stored(b, head, tail) == s
    ensures Drained(b, head, tail, n) == Prefix(s, n)
    decreases n
  {
    StoredFits(b, head, tail);
    if n == 0 || head == tail {
      DrainedNothing(b, head, tail, n, s);
    } else {
      HeadOfStored(b, head, tail, s);
      DrainedIsPrefix(b, Cell(|b|, head) + 1, tail, n - 1, s[1..]);
      DrainedStep(b, head, tail, n, s);
    }
  }

  lemma DrainedNothing(b: seq<Byte>, head: nat, tail: nat, n: nat, s: seq<Byte>)
    requires head <= |b| && 0 < |b| && (n == 0 || (head == tail && s == []))
    ensures Drained(b, head, tail, n) == Prefix(s, n)
  {
  }

  lemma HeadOfStored(b: seq<Byte>, head: nat, tail: nat, s: seq<Byte>)
    requires Positions(|b|, head, tail) && head != tail && Stored(b, head, tail) == s
    ensures var h := Cell(|b|, head);
            && h < |b| && Positions(|b|, h + 1, tail) && s != [] && b[h] == s[0] && Stored(b, h + 1, tail) == s[1..]
  {
    StoredPop(b, head, tail);
  }

  /** With the tail at 0 and the head elsewhere, a read runs past the end of the contents. */
  lemma {:induction false} DrainOverruns(b: seq<Byte>, head: nat, n: nat)
    requires |b| > 0 && 0 < head <= |b| && n <= |b| - head + 1
    ensures |Drained(b, head, 0, n)| == n
    decreases n
  {
    if n > 0 && head < |b| {
      DrainOverruns(b, head + 1, n - 1);
    } else if n > 0 {
      assert n == 1;
      assert Drained(b, 1, 0, 0) == [];
    }
  }

  /**
    After ringbuf_unwrite, reads deliver the contents without their last byte if and only if
    the taken byte was not in cell 0 with the head further on: the tail then moves to 0, where
    a head that has reached the end no longer meets it.
   */
  lemma UnwriteDropsLastIff(b: seq<Byte>, head: nat, tail: nat)
    requires Positions(|b|, head, tail) && head != tail
    ensures var s := Stored(b, head, tail);
            && s != []
            && ((forall n: nat :: Drained(b, head, Unwritten(|b|, head, tail), n) == Prefix(s[..|s| - 1], n))
                <==> !(tail == 1 && head >= 2))
  {
    var s := Stored(b, head, tail);
    var t := Unwritten(|b|, head, tail);
    StoredFits(b, head, tail);
    if tail == 1 && head >= 2 {
      DrainOverruns(b, head, |s|);
      assert Drained(b, head, t, |s|) != s[..|s| - 1];
    } else {
      UnwrittenStores(b, head, tail);
      forall n: nat
        ensures Drained(b, head, t, n) == Prefix(s[..|s| - 1], n)
      {
        DrainedIsPrefix(b, head, t, n, s[..|s| - 1]);
      }
    }
  }

  lemma UnwrittenStores(b: seq<Byte>, head: nat, tail: nat)
    requires Positions(|b|, head, tail) && head != tail && !(tail == 1 && head >= 2)
    ensures var s := Stored(b, head, tail);
            var t := Unwritten(|b|, head, tail);
            s != [] && Positions(|b|, head, t) && Stored(b, head, t) == s[..|s| - 1]
  {
  }

  class Ring {
    const buf: array<Byte>
    var head: nat
    var tail: nat

    ghost predicate Valid()
      reads this
    {
      Positions(buf.Length, head, tail)
    }

    ghost function Contents(): seq<Byte>
      requires Valid()
      reads this, buf
    {
      Stored(buf[..], head, tail)
    }

    // ringbuf_new
    constructor (size: nat)
      requires size >= 1
      ensures Valid() && fresh(buf) && buf.Length == size && Contents() == []
    {
      buf := new Byte[size];
      head, tail := 0, 0;
    }

    // ringbuf_available
    method Available() returns (n: nat)
      requires Valid()
      ensures n == |Contents()| && n < buf.Length
    {
      StoredFits(buf[..], head, tail);
      n := if tail >= head then tail - head else tail + buf.Length - head;
    }

    /** The read of one byte, as the reading loops do it. */
    method TakeOne() returns (x: Byte)
      requires Valid() && head != tail
      modifies this`head
      ensures Valid() && old(Contents()) != []
      ensures x == old(Contents())[0] && Contents() == old(Contents())[1..]
    {
      StoredPop(buf[..], head, tail);
      if head == buf.Length {
        head := 0;
      }
      x := buf[head];
      head := head + 1;
    }

    /** The write of one byte into a ring that is not full. */
    method PutOne(x: Byte)
      requires Valid() && |Contents()| < buf.Length - 1
      modifies this`tail, buf
      ensures Valid() && Contents() == old(Contents()) + [x]
    {
      StoredPush(buf[..], head, tail, x);
      ghost var before := buf[..];
      if tail == buf.Length {
        tail := 0;
      }
      buf[tail] := x;
      assert buf[..] == before[tail := x];
      tail := tail + 1;
    }

    /** The byte at the head goes to place `k` of the destination. */
    method MoveOne(dst: array<Byte>, k: nat) returns (x: Byte)
      requires Valid() && head != tail && k < dst.Length && dst != buf
      modifies this`head, dst
      ensures Valid() && old(Contents()) != []
      ensures x == old(Contents())[0] && Contents() == old(Contents())[1..]
      ensures dst[..] == old(dst[..])[k := x]
    {
      x := TakeOne();
      dst[k] := x;
    }

    // ringbuf_read
    method Read(n: nat, dst: array<Byte>) returns (k: nat)
      requires Valid() && n <= dst.Length && dst != buf
      modifies this`head, dst
      ensures Valid() && k == Min(n, |old(Contents())|)
      ensures dst[..] == old(Contents())[..k] + old(dst[..])[k..]
      ensures Contents() == old(Contents())[k..]
    {
      ghost var s, was := Contents(), dst[..];
      k := 0;
      while k < n
        invariant k <= n && k <= |s| && Valid()
        invariant Contents() == s[k..] && dst[..] == s[..k] + was[k..]
      {
        StoredFits(buf[..], head, tail);
        if head == tail {
          break;
        }
        MovedOne(s, was, k);
        var _ := MoveOne(dst, k);
        k := k + 1;
      }
      StoredFits(buf[..], head, tail);
    }

    // ringbuf_write
    method Write(n: nat, src: array<Byte>) returns (k: nat)
      requires Valid() && n <= src.Length && src != buf
      modifies this`tail, buf
      ensures Valid() && |old(Contents())| < buf.Length && k == Min(n, buf.Length - 1 - |old(Contents())|)
      ensures Contents() == old(Contents()) + src[..k]
    {
      ghost var s := Contents();
      StoredFits(buf[..], head, tail);
      k := 0;
      while k < n
        invariant k <= n && Valid() && |Contents()| < buf.Length
        invariant Contents() == s + src[..k]
      {
        FullTest(buf[..], head, tail);
        if (tail + 1) % buf.Length == head % buf.Length {
          break;
        }
        StoredFits(buf[..], head, tail);
        PutOne(src[k]);
        assert src[..k + 1] == src[..k] + [src[k]];
        k := k + 1;
      }
    }

    // ringbuf_read_until
    method ReadUntil(dst: array<Byte>, count: nat, c: Byte) returns (k: nat)
      requires Valid() && count <= dst.Length && dst != buf
      modifies this`head, dst
      ensures Valid()
      ensures k == Min(count, if UpTo(old(Contents()), c) > 0 then UpTo(old(Contents()), c) else |old(Contents())|)
      ensures dst[..] == old(Contents())[..k] + old(dst[..])[k..]
      ensures Contents() == old(Contents())[k..]
    {
      ghost var s, was := Contents(), dst[..];
      k := 0;
      while k < count && head != tail
        invariant k <= count && k <= |s| && Valid()
        invariant Contents() == s[k..] && dst[..] == s[..k] + was[k..]
        invariant UpTo(s, c) == 0 || UpTo(s, c) > k
        decreases count - k
      {
        StoredFits(buf[..], head, tail);
        UpToStep(s, c, k);
        MovedOne(s, was, k);
        var ch := MoveOne(dst, k);
        k := k + 1;
        if ch == c {
          return;
        }
      }
      StoredFits(buf[..], head, tail);
    }

    // ringbuf_find
    method Find(c: Byte) returns (count: nat)
      requires Valid()
      ensures count == UpTo(Contents(), c)
    {
      ghost var b, s := buf[..], Contents();
      var h: nat := head;
      count := 0;
      while h != tail
        invariant Positions(|b|, h, tail) && count <= |s|
        invariant Stored(b, h, tail) == s[count..]
        invariant UpTo(s, c) == 0 || UpTo(s, c) > count
        decreases |s| - count
      {
        ScanStep(b, h, tail, s, count);
        UpToStep(s, c, count);
        if h == buf.Length {
          h := 0;
        }
        count := count + 1;
        if buf[h] == c {
          return;
        }
        h := h + 1;
      }
      StoredFits(buf[..], h, tail);
      assert |s[count..]| == 0;
      count := 0;
    }

    /** ringbuf_unwrite; for the case it does not serve see UnwriteDropsLastIff. */
    method Unwrite()
      requires buf.Length >= 1 && head <= buf.Length && tail <= buf.Length
      modifies this`tail
      ensures tail == Unwritten(buf.Length, head, old(tail))
      ensures old(Valid()) && !(old(tail) == 1 && head >= 2) ==> Valid()
      ensures old(Valid()) && !(old(tail) == 1 && head >= 2) && head != old(tail) ==>
                old(Contents()) != [] && Contents() == old(Contents())[..|old(Contents())| - 1]
    {
      if Positions(buf.Length, head, tail) && head != tail && !(tail == 1 && head >= 2) {
        UnwrittenStores(buf[..], head, tail);
      }
      if tail == head {
        return;
      }
      if tail == 0 {
        tail := buf.Length - 1;
      } else {
        tail := tail - 1;
      }
    }
  }
}
