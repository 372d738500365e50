/**
  The block geometry of the buddy allocator: block sizes are powers of two, a block of
  a given order sits at an offset that is a multiple of its size, and the buddy of a block
  is found by flipping one bit of its offset.
 */
module BuddyGeometry {

  const MIN_ORDER: nat := 3
  const MAX_ORDER: nat := 18
  const HEAP_SIZE: nat := 16777216

  function Pow2(n: nat): (p: nat)
    ensures p > 0
  {
    if n == 0 then 1 else 2 * Pow2(n - 1)
  }

  /** The number of bytes of a block of order `k`. */
  function Size(k: nat): nat {
    Pow2(k + 6)
  }

  /** Bitwise exclusive or of two naturals. */
  function Xor(a: nat, b: nat): nat {
    if a == 0 && b == 0 then 0 else (a + b) % 2 + 2 * Xor(a / 2, b / 2)
  }

  /** The offset computed by the GET_BUDDY macro, relative to the heap's base. */
  function BuddyOf(off: nat, k: nat): nat {
    Xor(off, Size(k))
  }

  /** The greatest multiple of `s` that is at most `x`. */
  function RoundedDown(x: nat, s: nat): nat
    requires s > 0
  {
    x - x % s
  }

  datatype Block = Block(order: nat, off: nat) {
    function End(): nat {
      off + Size(order)
    }

    /** An aligned block of a legal order inside the heap. */
    predicate Placed() {
      && MIN_ORDER <= order <= MAX_ORDER
      && off % Size(order) == 0
      && End() <= HEAP_SIZE
    }

    predicate Covers(x: nat) {
      off <= x < End()
    }

    predicate Within(b: Block) {
      b.off <= off && End() <= b.End()
    }

    predicate Apart(b: Block) {
      End() <= b.off || b.End() <= off
    }

    /** The block of the next order that contains this one. */
    function Parent(): Block {
      Block(order + 1, RoundedDown(off, Size(order + 1)))
    }

    function Buddy(): Block {
      Block(order, BuddyOf(off, order))
    }

    function Left(): Block
      requires order > 0
    {
      Block(order - 1, off)
    }

    function Right(): Block
      requires order > 0
    {
      Block(order - 1, off + Size(order - 1))
    }
  }

  const WHOLE_HEAP: Block := Block(MAX_ORDER, 0)

  lemma WholeHeapPlaced()
    ensures Size(MAX_ORDER) == HEAP_SIZE
    ensures WHOLE_HEAP.Placed()
  {
    assert Pow2(12) == 4096;
    assert Pow2(24) == 16777216;
  }

  lemma SizeDoubles(k: nat)
    ensures Size(k + 1) == 2 * Size(k)
  {
  }

  lemma {:induction false} SizeMonotone(j: nat, k: nat)
    requires j <= k
    ensures Size(j) <= Size(k)
    ensures j < k ==> 2 * Size(j) <= Size(k)
  {
    if j < k {
      SizeMonotone(j, k - 1);
    }
  }

  // ---- exclusive or with a power of two ----

  lemma {:induction false} XorZero(a: nat)
    ensures Xor(a, 0) == a
  {
    if a > 0 {
      XorZero(a / 2);
    }
  }

  /** Exclusive or with 2^j flips the last bit of the multiple of 2^j. */
  lemma {:induction false} XorMultiple(m: nat, j: nat)
    ensures m * Pow2(j) >= 0
    ensures Xor(m * Pow2(j), Pow2(j)) == if m % 2 == 0 then m * Pow2(j) + Pow2(j) else m * Pow2(j) - Pow2(j)
  {
    if j == 0 {
      XorOne(m);
    } else {
      XorMultiple(m, j - 1);
      TwiceMul(m, j);
      XorTwice(m * Pow2(j - 1), Pow2(j - 1));
    }
  }

  lemma XorOne(m: nat)
    ensures m * Pow2(0) == m && Xor(m, 1) == if m % 2 == 0 then m + 1 else m - 1
  {
    XorZero(m / 2);
  }

  lemma TwiceMul(m: nat, j: nat)
    requires j > 0
    ensures m * Pow2(j - 1) >= 0 && Pow2(j) == 2 * Pow2(j - 1)
    ensures m * Pow2(j) == 2 * (m * Pow2(j - 1))
  {
    TwiceRight(m, Pow2(j - 1));
  }

  lemma TwiceRight(m: nat, h: nat)
    ensures m * (2 * h) == 2 * (m * h) >= 0
  {
  }

  lemma XorTwice(a: nat, b: nat)
    ensures Xor(2 * a, 2 * b) == 2 * Xor(a, b)
  {
    assert 2 * a / 2 == a && 2 * b / 2 == b && (2 * a + 2 * b) % 2 == 0;
  }

  lemma {:induction false} MultiplesApart(m: nat, n: nat, s: nat)
    requires m < n
    ensures m * s + s <= n * s
  {
    if m + 1 < n {
      MultiplesApart(m, n - 1, s);
      assert n * s == (n - 1) * s + s;
    } else {
      assert n * s == m * s + s;
    }
  }

  lemma ModRange(m: nat, s: nat, r: nat)
    requires r < s
    ensures m * s >= 0
    ensures (m * s + r) / s == m && (m * s + r) % s == r
  {
    var q, t := (m * s + r) / s, (m * s + r) % s;
    assert m * s + r == q * s + t;
    if m > q {
      MultiplesApart(q, m, s);
    } else if m < q {
      MultiplesApart(m, q, s);
    }
  }

  lemma ModOfMultiple(m: nat, s: nat)
    requires s > 0
    ensures m * s >= 0
    ensures (m * s) % s == 0 && (m * s) / s == m
  {
    ModRange(m, s, 0);
  }

  /** A multiple of `2*s` is a multiple of `s`, and so is the midpoint above it. */
  lemma HalfAligned(off: nat, s: nat)
    requires s > 0 && off % (2 * s) == 0
    ensures off % s == 0 && (off + s) % s == 0
    ensures (off + s) % (2 * s) == s
  {
    var m := off / (2 * s);
    HalfMultiples(m, s);
    assert off == m * (2 * s);
  }

  lemma HalfMultiples(m: nat, s: nat)
    requires s > 0
    ensures m * (2 * s) >= 0
    ensures (m * (2 * s)) % s == 0 && (m * (2 * s) + s) % s == 0
    ensures (m * (2 * s) + s) % (2 * s) == s
  {
    Regroup(m, s);
    ModOfMultiple(2 * m, s);
    ModOfMultiple(2 * m + 1, s);
    ModRange(m, 2 * s, s);
  }

  lemma Regroup(m: nat, s: nat)
    ensures m * (2 * s) == (2 * m) * s
    ensures m * (2 * s) + s == (2 * m + 1) * s
  {
  }

  /** An offset aligned to `s` is either aligned to `2*s` or sits exactly half way. */
  lemma EvenOrOdd(off: nat, s: nat)
    requires s > 0 && off % s == 0
    ensures off % (2 * s) == if (off / s) % 2 == 0 then 0 else s
  {
    var m := off / s;
    assert off == m * s;
    if m % 2 == 0 {
      assert off == (m / 2) * (2 * s) + 0;
      ModRange(m / 2, 2 * s, 0);
    } else {
      assert m == 2 * (m / 2) + 1;
      assert off == (m / 2) * (2 * s) + s;
      ModRange(m / 2, 2 * s, s);
    }
  }

  /** What the exclusive or of GET_BUDDY computes: the other half of the parent block. */
  lemma BuddyIsOtherHalf(off: nat, k: nat)
    requires off % Size(k) == 0
    ensures off % Size(k + 1) == 0 ==> BuddyOf(off, k) == off + Size(k)
    ensures off % Size(k + 1) != 0 ==> off % Size(k + 1) == Size(k) && BuddyOf(off, k) == off - Size(k)
  {
    var m := off / Size(k);
    assert off == m * Size(k);
    XorMultiple(m, k + 6);
    SizeDoubles(k);
    EvenOrOdd(off, Size(k));
  }

  lemma ParentPlaced(b: Block)
    requires b.Placed() && b.order < MAX_ORDER
    ensures b.Parent().Placed()
    ensures b == b.Parent().Left() || b == b.Parent().Right()
    ensures b.Within(b.Parent())
  {
    SizeDoubles(b.order);
    BuddyIsOtherHalf(b.off, b.order);
    RoundDown(b.off, Size(b.order + 1));
    FitsBelowHeap(b.Parent());
  }

  lemma RoundDown(x: nat, s: nat)
    requires s > 0
    ensures RoundedDown(x, s) % s == 0
  {
    assert RoundedDown(x, s) == (x / s) * s;
    ModOfMultiple(x / s, s);
  }

  /** An aligned block that starts inside the heap ends inside it. */
  lemma FitsBelowHeap(b: Block)
    requires MIN_ORDER <= b.order <= MAX_ORDER && b.off % Size(b.order) == 0 && b.off < HEAP_SIZE
    ensures b.Placed()
  {
    HeapMultiple(b.order);
    SameStride(b.off, HEAP_SIZE, Size(b.order));
  }

  lemma {:induction false} HeapMultiple(k: nat)
    requires k <= MAX_ORDER
    ensures HEAP_SIZE % Size(k) == 0
    decreases MAX_ORDER - k
  {
    WholeHeapPlaced();
    if k < MAX_ORDER {
      HeapMultiple(k + 1);
      SizeDoubles(k);
      HalfAligned(HEAP_SIZE, Size(k));
    } else {
      ModOfMultiple(1, HEAP_SIZE);
    }
  }

  /** The two halves of an aligned span are aligned, and each is the other's buddy. */
  lemma HalvesAreBuddies(off: nat, k: nat)
    requires off % Size(k + 1) == 0
    ensures Size(k + 1) == 2 * Size(k) && off % Size(k) == 0 && (off + Size(k)) % Size(k) == 0
    ensures (off + Size(k)) % Size(k + 1) == Size(k)
    ensures BuddyOf(off, k) == off + Size(k) && BuddyOf(off + Size(k), k) == off
  {
    SizeDoubles(k);
    HalfAligned(off, Size(k));
    BuddyIsOtherHalf(off, k);
    BuddyIsOtherHalf(off + Size(k), k);
  }

  lemma HalvesPlaced(b: Block)
    requires b.Placed() && b.order > MIN_ORDER
    ensures b.Left().Placed() && b.Right().Placed()
    ensures b.Left().Buddy() == b.Right() && b.Right().Buddy() == b.Left()
    ensures b.Left().End() == b.Right().off && b.Right().End() == b.End()
    ensures b.Left().Parent() == b && b.Right().Parent() == b
  {
    HalvesAreBuddies(b.off, b.order - 1);
  }

  /**
    The range check on the buddy never fails: the buddy of a block below the top order
    is again a block of the heap, it is the other half of the same parent, and taking
    the buddy twice gives the block back.
   */
  lemma BuddyPlaced(b: Block)
    requires b.Placed() && b.order < MAX_ORDER
    ensures b.Buddy().Placed() && b.Buddy() != b && b.Buddy().Apart(b)
    ensures b.Buddy().Buddy() == b
    ensures b.Buddy().Parent() == b.Parent()
    ensures b.Parent().off == if b.off < b.Buddy().off then b.off else b.Buddy().off
  {
    ParentPlaced(b);
    HalvesPlaced(b.Parent());
  }

  lemma SameStride(x: nat, y: nat, s: nat)
    requires s > 0 && x % s == 0 && y % s == 0
    ensures x == y || x + s <= y || y + s <= x
  {
    var m, n := x / s, y / s;
    assert x == m * s && y == n * s;
    if m < n {
      MultiplesApart(m, n, s);
    } else if n < m {
      MultiplesApart(n, m, s);
    }
  }

  /** Aligned blocks are laminar: two of them are apart or one lies inside the other. */
  lemma {:induction false} Laminar(p: Block, q: Block)
    requires p.Placed() && q.Placed() && p.order <= q.order
    ensures p.Apart(q) || p.Within(q)
    decreases q.order - p.order
  {
    if p.order == q.order {
      SameStride(p.off, q.off, Size(p.order));
    } else {
      ParentPlaced(p);
      Laminar(p.Parent(), q);
    }
  }

  /** Two blocks that share a byte and have the same order are the same block. */
  lemma SameOrderSameBlock(p: Block, q: Block)
    requires p.Placed() && q.Placed() && p.order == q.order && !p.Apart(q)
    ensures p == q
  {
    Laminar(p, q);
    Laminar(q, p);
  }
}
