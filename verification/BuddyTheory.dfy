/**
  What the buddy allocator guarantees: its free set is a function of the live blocks,
  a request fails only when no aligned span is free, an allocation followed by the free of
  its block is the identity, and the block sizes always add up to the heap.
 */
module BuddyTheory {
  import opened BuddyGeometry
  import opened BuddyModel
  import opened Sequences

  // ---- canonical form ----

  /** No live block meets `b`. */
  ghost predicate Unused(live: set<Block>, b: Block) {
    forall a :: a in live ==> a.Apart(b)
  }

  /** `b` is an aligned unused block that cannot be doubled. */
  ghost predicate MaximalUnused(live: set<Block>, b: Block) {
    && b.Placed()
    && Unused(live, b)
    && (b.order < MAX_ORDER ==> !Unused(live, b.Parent()))
  }

  /** An aligned unused span always lies inside one single free block. */
  lemma {:induction false} UnusedSpanInOneFreeBlock(lists: Lists, live: set<Block>, b: Block) returns (f: Block)
    requires Wf(lists, live) && b.Placed() && Unused(live, b)
    ensures f in FreeSet(lists) && b.Within(f) && f.Placed() && b.order <= f.order
    decreases b.order
  {
    if b.order == MIN_ORDER {
      f := CoverOf(lists, live, b);
    } else {
      HalvesPlaced(b);
      HalvesCover(b);
      var l, r := b.Left(), b.Right();
      f := UnusedSpanInOneFreeBlock(lists, live, l);
      var g := UnusedSpanInOneFreeBlock(lists, live, r);
      if f.order >= b.order {
        LargerContains(b, f, l);
      } else if g.order >= b.order {
        LargerContains(b, g, r);
        f := g;
      } else {
        SameOrderSameBlock(l, f);
        SameOrderSameBlock(r, g);
        assert false;
      }
    }
  }

  lemma BlocksApart(lists: Lists, live: set<Block>, b: Block)
    requires Wf(lists, live) && b in FreeSet(lists) + live
    ensures b.Placed()
    ensures forall c :: c in FreeSet(lists) && c != b ==> c.Apart(b)
    ensures forall c :: c in live && c != b ==> c.Apart(b)
  {
    forall c | c in FreeSet(lists) && c != b
      ensures c.Apart(b)
    {
      assert c in FreeSet(lists) + live;
    }
    forall c | c in live && c != b
      ensures c.Apart(b)
    {
      assert c in FreeSet(lists) + live;
    }
  }

  /** The free block that covers the first byte of an unused block of least order. */
  lemma CoverOf(lists: Lists, live: set<Block>, b: Block) returns (f: Block)
    requires Wf(lists, live) && b.Placed() && Unused(live, b) && b.order == MIN_ORDER
    ensures f in FreeSet(lists) && b.Within(f) && f.Placed() && b.order <= f.order
  {
    assert Covered(FreeSet(lists) + live, b.off);
    f :| f in FreeSet(lists) + live && f.Covers(b.off);
    Laminar(b, f);
  }

  lemma LargerContains(b: Block, f: Block, h: Block)
    requires b.Placed() && f.Placed() && b.order <= f.order
    requires h.Within(f) && h.Within(b)
    ensures b.Within(f)
  {
    Laminar(b, f);
  }

  /** The free blocks are exactly the maximal aligned blocks that no live block meets. */
  lemma CanonicalForm(lists: Lists, live: set<Block>)
    requires Wf(lists, live)
    ensures forall b: Block :: b in FreeSet(lists) <==> MaximalUnused(live, b)
  {
    forall b: Block
      ensures b in FreeSet(lists) <==> MaximalUnused(live, b)
    {
      if b in FreeSet(lists) {
        FreeIsMaximal(lists, live, b);
      }
      if MaximalUnused(live, b) {
        MaximalIsFree(lists, live, b);
      }
    }
  }

  lemma FreeIsMaximal(lists: Lists, live: set<Block>, b: Block)
    requires Wf(lists, live) && b in FreeSet(lists)
    ensures MaximalUnused(live, b)
  {
    BlocksApart(lists, live, b);
    if b.order < MAX_ORDER && Unused(live, b.Parent()) {
      ParentPlaced(b);
      var f := UnusedSpanInOneFreeBlock(lists, live, b.Parent());
      assert false;
    }
  }

  lemma MaximalIsFree(lists: Lists, live: set<Block>, b: Block)
    requires Wf(lists, live) && MaximalUnused(live, b)
    ensures b in FreeSet(lists)
  {
    var f := UnusedSpanInOneFreeBlock(lists, live, b);
    if f.order == b.order {
      SameOrderSameBlock(b, f);
    } else {
      ParentPlaced(b);
      LargerContains(b.Parent(), f, b);
      FreeIsMaximal(lists, live, f);
    }
  }

  /** Two states with the same live blocks have the same free blocks. */
  lemma FreeSetIsFunctionOfLive(lists: Lists, lists': Lists, live: set<Block>)
    requires Wf(lists, live) && Wf(lists', live)
    ensures FreeSet(lists) == FreeSet(lists')
  {
    CanonicalForm(lists, live);
    CanonicalForm(lists', live);
  }

  /** With nothing live, the free lists hold the whole heap as one block of the top order. */
  lemma NothingLiveOneBlock(lists: Lists)
    requires Wf(lists, {})
    ensures FreeSet(lists) == {WHOLE_HEAP}
    ensures lists == InitialLists()
  {
    WholeHeapPlaced();
    CanonicalForm(lists, {});
    assert MaximalUnused({}, WHOLE_HEAP);
    BlocksApart(lists, {}, WHOLE_HEAP);
    forall b | b in FreeSet(lists)
      ensures b == WHOLE_HEAP
    {
      BlocksApart(lists, {}, b);
    }
    forall k | 0 <= k <= MAX_ORDER
      ensures lists[k] == InitialLists()[k]
    {
      forall o | o in lists[k]
        ensures k == MAX_ORDER && o == 0
      {
        FreeSetHas(lists, Block(k, o));
      }
      FreeSetHas(lists, WHOLE_HEAP);
      OnlyZero(lists[k]);
      if k < MAX_ORDER && lists[k] != [] {
        assert lists[k][0] in lists[k];
      }
    }
  }

  lemma OnlyZero(s: seq<nat>)
    requires Distinct(s) && forall o :: o in s ==> o == 0
    ensures s == [] || s == [0]
  {
    forall i | 0 <= i < |s|
      ensures s[i] == 0 && i == 0
    {
      assert s[i] in s && s[0] in s;
    }
    if s != [] {
      assert s[|s| - 1] == 0;
    }
  }

  // ---- initial state ----

  function InitialLists(): Lists {
    seq(MAX_ORDER + 1, k => if k == MAX_ORDER then [0] else [])
  }

  lemma InitialWf()
    ensures Wf(InitialLists(), {})
  {
    WholeHeapPlaced();
    var lists := InitialLists();
    forall b: Block
      ensures b in FreeSet(lists) <==> b == WHOLE_HEAP
    {
      FreeSetHas(lists, b);
    }
    forall x: nat | x < HEAP_SIZE
      ensures Covered(FreeSet(lists) + {}, x)
    {
      assert WHOLE_HEAP in FreeSet(lists) + {} && WHOLE_HEAP.Covers(x);
    }
  }

  // ---- allocation ----

  /** The least order from `k` up whose list is not empty; MAX_ORDER + 1 if there is none. */
  function Fit(lists: Lists, k: nat): (j: nat)
    requires |lists| == MAX_ORDER + 1 && k <= MAX_ORDER + 1
    ensures k <= j <= MAX_ORDER + 1
    ensures j <= MAX_ORDER ==> lists[j] != []
    ensures forall i :: k <= i < j ==> lists[i] == []
    decreases MAX_ORDER + 1 - k
  {
    if k == MAX_ORDER + 1 || lists[k] != [] then k else Fit(lists, k + 1)
  }

  /**
    The lists after a request of order `k` is served: the front of the first list with a
    block is taken, and every order skipped on the way gets the one block split off there.
   */
  function AfterAlloc(lists: Lists, k: nat): (after: Lists)
    requires |lists| == MAX_ORDER + 1 && k <= MAX_ORDER && Fit(lists, k) <= MAX_ORDER
    ensures |after| == MAX_ORDER + 1
  {
    var j := Fit(lists, k);
    var off := lists[j][0];
    seq(MAX_ORDER + 1, i requires 0 <= i <= MAX_ORDER =>
      if i == j then lists[j][1..] else if k <= i < j then [off + Size(i)] else lists[i])
  }

  /** Serving order `k` is serving order `k + 1` and splitting the result. */
  lemma AllocBySplit(lists: Lists, k: nat)
    requires |lists| == MAX_ORDER + 1 && k < MAX_ORDER && lists[k] == [] && Fit(lists, k) <= MAX_ORDER
    ensures Fit(lists, k) == Fit(lists, k + 1)
    ensures AfterAlloc(lists, k) == PushAt(AfterAlloc(lists, k + 1), k, lists[Fit(lists, k)][0] + Size(k))
    ensures AfterAlloc(lists, k + 1)[k] == []
  {
    var off := lists[Fit(lists, k)][0];
    assert AfterAlloc(lists, k)[k] == [off + Size(k)];
    assert AfterAlloc(lists, k) == AfterAlloc(lists, k + 1)[k := [off + Size(k)]];
    assert [off + Size(k)] + [] == [off + Size(k)];
  }

  lemma {:induction false} AllocKeepsWf(lists: Lists, live: set<Block>, k: nat)
    requires Wf(lists, live) && MIN_ORDER <= k <= MAX_ORDER && Fit(lists, k) <= MAX_ORDER
    ensures var b := Block(k, lists[Fit(lists, k)][0]);
            b !in live && b.Placed() && Wf(AfterAlloc(lists, k), live + {b})
    decreases MAX_ORDER - k
  {
    if lists[k] != [] {
      PopIsAlloc(lists, k);
      PopNewBlock(lists, live, k);
    } else {
      AllocKeepsWf(lists, live, k + 1);
      AllocBySplit(lists, k);
      SplitNewBlock(AfterAlloc(lists, k + 1), live, Block(k + 1, lists[Fit(lists, k)][0]));
    }
  }

  lemma PopNewBlock(lists: Lists, live: set<Block>, k: nat)
    requires Wf(lists, live) && k <= MAX_ORDER && lists[k] != []
    ensures var b := Block(k, lists[k][0]); b !in live && b.Placed() && Wf(PopAt(lists, k), live + {b})
  {
    PopKeepsWf(lists, live, k);
    BlocksApart(lists, live, Block(k, lists[k][0]));
  }

  lemma SplitNewBlock(lists: Lists, live: set<Block>, big: Block)
    requires big !in live && Wf(lists, live + {big}) && big.order > MIN_ORDER
    ensures big.Left() !in live && big.Left().Placed()
    ensures Wf(PushAt(lists, big.order - 1, big.off + Size(big.order - 1)), live + {big.Left()})
  {
    BlocksApart(lists, live + {big}, big);
    HalvesPlaced(big);
    SplitKeepsWf(lists, live + {big}, big);
    assert live + {big} - {big} + {big.Left()} == live + {big.Left()};
  }

  /** A request finds no block if and only if every aligned span of its order is in use. */
  lemma FailsIffNoSpan(lists: Lists, live: set<Block>, k: nat)
    requires Wf(lists, live) && MIN_ORDER <= k <= MAX_ORDER
    ensures Fit(lists, k) > MAX_ORDER <==> forall b: Block :: b.Placed() && b.order == k ==> !Unused(live, b)
  {
    var j := Fit(lists, k);
    if j <= MAX_ORDER {
      AllocKeepsWf(lists, live, k);
      var b := Block(k, lists[j][0]);
      forall a | a in live
        ensures a.Apart(b)
      {
        assert a in FreeSet(AfterAlloc(lists, k)) + (live + {b});
        assert b in FreeSet(AfterAlloc(lists, k)) + (live + {b});
      }
      assert Unused(live, b);
    } else {
      forall b: Block | b.Placed() && b.order == k
        ensures !Unused(live, b)
      {
        if Unused(live, b) {
          var f := UnusedSpanInOneFreeBlock(lists, live, b);
          FreeSetHas(lists, f);
        }
      }
    }
  }

  // ---- freeing ----

  /** The lists after the block of order `k` at `off` is freed and coalesced upwards. */
  function AfterFree(lists: Lists, k: nat, off: nat): (after: Lists)
    requires |lists| == MAX_ORDER + 1 && k <= MAX_ORDER
    ensures |after| == MAX_ORDER + 1
    decreases MAX_ORDER - k
  {
    var buddy := BuddyOf(off, k);
    if k < MAX_ORDER && buddy in lists[k] then
      AfterFree(lists[k := Without(lists[k], buddy)], k + 1, if off < buddy then off else buddy)
    else
      PushAt(lists, k, off)
  }

  lemma FreeStep(lists: Lists, k: nat, off: nat)
    requires |lists| == MAX_ORDER + 1 && k < MAX_ORDER && BuddyOf(off, k) in lists[k]
    ensures var buddy := BuddyOf(off, k);
            AfterFree(lists, k, off) ==
            AfterFree(lists[k := Without(lists[k], buddy)], k + 1, if off < buddy then off else buddy)
  {
  }

  lemma {:induction false} FreeKeepsWf(lists: Lists, live: set<Block>, b: Block)
    requires Wf(lists, live) && b in live
    ensures b.Placed() && Wf(AfterFree(lists, b.order, b.off), live - {b})
    decreases MAX_ORDER - b.order
  {
    assert b in FreeSet(lists) + live;
    FreeSetHas(lists, b.Buddy());
    if b.order < MAX_ORDER && b.Buddy().off in lists[b.order] {
      var p := b.Parent();
      FreeMerges(lists, live, b);
      FreeKeepsWf(lists[b.order := Without(lists[b.order], b.Buddy().off)], live - {b} + {p}, p);
    } else {
      FreeWithoutMerge(lists, b.order, b.off);
      PushKeepsWf(lists, live, b);
    }
  }

  /** One round of coalescing leaves the parent to be freed. */
  lemma FreeMerges(lists: Lists, live: set<Block>, b: Block)
    requires Wf(lists, live) && b in live && b.order < MAX_ORDER && b.Buddy().off in lists[b.order]
    ensures var u, p := lists[b.order := Without(lists[b.order], b.Buddy().off)], b.Parent();
            && Wf(u, live - {b} + {p}) && live - {b} + {p} - {p} == live - {b}
            && AfterFree(lists, b.order, b.off) == AfterFree(u, p.order, p.off)
  {
    assert b in FreeSet(lists) + live;
    BuddyPlaced(b);
    FreeStep(lists, b.order, b.off);
    MergeKeepsWf(lists, live, b);
  }

  /** Freeing the block just allocated restores every list, order of entries included. */
  lemma {:induction false} FreeUndoesAlloc(lists: Lists, live: set<Block>, k: nat)
    requires Wf(lists, live) && MIN_ORDER <= k <= MAX_ORDER && Fit(lists, k) <= MAX_ORDER
    ensures AfterFree(AfterAlloc(lists, k), k, lists[Fit(lists, k)][0]) == lists
    decreases MAX_ORDER - k
  {
    if lists[k] != [] {
      BuddyNotListed(lists, live, Block(k, lists[k][0]));
      PopThenPush(lists, k);
    } else {
      var off := lists[Fit(lists, k)][0];
      SplitBuddy(lists, live, k);
      AllocBySplit(lists, k);
      FreeUndoesAlloc(lists, live, k + 1);
      FreeMergesSplit(AfterAlloc(lists, k + 1), k, off);
    }
  }

  lemma SplitBuddy(lists: Lists, live: set<Block>, k: nat)
    requires Wf(lists, live) && MIN_ORDER <= k <= MAX_ORDER && lists[k] == [] && Fit(lists, k) <= MAX_ORDER
    ensures k < MAX_ORDER
    ensures BuddyOf(lists[Fit(lists, k)][0], k) == lists[Fit(lists, k)][0] + Size(k)
  {
    AllocKeepsWf(lists, live, k + 1);
    HalvesPlaced(Block(k + 1, lists[Fit(lists, k)][0]));
  }

  lemma PopThenPush(lists: Lists, k: nat)
    requires |lists| == MAX_ORDER + 1 && k <= MAX_ORDER && lists[k] != []
    requires k < MAX_ORDER ==> BuddyOf(lists[k][0], k) !in lists[k]
    ensures AfterFree(AfterAlloc(lists, k), k, lists[k][0]) == lists
  {
    PopIsAlloc(lists, k);
    FreeWithoutMerge(PopAt(lists, k), k, lists[k][0]);
    assert [lists[k][0]] + lists[k][1..] == lists[k];
    assert PushAt(PopAt(lists, k), k, lists[k][0]) == lists;
  }

  lemma BuddyNotListed(lists: Lists, live: set<Block>, b: Block)
    requires Wf(lists, live) && b.order < MAX_ORDER + 1 && b.off in lists[b.order]
    ensures b.order < MAX_ORDER ==> BuddyOf(b.off, b.order) !in lists[b.order]
  {
    FreeSetHas(lists, b);
    FreeSetHas(lists, b.Buddy());
  }

  lemma FreeWithoutMerge(lists: Lists, k: nat, off: nat)
    requires |lists| == MAX_ORDER + 1 && k <= MAX_ORDER
    requires k < MAX_ORDER ==> BuddyOf(off, k) !in lists[k]
    ensures AfterFree(lists, k, off) == PushAt(lists, k, off)
  {
  }

  lemma PopIsAlloc(lists: Lists, k: nat)
    requires |lists| == MAX_ORDER + 1 && k <= MAX_ORDER && lists[k] != []
    ensures AfterAlloc(lists, k) == PopAt(lists, k)
  {
  }

  /** Freeing a left half whose right half is alone in its list merges the two. */
  lemma FreeMergesSplit(lists: Lists, k: nat, off: nat)
    requires |lists| == MAX_ORDER + 1 && k < MAX_ORDER && lists[k] == []
    requires BuddyOf(off, k) == off + Size(k)
    ensures AfterFree(PushAt(lists, k, off + Size(k)), k, off) == AfterFree(lists, k + 1, off)
  {
    var split := PushAt(lists, k, off + Size(k));
    assert split[k] == [off + Size(k)];
    assert split[k := Without(split[k], off + Size(k))] == lists;
    FreeStep(split, k, off);
  }

  // ---- conservation of bytes ----

  ghost function Bytes(u: set<Block>): nat {
    if u == {} then 0 else var b :| b in u; Size(b.order) + Bytes(u - {b})
  }

  lemma {:induction false} BytesAdd(u: set<Block>, b: Block)
    requires b in u
    ensures Bytes(u) == Size(b.order) + Bytes(u - {b})
  {
    var c :| c in u && Bytes(u) == Size(c.order) + Bytes(u - {c});
    if c != b {
      BytesAdd(u - {c}, b);
      BytesAdd(u - {b}, c);
      assert u - {c} - {b} == u - {b} - {c};
    }
  }

  lemma {:induction false} BytesUnion(u: set<Block>, v: set<Block>)
    requires u !! v
    ensures Bytes(u + v) == Bytes(u) + Bytes(v)
  {
    if u == {} {
      assert u + v == v;
    } else {
      var b :| b in u;
      BytesUnion(u - {b}, v);
      BytesAdd(u, b);
      BytesAdd(u + v, b);
      assert u + v - {b} == u - {b} + v;
    }
  }

  ghost function Inside(u: set<Block>, b: Block): set<Block> {
    set c | c in u && c.Within(b)
  }

  /** The blocks of a tiling inside an aligned span that no larger block contains fill it. */
  lemma {:induction false} TilingFills(u: set<Block>, b: Block)
    requires Tiling(u) && b.Placed()
    requires forall c :: c in u && b.Within(c) ==> c == b
    ensures Bytes(Inside(u, b)) == Size(b.order)
    decreases b.order
  {
    if b in u {
      assert forall c :: c in u && c.Within(b) ==> c == b by {
        assert forall c: Block :: Size(c.order) > 0;
      }
      assert Inside(u, b) == {b};
      BytesAdd({b}, b);
      assert {b} - {b} == {};
    } else if b.order == MIN_ORDER {
      assert Covered(u, b.off);
      var c :| c in u && c.Covers(b.off);
      Laminar(b, c);
      assert false;
    } else {
      HalvesPlaced(b);
      SizeDoubles(b.order - 1);
      HalvesUncontained(u, b);
      TilingFills(u, b.Left());
      TilingFills(u, b.Right());
      InsideHalves(u, b);
      BytesUnion(Inside(u, b.Left()), Inside(u, b.Right()));
    }
  }

  lemma HalvesUncontained(u: set<Block>, b: Block)
    requires Tiling(u) && b.Placed() && b.order > MIN_ORDER
    requires forall c :: c in u && b.Within(c) ==> c == b
    requires b !in u
    ensures forall c :: c in u && b.Left().Within(c) ==> c == b.Left()
    ensures forall c :: c in u && b.Right().Within(c) ==> c == b.Right()
  {
    HalvesPlaced(b);
    HalvesCover(b);
    forall c, h | c in u && h in {b.Left(), b.Right()} && h.Within(c)
      ensures c == h
    {
      if c.order >= b.order {
        LargerContains(b, c, h);
      } else {
        Laminar(c, h);
        if c.order == h.order {
          SameOrderSameBlock(c, h);
        } else {
          SizeMonotone(c.order, h.order);
        }
      }
    }
  }

  lemma InsideHalves(u: set<Block>, b: Block)
    requires Tiling(u) && b.Placed() && b.order > MIN_ORDER && b !in u
    ensures Inside(u, b) == Inside(u, b.Left()) + Inside(u, b.Right())
    ensures Inside(u, b.Left()) !! Inside(u, b.Right())
  {
    HalvesPlaced(b);
    var l, r := b.Left(), b.Right();
    forall c | c in u
      ensures c.Within(b) <==> c.Within(l) || c.Within(r)
      ensures !(c.Within(l) && c.Within(r))
    {
      assert Size(c.order) > 0;
      if c.Within(b) {
        if c.order >= b.order {
          Laminar(b, c);
          assert b.Within(c);
          SizeMonotone(b.order, c.order);
          assert false;
        } else {
          Laminar(c, l);
          Laminar(c, r);
        }
      }
    }
  }

  /** Free bytes and live bytes always add up to the heap. */
  lemma BytesConserved(lists: Lists, live: set<Block>)
    requires Wf(lists, live)
    ensures Bytes(FreeSet(lists)) + Bytes(live) == HEAP_SIZE
  {
    var u := FreeSet(lists) + live;
    WholeHeapPlaced();
    forall c | c in u && WHOLE_HEAP.Within(c)
      ensures c == WHOLE_HEAP
    {
      SizeMonotone(c.order, MAX_ORDER);
    }
    TilingFills(u, WHOLE_HEAP);
    assert Inside(u, WHOLE_HEAP) == u;
    BytesUnion(FreeSet(lists), live);
  }

  // ---- counting bytes list by list ----

  ghost function Times(n: nat, s: nat): nat {
    if n == 0 then 0 else s + Times(n - 1, s)
  }

  /** The bytes in the first `n` free lists. */
  ghost function ListBytes(lists: Lists, n: nat): nat
    requires n <= |lists|
  {
    if n == 0 then 0 else ListBytes(lists, n - 1) + Times(|lists[n - 1]|, Size(n - 1))
  }

  ghost function ListBlocks(k: nat, s: seq<nat>): (u: set<Block>)
    ensures forall b: Block :: b in u <==> b.order == k && b.off in s
  {
    set o | o in s :: Block(k, o)
  }

  lemma {:induction false} OneListBytes(k: nat, s: seq<nat>)
    requires Distinct(s)
    ensures Bytes(ListBlocks(k, s)) == Times(|s|, Size(k))
  {
    if s != [] {
      OneListBytes(k, s[1..]);
      var first := Block(k, s[0]);
      BytesAdd(ListBlocks(k, s), first);
      ListBlocksTail(k, s);
    } else {
      assert ListBlocks(k, s) == {};
    }
  }

  lemma ListBlocksTail(k: nat, s: seq<nat>)
    requires Distinct(s) && s != []
    ensures ListBlocks(k, s) - {Block(k, s[0])} == ListBlocks(k, s[1..])
  {
  }

  lemma {:induction false} ListBytesPrefix(lists: Lists, n: nat)
    requires n <= |lists| && forall k :: 0 <= k < |lists| ==> Distinct(lists[k])
    ensures ListBytes(lists, n) == Bytes(FreeSet(lists[..n]))
  {
    if n == 0 {
      assert FreeSet(lists[..0]) == {};
    } else {
      ListBytesPrefix(lists, n - 1);
      OneListBytes(n - 1, lists[n - 1]);
      var last := ListBlocks(n - 1, lists[n - 1]);
      var before := FreeSet(lists[..n - 1]);
      forall b: Block
        ensures b in FreeSet(lists[..n]) <==> b in before + last
        ensures b in before ==> b.order < n - 1
      {
        FreeSetHas(lists[..n], b);
        FreeSetHas(lists[..n - 1], b);
      }
      BytesUnion(before, last);
      assert FreeSet(lists[..n]) == before + last;
    }
  }

  /** What the lists do not hold is exactly what the live blocks take. */
  lemma ReservedIsLive(lists: Lists, live: set<Block>)
    requires Wf(lists, live)
    ensures ListBytes(lists, |lists|) <= HEAP_SIZE
    ensures HEAP_SIZE - ListBytes(lists, |lists|) == Bytes(live)
  {
    ListBytesPrefix(lists, |lists|);
    assert lists[..|lists|] == lists;
    BytesConserved(lists, live);
  }

  // ---- whole histories ----

  datatype Op = Alloc(order: nat) | Free(block: Block)

  datatype HeapState = HeapState(lists: Lists, live: set<Block>)

  ghost predicate Good(s: HeapState) {
    Wf(s.lists, s.live)
  }

  /** One call: an allocation of some order, or the free of a block (ignored unless live). */
  ghost function Step(s: HeapState, op: Op): HeapState
    requires Good(s)
  {
    match op
    case Alloc(k) =>
      if MIN_ORDER <= k <= MAX_ORDER && Fit(s.lists, k) <= MAX_ORDER then
        HeapState(AfterAlloc(s.lists, k), s.live + {Block(k, s.lists[Fit(s.lists, k)][0])})
      else
        s
    case Free(b) =>
      if b in s.live then
        assert b in FreeSet(s.lists) + s.live;
        HeapState(AfterFree(s.lists, b.order, b.off), s.live - {b})
      else
        s
  }

  lemma StepKeepsGood(s: HeapState, op: Op)
    requires Good(s)
    ensures Good(Step(s, op))
  {
    match op
    case Alloc(k) =>
      if MIN_ORDER <= k <= MAX_ORDER && Fit(s.lists, k) <= MAX_ORDER {
        AllocKeepsWf(s.lists, s.live, k);
      }
    case Free(b) =>
      if b in s.live {
        FreeKeepsWf(s.lists, s.live, b);
      }
  }

  /** `s` is reached from the initial heap by the calls in `ops`. */
  ghost predicate Reaches(ops: seq<Op>, s: HeapState)
    decreases |ops|
  {
    if ops == [] then
      s == HeapState(InitialLists(), {})
    else
      exists p :: Reaches(ops[..|ops| - 1], p) && Good(p) && s == Step(p, ops[|ops| - 1])
  }

  lemma {:induction false} ReachableIsGood(ops: seq<Op>, s: HeapState)
    requires Reaches(ops, s)
    ensures Good(s)
  {
    if ops == [] {
      InitialWf();
    } else {
      var p :| Reaches(ops[..|ops| - 1], p) && Good(p) && s == Step(p, ops[|ops| - 1]);
      StepKeepsGood(p, ops[|ops| - 1]);
    }
  }

  /** Histories that leave the same blocks live leave the same blocks free. */
  lemma HistoryDoesNotMatter(ops: seq<Op>, s: HeapState, ops': seq<Op>, s': HeapState)
    requires Reaches(ops, s) && Reaches(ops', s') && s.live == s'.live
    ensures FreeSet(s.lists) == FreeSet(s'.lists)
    ensures s.live == {} ==> s.lists == InitialLists()
  {
    ReachableIsGood(ops, s);
    ReachableIsGood(ops', s');
    FreeSetIsFunctionOfLive(s.lists, s'.lists, s.live);
    if s.live == {} {
      NothingLiveOneBlock(s.lists);
    }
  }
}
