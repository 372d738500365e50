/**
  The abstract state of the buddy allocator and its theory. `lists[k]` is the free list
  of order `k` as a sequence of offsets, front first; `live` is the set of blocks handed
  out and not yet freed.
 */
module BuddyModel {
  import opened BuddyGeometry
  import opened Sequences

  type Lists = seq<seq<nat>>

  // ---- tilings of the heap ----

  ghost predicate Covered(u: set<Block>, x: nat) {
    exists b :: b in u && b.Covers(x)
  }

  /** The blocks of `u` partition the heap. */
  ghost predicate Tiling(u: set<Block>) {
    && (forall b :: b in u ==> b.Placed())
    && (forall a, b :: a in u && b in u && a != b ==> a.Apart(b))
    && (forall x: nat :: x < HEAP_SIZE ==> Covered(u, x))
  }

  lemma HalvesCover(b: Block)
    requires b.Placed() && b.order > MIN_ORDER
    ensures forall x: nat :: b.Covers(x) <==> b.Left().Covers(x) || b.Right().Covers(x)
    ensures forall c: Block :: c.Apart(b) ==> c.Apart(b.Left()) && c.Apart(b.Right())
    ensures b.Left().Apart(b.Right()) && b.Left() != b.Right()
    ensures !b.Left().Apart(b) && !b.Right().Apart(b) && b.Left() != b && b.Right() != b
  {
  }

  /** A block that meets neither half of `b` does not meet `b`. */
  lemma ApartFromHalves(b: Block, c: Block)
    requires b.Placed() && b.order > MIN_ORDER && c.Placed()
    requires c.Apart(b.Left()) && c.Apart(b.Right())
    ensures c.Apart(b)
  {
    HalvesPlaced(b);
  }

  /** Every address of the split block lies in one of its halves. */
  lemma SplitCovers(u: set<Block>, b: Block)
    requires Tiling(u) && b in u && b.order > MIN_ORDER
    ensures forall x: nat :: x < HEAP_SIZE ==> Covered(u - {b} + {b.Left(), b.Right()}, x)
  {
    HalvesCover(b);
    var l, r := b.Left(), b.Right();
    var v := u - {b} + {l, r};
    assert l in v && r in v;
    forall x: nat | x < HEAP_SIZE
      ensures Covered(v, x)
    {
      assert Covered(u, x);
      var c :| c in u && c.Covers(x);
      assert c != b ==> c in v;
    }
  }

  lemma SplitKeepsTiling(u: set<Block>, b: Block)
    requires Tiling(u) && b in u && b.order > MIN_ORDER
    ensures b.Left() !in u && b.Right() !in u
    ensures Tiling(u - {b} + {b.Left(), b.Right()})
  {
    HalvesPlaced(b);
    HalvesCover(b);
    SplitCovers(u, b);
  }

  lemma MergeKeepsTiling(u: set<Block>, b: Block)
    requires Tiling(u) && b.order > MIN_ORDER && b.Placed() && b.Left() in u && b.Right() in u
    ensures b !in u
    ensures Tiling(u - {b.Left(), b.Right()} + {b})
  {
    HalvesCover(b);
    var l, r := b.Left(), b.Right();
    var v := u - {l, r} + {b};
    forall x: nat | x < HEAP_SIZE
      ensures Covered(v, x)
    {
      assert Covered(u, x);
      var c :| c in u && c.Covers(x);
      assert (if c == l || c == r then b else c) in v;
    }
    forall c | c in u && c != l && c != r
      ensures c.Apart(b) && b.Apart(c)
    {
      ApartFromHalves(b, c);
    }
  }

  // ---- well-formed allocator states ----

  /** The free blocks: the entries of all lists, tagged with their list's order. */
  ghost function FreeSet(lists: Lists): set<Block> {
    set k, o | 0 <= k < |lists| && o in lists[k] :: Block(k, o)
  }

  lemma FreeSetHas(lists: Lists, b: Block)
    ensures b in FreeSet(lists) <==> b.order < |lists| && b.off in lists[b.order]
  {
  }

  /** No block and its buddy are both free. */
  ghost predicate NoFreeBuddies(lists: Lists) {
    forall b: Block :: b in FreeSet(lists) && b.order < MAX_ORDER ==> b.Buddy() !in FreeSet(lists)
  }

  /** The state invariant of the allocator. */
  ghost predicate Wf(lists: Lists, live: set<Block>) {
    && |lists| == MAX_ORDER + 1
    && (forall k :: 0 <= k < |lists| ==> Distinct(lists[k]))
    && FreeSet(lists) !! live
    && Tiling(FreeSet(lists) + live)
    && NoFreeBuddies(lists)
  }

  // ---- the four elementary moves ----

  function PushAt(lists: Lists, k: nat, off: nat): Lists
    requires k < |lists|
  {
    lists[k := [off] + lists[k]]
  }

  function PopAt(lists: Lists, k: nat): Lists
    requires k < |lists| && lists[k] != []
  {
    lists[k := lists[k][1..]]
  }

  lemma PushFreeSet(lists: Lists, k: nat, off: nat)
    requires k < |lists|
    ensures FreeSet(PushAt(lists, k, off)) == FreeSet(lists) + {Block(k, off)}
  {
  }

  lemma RemoveFreeSet(lists: Lists, k: nat, off: nat)
    requires k < |lists| && off in lists[k] && Distinct(lists[k])
    ensures Distinct(Without(lists[k], off))
    ensures FreeSet(lists[k := Without(lists[k], off)]) == FreeSet(lists) - {Block(k, off)}
    ensures Block(k, off) in FreeSet(lists)
  {
    WithoutDistinct(lists[k], off);
    var after := lists[k := Without(lists[k], off)];
    FreeSetHas(lists, Block(k, off));
    forall b: Block
      ensures b in FreeSet(after) <==> b in FreeSet(lists) - {Block(k, off)}
    {
      FreeSetHas(lists, b);
      FreeSetHas(after, b);
    }
  }

  /** Taking the front of a free list and handing it out. */
  lemma PopKeepsWf(lists: Lists, live: set<Block>, k: nat)
    requires Wf(lists, live) && k <= MAX_ORDER && lists[k] != []
    ensures Block(k, lists[k][0]) in FreeSet(lists)
    ensures Wf(PopAt(lists, k), live + {Block(k, lists[k][0])})
  {
    var b := Block(k, lists[k][0]);
    RemoveFreeSet(lists, k, b.off);
    assert PopAt(lists, k) == lists[k := Without(lists[k], b.off)];
    assert FreeSet(lists) - {b} + (live + {b}) == FreeSet(lists) + live;
  }

  /** Putting a live block in front of its free list, when its buddy is not free. */
  lemma PushKeepsWf(lists: Lists, live: set<Block>, b: Block)
    requires Wf(lists, live) && b in live
    requires b.order < MAX_ORDER ==> b.Buddy() !in FreeSet(lists)
    ensures Wf(PushAt(lists, b.order, b.off), live - {b})
  {
    assert b in FreeSet(lists) + live;
    var after := PushAt(lists, b.order, b.off);
    PushFreeSet(lists, b.order, b.off);
    FreeSetHas(lists, b);
    assert FreeSet(after) + (live - {b}) == FreeSet(lists) + live;
    forall c: Block | c in FreeSet(after) && c.order < MAX_ORDER
      ensures c.Buddy() !in FreeSet(after)
    {
      assert c in FreeSet(lists) + live;
      BuddyPlaced(c);
    }
  }

  /** Replacing a live block by its live left half and its free right half. */
  lemma SplitKeepsWf(lists: Lists, live: set<Block>, b: Block)
    requires Wf(lists, live) && b in live && b.order > MIN_ORDER
    ensures Wf(PushAt(lists, b.order - 1, b.off + Size(b.order - 1)), live - {b} + {b.Left()})
    ensures b.Left() !in live
  {
    assert b in FreeSet(lists) + live;
    HalvesPlaced(b);
    SplitKeepsTiling(FreeSet(lists) + live, b);
    var both := PushAt(lists, b.order - 1, b.Right().off);
    PushFreeSet(lists, b.order - 1, b.Right().off);
    FreeSetHas(lists, b.Right());
    assert FreeSet(both) + (live - {b} + {b.Left()}) == FreeSet(lists) + live - {b} + {b.Left(), b.Right()};
    forall c: Block | c in FreeSet(both) && c.order < MAX_ORDER
      ensures c.Buddy() !in FreeSet(both)
    {
      assert c in FreeSet(lists) + live || c == b.Right();
      BuddyPlaced(c);
    }
  }

  /** Replacing a live block and its free buddy by their live parent. */
  lemma MergeKeepsWf(lists: Lists, live: set<Block>, b: Block)
    requires Wf(lists, live) && b in live && b.order < MAX_ORDER && b.Buddy().off in lists[b.order]
    ensures Wf(lists[b.order := Without(lists[b.order], b.Buddy().off)], live - {b} + {b.Parent()})
    ensures b.Parent() !in live && b.Placed() && b.Parent().Placed()
  {
    assert b in FreeSet(lists) + live;
    BuddyPlaced(b);
    ParentPlaced(b);
    ParentPlaced(b.Buddy());
    var p := b.Parent();
    var after := lists[b.order := Without(lists[b.order], b.Buddy().off)];
    RemoveFreeSet(lists, b.order, b.Buddy().off);
    assert {p.Left(), p.Right()} == {b, b.Buddy()};
    MergeKeepsTiling(FreeSet(lists) + live, p);
    assert FreeSet(after) + (live - {b} + {p}) == FreeSet(lists) + live - {p.Left(), p.Right()} + {p};
  }
}
