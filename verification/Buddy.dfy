/**
  The buddy allocator itself: free lists threaded through headers that sit in the managed
  memory, rewired in place. `lists` and `live` give the abstract state.
 */
module Buddy {
  import opened Basics
  import opened BuddyGeometry
  import opened BuddyModel
  import opened Sequences
  import opened BuddyTheory

  const HEADER_SIZE: nat := 16

  // The manager's own record: two addresses and the heads of the free lists.
  const MANAGER_SIZE: nat := 8 * (2 + MAX_ORDER + 1)

  datatype Ptr = Null | At(off: nat)

  datatype Header = Header(next: Ptr, order: nat, isFree: bool)

  datatype MemInfo = MemInfo(total: nat, free: nat, reserved: nat)

  /** The header size is added in 64-bit arithmetic; then the least order that is big enough. */
  method GetOrder(size: nat) returns (order: nat)
    requires size < WORDS
    ensures MIN_ORDER <= order <= MAX_ORDER + 1
    ensures order <= MAX_ORDER ==> (size + HEADER_SIZE) % WORDS <= Size(order)
    ensures forall k :: MIN_ORDER <= k < order ==> Size(k) < (size + HEADER_SIZE) % WORDS
  {
    var n := (size + HEADER_SIZE) % WORDS;
    order := MIN_ORDER;
    while order <= MAX_ORDER && Size(order) < n
      invariant MIN_ORDER <= order <= MAX_ORDER + 1
      invariant forall k :: MIN_ORDER <= k < order ==> Size(k) < n
    {
      order := order + 1;
    }
  }

  /**
    The block of the order chosen for `size` holds the payload and the header, unless adding
    the header wrapped around; and it is less than twice that, unless it is the least block.
   */
  lemma OrderFits(size: nat, order: nat)
    requires 0 < size < WORDS && MIN_ORDER <= order <= MAX_ORDER
    requires (size + HEADER_SIZE) % WORDS <= Size(order)
    requires forall k :: MIN_ORDER <= k < order ==> Size(k) < (size + HEADER_SIZE) % WORDS
    ensures size + HEADER_SIZE <= Size(order) <==> size + HEADER_SIZE < WORDS
    ensures size + HEADER_SIZE < WORDS && order > MIN_ORDER ==> Size(order) < 2 * (size + HEADER_SIZE)
  {
    WholeHeapPlaced();
    SizeMonotone(order, MAX_ORDER);
    if order > MIN_ORDER {
      SizeDoubles(order - 1);
    }
  }

  /** Every block of the state has a header offset of its own, inside the heap. */
  lemma OneHeaderPerBlock(lists: Lists, live: set<Block>, b: Block)
    requires Wf(lists, live) && b in FreeSet(lists) + live
    ensures b.Placed() && b.off < HEAP_SIZE
    ensures forall k, i :: 0 <= k < |lists| && 0 <= i < |lists[k]| && lists[k][i] == b.off ==>
              k == b.order && b in FreeSet(lists)
    ensures forall c :: c in live && c.off == b.off ==> c == b
  {
    BlocksApart(lists, live, b);
    assert Size(b.order) > 0;
    forall k, i | 0 <= k < |lists| && 0 <= i < |lists[k]| && lists[k][i] == b.off
      ensures k == b.order && b in FreeSet(lists)
    {
      var c := Block(k, lists[k][i]);
      FreeSetHas(lists, c);
      assert Size(c.order) > 0;
    }
    forall c | c in live && c.off == b.off
      ensures c == b
    {
      assert Size(c.order) > 0;
    }
  }

  /**
    No header reaches into a live block: the HEADER_SIZE bytes of every other block's header lie wholly
    before it or after it, and behind its own header there is room for a payload.
   */
  lemma HeadersOutsidePayloads(lists: Lists, live: set<Block>, b: Block)
    requires Wf(lists, live) && b in live
    ensures b.off + HEADER_SIZE < b.End()
    ensures forall c :: c in FreeSet(lists) + live && c != b ==> c.off + HEADER_SIZE <= b.off || b.End() <= c.off
  {
    BlocksApart(lists, live, b);
    HeaderFits(b);
    forall c | c in FreeSet(lists) + live && c != b
      ensures c.off + HEADER_SIZE <= b.off || b.End() <= c.off
    {
      BlocksApart(lists, live, c);
      HeaderFits(c);
    }
  }

  lemma HeaderFits(b: Block)
    requires b.Placed()
    ensures b.off + HEADER_SIZE < b.End()
  {
    SizeMonotone(MIN_ORDER, b.order);
  }

  /** `off` is not the offset of any listed block, except possibly the front of list `k`. */
  ghost predicate OnlyInFront(lists: Lists, k: nat, off: nat) {
    forall j, i :: 0 <= j < |lists| && 0 <= i < |lists[j]| && (j != k || i > 0) ==> lists[j][i] != off
  }

  lemma FrontIsOnce(lists: Lists, live: set<Block>, k: nat)
    requires Wf(lists, live) && k <= MAX_ORDER && lists[k] != []
    ensures OnlyInFront(lists, k, lists[k][0])
    ensures lists[k][0] < HEAP_SIZE
    ensures forall c :: c in live ==> c.off != lists[k][0]
  {
    var b := Block(k, lists[k][0]);
    FreeSetHas(lists, b);
    OneHeaderPerBlock(lists, live, b);
  }

  lemma LiveNotListed(lists: Lists, live: set<Block>, b: Block)
    requires Wf(lists, live) && b in live
    ensures forall j, i :: 0 <= j < |lists| && 0 <= i < |lists[j]| ==> lists[j][i] != b.off
    ensures forall c :: c in live && c != b ==> c.off != b.off
    ensures b.off < HEAP_SIZE
  {
    OneHeaderPerBlock(lists, live, b);
  }

  lemma InteriorNotListed(lists: Lists, live: set<Block>, b: Block, o: nat)
    requires Wf(lists, live) && b in live && b.off < o < b.End()
    ensures forall j, i :: 0 <= j < |lists| && 0 <= i < |lists[j]| ==> lists[j][i] != o
    ensures forall c :: c in live ==> c.off != o
    ensures o < HEAP_SIZE
  {
    BlocksApart(lists, live, b);
    assert forall c: Block :: Size(c.order) > 0;
    forall j, i | 0 <= j < |lists| && 0 <= i < |lists[j]|
      ensures lists[j][i] != o
    {
      FreeSetHas(lists, Block(j, lists[j][i]));
      assert Block(j, lists[j][i]) != b;
    }
  }

  /** The offset at place `m` of list `k` is listed nowhere else. */
  ghost predicate ListedOnlyAt(lists: Lists, k: nat, m: nat)
    requires k < |lists| && m < |lists[k]|
  {
    forall j, i :: 0 <= j < |lists| && 0 <= i < |lists[j]| && (j != k || i != m) ==> lists[j][i] != lists[k][m]
  }

  lemma ListedOnce(lists: Lists, live: set<Block>, k: nat, m: nat)
    requires Wf(lists, live) && k <= MAX_ORDER && m < |lists[k]|
    ensures ListedOnlyAt(lists, k, m)
    ensures forall c :: c in live ==> c.off != lists[k][m]
    ensures Distinct(lists[k])
  {
    FreeSetHas(lists, Block(k, lists[k][m]));
    OneHeaderPerBlock(lists, live, Block(k, lists[k][m]));
  }

  lemma WithoutShifts(s: seq<nat>, at: nat)
    requires at < |s| && Distinct(s)
    ensures |Without(s, s[at])| == |s| - 1
    ensures forall i :: 0 <= i < |s| - 1 ==> Without(s, s[at])[i] == s[if i < at then i else i + 1]
  {
    assert s[at] !in s[..at];
    WithoutAt(s, at);
  }

  /** The range check on the buddy in the coalescing loop always passes. */
  lemma BuddyInHeap(lists: Lists, live: set<Block>, b: Block)
    requires Wf(lists, live) && b in live && b.order < MAX_ORDER
    ensures b.Buddy().off < HEAP_SIZE
    ensures b.Parent().off == if b.off < b.Buddy().off then b.off else b.Buddy().off
    ensures b.Placed()
  {
    assert b in FreeSet(lists) + live;
    BuddyPlaced(b);
    assert Size(b.order) > 0;
  }

  lemma FreeStops(lists: Lists, live: set<Block>, b: Block)
    requires Wf(lists, live) && b in live && b.order <= MAX_ORDER
    requires b.order < MAX_ORDER ==> BuddyOf(b.off, b.order) !in lists[b.order]
    ensures AfterFree(lists, b.order, b.off) == PushAt(lists, b.order, b.off)
    ensures Wf(PushAt(lists, b.order, b.off), live - {b})
    ensures forall c :: c in live && c != b ==> c.off != b.off
  {
    FreeSetHas(lists, b.Buddy());
    PushKeepsWf(lists, live, b);
    FreeWithoutMerge(lists, b.order, b.off);
    LiveNotListed(lists, live, b);
  }

  lemma NewBlockUnused(lists: Lists, before: set<Block>, b: Block)
    requires Wf(lists, before + {b}) && b !in before
    ensures b.Placed() && Unused(before, b)
  {
  }

  lemma AllocIsNew(lists: Lists, live: set<Block>, k: nat)
    requires Wf(lists, live) && MIN_ORDER <= k <= MAX_ORDER && Fit(lists, k) <= MAX_ORDER
    ensures Block(k, lists[Fit(lists, k)][0]) !in live
  {
    AllocKeepsWf(lists, live, k);
  }

  lemma FitSkips(lists: Lists, k: nat)
    requires |lists| == MAX_ORDER + 1 && k <= MAX_ORDER && lists[k] == []
    ensures Fit(lists, k) == Fit(lists, k + 1)
  {
  }

  lemma SplitOffsets(lists: Lists, live: set<Block>, b: Block)
    requires Wf(lists, live) && b in live && b.order > MIN_ORDER
    ensures b.off < b.Right().off < b.End() && b.Right().off < HEAP_SIZE
    ensures forall c :: c in live && c != b ==> c.off != b.Right().off && c.off != b.off
  {
  }

  class BuddyHeap {
    const base: nat
    var freeLists: array<Ptr>
    var hdr: array<Header>

    ghost var lists: Lists
    ghost var live: set<Block>

    ghost predicate Shape()
      reads this
    {
      && base > 0
      && freeLists.Length == MAX_ORDER + 1
      && hdr.Length == HEAP_SIZE
      && Wf(lists, live)
    }

    /** The list of order `k` is threaded through the headers of exactly the blocks at `s`, in order. */
    ghost predicate Threaded(k: nat, s: seq<nat>)
      requires freeLists.Length == MAX_ORDER + 1 && hdr.Length == HEAP_SIZE && k <= MAX_ORDER
      reads this`freeLists, this`hdr, freeLists, hdr
    {
      && freeLists[k] == Front(s, 0)
      && forall i :: 0 <= i < |s| ==> s[i] < HEAP_SIZE && hdr[s[i]] == Header(Front(s, i + 1), k, true)
    }

    ghost predicate Linked(k: nat)
      requires Shape() && k <= MAX_ORDER
      reads this, freeLists, hdr
    {
      Threaded(k, lists[k])
    }

    ghost predicate LiveHeader(b: Block)
      requires Shape()
      reads this, hdr
    {
      b.off < HEAP_SIZE && hdr[b.off].order == b.order && !hdr[b.off].isFree
    }

    /** The invariant, except for the headers of the blocks in `pending`. */
    ghost predicate ValidBut(pending: set<Block>)
      reads this, freeLists, hdr
    {
      && Shape()
      && (forall k :: 0 <= k <= MAX_ORDER ==> Linked(k))
      && (forall b :: b in live && b !in pending ==> LiveHeader(b))
    }

    ghost predicate Valid()
      reads this, freeLists, hdr
    {
      ValidBut({})
    }

    static lemma FrontShifts(s: seq<nat>, w: seq<nat>, at: nat, i: nat)
      requires at < |s| && |w| == |s| - 1 && forall j :: 0 <= j < |w| ==> w[j] == s[if j < at then j else j + 1]
      ensures Front(w, i) == Front(s, if i < at then i else i + 1)
    {
    }

    static function Front(s: seq<nat>, i: nat): Ptr {
      if i < |s| then At(s[i]) else Null
    }

    static ghost predicate Entry(h: seq<Header>, s: seq<nat>, i: nat, k: nat)
      requires i < |s|
    {
      s[i] < |h| && h[s[i]] == Header(Front(s, i + 1), k, true)
    }

    /** `Threaded`, on the contents of the arrays. */
    static ghost predicate Thread(f: seq<Ptr>, h: seq<Header>, k: nat, s: seq<nat>) {
      && k < |f| && f[k] == Front(s, 0)
      && forall i :: 0 <= i < |s| ==> Entry(h, s, i, k)
    }

    lemma ThreadedIff(k: nat, s: seq<nat>)
      requires freeLists.Length == MAX_ORDER + 1 && hdr.Length == HEAP_SIZE && k <= MAX_ORDER
      ensures Threaded(k, s) <==> Thread(freeLists[..], hdr[..], k, s)
    {
      if Thread(freeLists[..], hdr[..], k, s) {
        forall i | 0 <= i < |s|
          ensures s[i] < HEAP_SIZE && hdr[s[i]] == Header(Front(s, i + 1), k, true)
        {
          assert Entry(hdr[..], s, i, k);
        }
      }
    }

    /** The memory once the entry at place `at` of list `k` is passed over. */
    static predicate Spliced(f: seq<Ptr>, h: seq<Header>, f': seq<Ptr>, h': seq<Header>, s: seq<nat>, at: nat, k: nat)
      requires at < |s| && s[at] < |h| && (at > 0 ==> s[at - 1] < |h|) && k < |f|
    {
      if at > 0 then f' == f && h' == h[s[at - 1] := h[s[at - 1]].(next := h[s[at]].next)]
      else f' == f[k := h[s[at]].next] && h' == h
    }

    /** The list without the entry is threaded. */
    static lemma SpliceThreads(f: seq<Ptr>, h: seq<Header>, f': seq<Ptr>, h': seq<Header>,
                               s: seq<nat>, w: seq<nat>, at: nat, k: nat)
      requires at < |s| && |w| == |s| - 1 && forall j :: 0 <= j < |w| ==> w[j] == s[if j < at then j else j + 1]
      requires Distinct(s) && Thread(f, h, k, s)
      requires Entry(h, s, at, k) && (at > 0 ==> Entry(h, s, at - 1, k)) && Spliced(f, h, f', h', s, at, k)
      ensures Thread(f', h', k, w)
    {
      FrontShifts(s, w, at, 0);
      forall i | 0 <= i < |w|
        ensures Entry(h', w, i, k)
      {
        assert Entry(h, s, if i < at then i else i + 1, k);
        FrontShifts(s, w, at, i + 1);
      }
    }

    /** Every other list stays threaded. */
    static lemma SpliceKeeps(f: seq<Ptr>, h: seq<Header>, f': seq<Ptr>, h': seq<Header>,
                             s: seq<nat>, at: nat, k: nat, j: nat, r: seq<nat>)
      requires at < |s| && Entry(h, s, at, k) && (at > 0 ==> Entry(h, s, at - 1, k) && s[at - 1] !in r)
      requires k < |f| && j != k && Thread(f, h, j, r) && Spliced(f, h, f', h', s, at, k)
      ensures Thread(f', h', j, r)
    {
      forall i | 0 <= i < |r|
        ensures Entry(h', r, i, j)
      {
        assert Entry(h, r, i, j) && r[i] in r;
      }
    }

    function Address(b: Block): nat {
      base + b.off + HEADER_SIZE
    }

    // buddy_kmm_init; the heap starts right behind the manager's record.
    constructor (memory: nat)
      requires memory > 0
      ensures Valid() && fresh(freeLists) && fresh(hdr)
      ensures base == memory + MANAGER_SIZE
      ensures lists == InitialLists() && live == {}
    {
      base := memory + MANAGER_SIZE;
      freeLists := new Ptr[MAX_ORDER + 1](_ => Null);
      hdr := new Header[HEAP_SIZE];
      lists := InitialLists();
      live := {};
      new;
      hdr[0] := Header(Null, MAX_ORDER, true);
      freeLists[MAX_ORDER] := At(0);
      InitialWf();
    }

    /** Takes the front of list `k` off and marks it as handed out. */
    method PopFront(k: nat) returns (off: nat)
      requires Valid() && k <= MAX_ORDER && freeLists[k] != Null
      modifies this`lists, this`live, freeLists, hdr
      ensures Valid()
      ensures old(lists)[k] != [] && off == old(lists)[k][0]
      ensures lists == PopAt(old(lists), k) && live == old(live) + {Block(k, off)}
      ensures Block(k, off) !in old(live)
    {
      assert Linked(k);
      off := freeLists[k].off;
      PopKeepsWf(lists, live, k);
      FrontIsOnce(lists, live, k);
      freeLists[k] := hdr[off].next;
      hdr[off] := hdr[off].(isFree := false, next := Null);
      lists := PopAt(lists, k);
      live := live + {Block(k, off)};
      assert OnlyInFront(old(lists), k, off);
      assert Linked(k) by {
        forall i | 0 <= i < |lists[k]|
          ensures lists[k][i] == old(lists)[k][i + 1]
          ensures lists[k][i] < HEAP_SIZE && hdr[lists[k][i]] == Header(Front(lists[k], i + 1), k, true)
        {
        }
      }
      forall j | 0 <= j <= MAX_ORDER && j != k
        ensures Linked(j)
      {
        assert old(Linked(j));
      }
    }

    /**
      Puts a block in front of list `k`. The live blocks become `live'`; the headers of those
      in `pending` need not be right.
     */
    method PushFront(k: nat, off: nat, ghost live': set<Block>, ghost pending: set<Block>)
      requires ValidBut(live) && k <= MAX_ORDER && Wf(PushAt(lists, k, off), live')
      requires off < HEAP_SIZE && hdr[off].order == k && hdr[off].isFree
      requires forall c :: c in live' && c !in pending ==> c.off != off && LiveHeader(c)
      modifies this`lists, this`live, freeLists, hdr
      ensures ValidBut(pending)
      ensures lists == PushAt(old(lists), k, off) && live == live'
      ensures forall o :: 0 <= o < HEAP_SIZE && o != off ==> hdr[o] == old(hdr[o])
    {
      FrontIsOnce(PushAt(lists, k, off), live', k);
      assert Linked(k);
      hdr[off] := hdr[off].(next := freeLists[k]);
      freeLists[k] := At(off);
      lists := PushAt(lists, k, off);
      live := live';
      forall j | 0 <= j <= MAX_ORDER
        ensures Linked(j)
      {
        assert old(Linked(j));
        assert OnlyInFront(lists, k, off);
        if j == k {
          forall i | 0 <= i < |lists[k]|
            ensures i > 0 ==> lists[k][i] == old(lists)[k][i - 1]
            ensures lists[k][i] < HEAP_SIZE && hdr[lists[k][i]] == Header(Front(lists[k], i + 1), k, true)
          {
          }
        }
      }
    }

    /** Writes the header of a live block, which no list runs through. */
    method WriteLiveHeader(ghost b: Block, off: nat, h: Header)
      requires ValidBut({b}) && b in live && b.off == off && off < HEAP_SIZE
      modifies hdr
      ensures ValidBut({b})
      ensures hdr[off] == h
      ensures h.order == b.order && !h.isFree ==> Valid()
    {
      LiveNotListed(lists, live, b);
      hdr[off] := h;
      forall j | 0 <= j <= MAX_ORDER
        ensures Linked(j)
      {
        assert old(Linked(j));
      }
    }

    /**
      A write strictly inside a live block, be it the owner's payload or a header made by a
      split: it reaches no header that the allocator relies on.
     */
    method WriteInterior(ghost b: Block, o: nat, h: Header)
      requires Valid() && b in live && b.off < o < b.End()
      modifies hdr
      ensures Valid()
      ensures o < HEAP_SIZE && hdr[o] == h
      ensures forall i :: 0 <= i < HEAP_SIZE && i != o ==> hdr[i] == old(hdr[i])
    {
      InteriorNotListed(lists, live, b, o);
      hdr[o] := h;
      forall j | 0 <= j <= MAX_ORDER
        ensures Linked(j)
      {
        assert old(Linked(j));
      }
    }

    /** Writes the headers of the two halves of a live block and lists the right half. */
    method SplitLive(ghost b: Block, off: nat, order: nat)
      requires Valid() && b in live && b == Block(order + 1, off) && order >= MIN_ORDER
      modifies this`lists, this`live, freeLists, hdr
      ensures Valid()
      ensures order <= MAX_ORDER && lists == PushAt(old(lists), order, off + Size(order))
      ensures live == old(live) - {b} + {Block(order, off)}
    {
      SplitKeepsWf(lists, live, b);
      ghost var live' := live - {b} + {b.Left()};
      SplitOffsets(lists, live, b);
      var buddy := off + Size(order);
      WriteInterior(b, buddy, Header(Null, order, true));
      PushFront(order, buddy, live', {b.Left()});
      WriteLiveHeader(b.Left(), off, Header(Null, order, false));
    }

    method AllocBlock(order: nat) returns (block: Ptr)
      requires Valid()
      modifies this`lists, this`live, freeLists, hdr
      ensures Valid()
      ensures order < MIN_ORDER || order > MAX_ORDER || Fit(old(lists), order) > MAX_ORDER ==>
                block == Null && lists == old(lists) && live == old(live)
      ensures MIN_ORDER <= order <= MAX_ORDER && Fit(old(lists), order) <= MAX_ORDER ==>
                && block == At(old(lists)[Fit(old(lists), order)][0])
                && lists == AfterAlloc(old(lists), order)
                && Block(order, block.off) !in old(live)
                && live == old(live) + {Block(order, block.off)}
      decreases MAX_ORDER + 1 - order
    {
      if order < MIN_ORDER || order > MAX_ORDER {
        return Null;
      }
      if freeLists[order] != Null {
        var off := PopFront(order);
        PopIsAlloc(old(lists), order);
        return At(off);
      }
      assert Linked(order);
      FitSkips(lists, order);
      block := AllocBlock(order + 1);
      if block == Null {
        return;
      }
      SplitTaken(block.off, order, old(lists), old(live));
    }

    /** A block of the order above, just taken from `before`, is split. */
    method SplitTaken(off: nat, order: nat, ghost before: Lists, ghost held: set<Block>)
      requires Valid() && Wf(before, held) && MIN_ORDER <= order < MAX_ORDER
      requires before[order] == [] && Fit(before, order) <= MAX_ORDER && off == before[Fit(before, order)][0]
      requires lists == AfterAlloc(before, order + 1)
      requires Block(order + 1, off) !in held && live == held + {Block(order + 1, off)}
      modifies this`lists, this`live, freeLists, hdr
      ensures Valid()
      ensures lists == AfterAlloc(before, order)
      ensures Block(order, off) !in held && live == held + {Block(order, off)}
    {
      AllocBySplit(before, order);
      AllocIsNew(before, held, order);
      SplitLive(Block(order + 1, off), off, order);
    }

    /** Walks list `k` looking for the block at `target`. */
    method Search(k: nat, target: nat, ghost pending: set<Block>)
      returns (found: bool, prev: Ptr, ghost at: nat)
      requires ValidBut(pending) && k <= MAX_ORDER
      ensures found <==> target in lists[k]
      ensures found ==> at < |lists[k]| && lists[k][at] == target
      ensures found ==> prev == if at > 0 then At(lists[k][at - 1]) else Null
    {
      var curr := freeLists[k];
      assert Linked(k);
      prev, at := Null, 0;
      while curr != Null
        invariant at <= |lists[k]| && curr == Front(lists[k], at)
        invariant prev == if at > 0 then At(lists[k][at - 1]) else Null
        invariant target !in lists[k][..at]
        decreases |lists[k]| - at
      {
        if curr == At(target) {
          return true, prev, at;
        }
        prev := curr;
        curr := hdr[curr.off].next;
        at := at + 1;
      }
      assert lists[k][..at] == lists[k];
      return false, prev, at;
    }

    /** The pointer surgery that takes the block found by `Search` out of its list. */
    method Splice(k: nat, buddy: nat, prev: Ptr, ghost at: nat)
      requires ValidBut(live) && k <= MAX_ORDER
      requires at < |lists[k]| && lists[k][at] == buddy
      requires prev == if at > 0 then At(lists[k][at - 1]) else Null
      modifies freeLists, hdr
      ensures Threaded(k, Without(lists[k], buddy))
      ensures forall j :: 0 <= j <= MAX_ORDER && j != k ==> Threaded(j, lists[j])
      ensures forall c :: c in live && c.off < HEAP_SIZE ==> hdr[c.off] == old(hdr[c.off])
    {
      ListedOnce(lists, live, k, if at > 0 then at - 1 else at);
      ghost var s, w, f, h := lists[k], Without(lists[k], buddy), freeLists[..], hdr[..];
      WithoutShifts(s, at);
      forall j | 0 <= j <= MAX_ORDER
        ensures Thread(f, h, j, lists[j])
      {
        assert Linked(j);
        ThreadedIff(j, lists[j]);
      }
      assert Entry(h, s, at, k) && (at > 0 ==> Entry(h, s, at - 1, k));
      if prev != Null {
        hdr[prev.off] := hdr[prev.off].(next := hdr[buddy].next);
      } else {
        freeLists[k] := hdr[buddy].next;
      }
      SpliceThreads(f, h, freeLists[..], hdr[..], s, w, at, k);
      ThreadedIff(k, w);
      forall j | 0 <= j <= MAX_ORDER && j != k
        ensures Threaded(j, lists[j])
      {
        assert at > 0 ==> ListedOnlyAt(lists, k, at - 1);
        SpliceKeeps(f, h, freeLists[..], hdr[..], s, at, k, j, lists[j]);
        ThreadedIff(j, lists[j]);
      }
    }

    /** Takes the block found by `Search` out of list `k`; the live blocks become `live'`. */
    method Unlink(k: nat, buddy: nat, prev: Ptr, ghost at: nat, ghost live': set<Block>, ghost b: Block, ghost p: Block)
      requires ValidBut({b}) && k <= MAX_ORDER
      requires at < |lists[k]| && lists[k][at] == buddy
      requires prev == if at > 0 then At(lists[k][at - 1]) else Null
      requires Wf(lists[k := Without(lists[k], buddy)], live') && live' == live - {b} + {p}
      modifies this`lists, this`live, freeLists, hdr
      ensures ValidBut({p})
      ensures lists == old(lists)[k := Without(old(lists)[k], buddy)] && live == live'
    {
      Splice(k, buddy, prev, at);
      lists := lists[k := Without(lists[k], buddy)];
      live := live';
      assert forall j :: 0 <= j <= MAX_ORDER ==> Threaded(j, lists[j]);
    }

    /** The search of the coalescing loop with the checks that follow it, which a listed buddy always passes. */
    method FindBuddy(order: nat, buddy: nat, ghost cur: Block) returns (found: bool, prev: Ptr, ghost at: nat)
      requires ValidBut({cur}) && order <= MAX_ORDER
      ensures found <==> buddy in lists[order]
      ensures found ==> at < |lists[order]| && lists[order][at] == buddy
      ensures found ==> prev == if at > 0 then At(lists[order][at - 1]) else Null
    {
      found, prev, at := Search(order, buddy, {cur});
      assert Linked(order);
      if !found || !hdr[buddy].isFree || hdr[buddy].order != order {
        found := false;
      }
    }

    /** One round of coalescing: the listed buddy leaves its list and joins the pending block. */
    method Merge(ghost cur: Block, block: nat, order: nat, buddy: nat, prev: Ptr, ghost at: nat) returns (merged: nat)
      requires ValidBut({cur}) && cur in live && cur == Block(order, block) && order < MAX_ORDER
      requires buddy == BuddyOf(block, order)
      requires at < |lists[order]| && lists[order][at] == buddy
      requires prev == if at > 0 then At(lists[order][at - 1]) else Null
      modifies this`lists, this`live, freeLists, hdr
      ensures lists == old(lists)[order := Without(old(lists)[order], buddy)]
      ensures merged == (if block < buddy then block else buddy) && merged < HEAP_SIZE
      ensures live == old(live) - {cur} + {cur.Parent()} && cur.Parent() !in old(live)
      ensures cur.Parent() == Block(order + 1, merged)
      ensures ValidBut({cur.Parent()})
      ensures hdr[merged].order == order + 1 && hdr[merged].isFree
    {
      ghost var parent := cur.Parent();
      BuddyInHeap(lists, live, cur);
      MergeKeepsWf(lists, live, cur);
      Unlink(order, buddy, prev, at, live - {cur} + {parent}, cur, parent);
      merged := if block < buddy then block else buddy;
      LiveNotListed(lists, live, parent);
      WriteLiveHeader(parent, merged, hdr[merged].(order := order + 1, isFree := true));
    }

    /** What the header of a block of the state says. */
    lemma HeaderOf(b: Block)
      requires Valid() && b in FreeSet(lists) + live
      ensures b.Placed() && b.off < HEAP_SIZE
      ensures hdr[b.off].order == b.order && (hdr[b.off].isFree <==> b in FreeSet(lists))
    {
      OneHeaderPerBlock(lists, live, b);
      if b in FreeSet(lists) {
        FreeSetHas(lists, b);
        assert Linked(b.order);
      }
    }

    // free_block
    method FreeBlock(start: nat, ghost b: Block)
      requires Valid() && b in FreeSet(lists) + live && b.off == start
      modifies this`lists, this`live, freeLists, hdr
      ensures Valid()
      ensures b in old(live) ==> lists == AfterFree(old(lists), b.order, b.off) && live == old(live) - {b}
      ensures b !in old(live) ==> lists == old(lists) && live == old(live)
    {
      HeaderOf(b);
      var block: nat, order: nat := start, hdr[start].order;
      if hdr[block].isFree {
        return;
      }
      if order < MIN_ORDER || order > MAX_ORDER {
        return;
      }
      ghost var cur := b;
      WriteLiveHeader(cur, block, hdr[block].(isFree := true));
      while order < MAX_ORDER
        invariant order <= MAX_ORDER && cur in live && cur == Block(order, block) && block < HEAP_SIZE
        invariant ValidBut({cur})
        invariant hdr[block].order == order && hdr[block].isFree
        invariant live - {cur} == old(live) - {b}
        invariant AfterFree(lists, order, block) == AfterFree(old(lists), b.order, b.off)
      {
        var buddy := BuddyOf(block, order);
        BuddyInHeap(lists, live, cur);
        if buddy >= HEAP_SIZE {
          break;
        }
        var found, prev, at := FindBuddy(order, buddy, cur);
        if !found {
          break;
        }
        FreeStep(lists, order, block);
        var merged := Merge(cur, block, order, buddy, prev, at);
        cur, block, order := Block(order + 1, merged), merged, order + 1;
      }
      FreeStops(lists, live, cur);
      PushFront(order, block, live - {cur}, {});
    }

    /**
      buddy_kmalloc. The result is NULL exactly when the request is empty or no aligned span
      of the chosen order is unused, and then nothing changes.
     */
    method Kmalloc(size: nat) returns (addr: nat, ghost block: Block)
      requires Valid() && size < WORDS
      modifies this`lists, this`live, freeLists, hdr
      ensures Valid()
      ensures addr == 0 <==> size == 0 || block.order > MAX_ORDER ||
                             forall b: Block :: b.Placed() && b.order == block.order ==> !Unused(old(live), b)
      ensures addr == 0 ==> lists == old(lists) && live == old(live)
      ensures block.order >= MIN_ORDER
      ensures block.order <= MAX_ORDER ==> (size + HEADER_SIZE) % WORDS <= Size(block.order)
      ensures forall k :: MIN_ORDER <= k < block.order ==> Size(k) < (size + HEADER_SIZE) % WORDS
      ensures addr != 0 ==> block.Placed() && Unused(old(live), block) && addr == Address(block)
      ensures addr != 0 ==> base + block.off + HEADER_SIZE <= addr < base + block.End() <= base + HEAP_SIZE
      ensures addr != 0 && size + HEADER_SIZE < WORDS ==> addr + size <= base + block.End()
      ensures addr != 0 ==> Fit(old(lists), block.order) <= MAX_ORDER
      ensures addr != 0 ==> block == Block(block.order, old(lists)[Fit(old(lists), block.order)][0])
      ensures addr != 0 ==> lists == AfterAlloc(old(lists), block.order) && live == old(live) + {block}
    {
      var order := GetOrder(size);
      block := Block(order, 0);
      if size == 0 {
        return 0, block;
      }
      var found := AllocBlock(order);
      if order <= MAX_ORDER {
        FailsIffNoSpan(old(lists), old(live), order);
      }
      if found == Null {
        return 0, block;
      }
      block := Block(order, found.off);
      NewBlockUnused(lists, old(live), block);
      addr := base + found.off + HEADER_SIZE;
      OrderFits(size, order);
      HeaderFits(block);
    }

    /**
      buddy_kmm_free, for a pointer outside the heap or the payload address of a block of the
      state. A live block is freed; any other pointer is ignored.
     */
    method KmmFree(addr: nat)
      requires Valid()
      requires base <= addr - HEADER_SIZE < base + HEAP_SIZE ==>
                 exists b :: b in FreeSet(lists) + live && addr == Address(b)
      modifies this`lists, this`live, freeLists, hdr
      ensures Valid()
      ensures forall b :: b in old(live) && addr == Address(b) ==>
                lists == AfterFree(old(lists), b.order, b.off) && live == old(live) - {b}
      ensures (forall b :: b in old(live) ==> addr != Address(b)) ==> lists == old(lists) && live == old(live)
    {
      ghost var lives := live;
      forall b | b in live && addr == Address(b)
        ensures base <= addr - HEADER_SIZE < base + HEAP_SIZE
      {
        LiveNotListed(lists, live, b);
      }
      if addr == 0 {
        return;
      }
      if addr - HEADER_SIZE < base || addr - HEADER_SIZE >= base + HEAP_SIZE {
        return;
      }
      ghost var b :| b in FreeSet(lists) + live && addr == Address(b);
      OneHeaderPerBlock(lists, live, b);
      HeaderOf(b);
      var off := addr - HEADER_SIZE - base;
      if hdr[off].isFree {
        return;
      }
      FreeBlock(off, b);
    }

    // buddy_kmm_mem_info
    method KmmMemInfo() returns (info: MemInfo)
      requires Valid()
      ensures info.total == HEAP_SIZE && info.free + info.reserved == info.total
      ensures info.free == Bytes(FreeSet(lists)) && info.reserved == Bytes(live)
    {
      var free := 0;
      var i := 0;
      while i <= MAX_ORDER
        invariant 0 <= i <= MAX_ORDER + 1
        invariant free == ListBytes(lists, i)
      {
        var curr := freeLists[i];
        assert Linked(i);
        ghost var at := 0;
        while curr != Null
          invariant at <= |lists[i]| && curr == Front(lists[i], at)
          invariant free == ListBytes(lists, i) + Times(at, Size(i))
          decreases |lists[i]| - at
        {
          free := free + Size(i);
          curr := hdr[curr.off].next;
          at := at + 1;
        }
        i := i + 1;
      }
      ReservedIsLive(lists, live);
      BytesConserved(lists, live);
      info := MemInfo(HEAP_SIZE, free, HEAP_SIZE - free);
    }
  }
}
