/**
  The simple memory manager: a table of fixed-size cells, allocated by a first-fit search that
  jumps past the cell that stopped it, and freed by the length stored in a run's first cell.
 */
module FirstFit {
  import opened Basics

  const BLOCK_SIZE: nat := 128

  datatype Cell = Cell(isFree: bool, count: nat)

  // ---- the search ----

  predicate AllFree(cells: seq<Cell>, start: nat, n: nat)
    requires start + n <= |cells|
  {
    forall j :: start <= j < start + n ==> cells[j].isFree
  }

  /** The naive search: try every start in turn. */
  function NaiveFit(cells: seq<Cell>, n: nat, from: nat): (r: Option<nat>)
    ensures r.Some? ==> from <= r.value && r.value + n <= |cells| && AllFree(cells, r.value, n)
    decreases |cells| - from
  {
    if from + n > |cells| then None
    else if AllFree(cells, from, n) then Some(from)
    else if from == |cells| then None
    else NaiveFit(cells, n, from + 1)
  }

  /** The naive search finds the leftmost run of free cells, or that there is none. */
  lemma {:induction false} NaiveIsLeftmost(cells: seq<Cell>, n: nat, from: nat)
    ensures NaiveFit(cells, n, from).Some? ==>
              forall s :: from <= s < NaiveFit(cells, n, from).value ==> !AllFree(cells, s, n)
    ensures NaiveFit(cells, n, from).None? ==> forall s :: from <= s <= |cells| - n ==> !AllFree(cells, s, n)
    decreases |cells| - from
  {
    if from + n <= |cells| && !AllFree(cells, from, n) && from < |cells| {
      NaiveIsLeftmost(cells, n, from + 1);
    }
  }

  /** No run of `n` free cells starts at or before a cell that is taken, as long as it reaches it. */
  lemma {:induction false} SkipAhead(cells: seq<Cell>, n: nat, from: nat, taken: nat)
    requires 0 < n && from <= taken < |cells| && taken < from + n && !cells[taken].isFree
    ensures NaiveFit(cells, n, from) == NaiveFit(cells, n, taken + 1)
    decreases taken - from
  {
    if from + n <= |cells| {
      assert !AllFree(cells, from, n);
      if from < taken {
        SkipAhead(cells, n, from + 1, taken);
      }
    } else {
      assert taken + 1 + n > |cells|;
    }
  }

  // ---- the table ----

  /** `live` maps the first cell of each allocation to the number of its cells. */
  type Runs = map<nat, nat>

  ghost predicate RunAt(cells: seq<Cell>, s: nat, n: nat) {
    && 1 <= n && s + n <= |cells|
    && cells[s] == Cell(false, n)
    && forall j :: s < j < s + n ==> cells[j] == Cell(false, 0)
  }

  ghost predicate InRun(live: Runs, j: nat) {
    exists s :: s in live && s <= j < s + live[s]
  }

  ghost predicate RunsOk(cells: seq<Cell>, live: Runs) {
    forall s :: s in live ==> RunAt(cells, s, live[s])
  }

  ghost predicate RunsApart(live: Runs) {
    forall s, t :: s in live && t in live && s < t ==> s + live[s] <= t
  }

  ghost predicate CellsOk(cells: seq<Cell>, live: Runs) {
    forall j :: 0 <= j < |cells| ==> if cells[j].isFree then cells[j].count == 0 else InRun(live, j)
  }

  /** The table is made of free cells and of disjoint runs whose head holds the length. */
  ghost predicate TableOk(cells: seq<Cell>, live: Runs) {
    RunsOk(cells, live) && RunsApart(live) && CellsOk(cells, live)
  }

  function Fill(cells: seq<Cell>, s: nat, n: nat): (r: seq<Cell>)
    requires s + n <= |cells|
    ensures |r| == |cells|
  {
    seq(|cells|, j requires 0 <= j < |cells| =>
      if j == s && n > 0 then Cell(false, n) else if s < j < s + n then Cell(false, 0) else cells[j])
  }

  function Clear(cells: seq<Cell>, s: nat, n: nat): (r: seq<Cell>)
    requires s + n <= |cells|
    ensures |r| == |cells|
  {
    seq(|cells|, j requires 0 <= j < |cells| => if s <= j < s + n then Cell(true, 0) else cells[j])
  }

  /** A run of taken cells and a span of free ones do not meet. */
  lemma TakenMissesFree(cells: seq<Cell>, t: nat, m: nat, s: nat, n: nat)
    requires RunAt(cells, t, m) && 0 < n && s + n <= |cells| && AllFree(cells, s, n)
    ensures t + m <= s || s + n <= t
  {
    assert cells[s].isFree;
  }

  /** A run keeps its cells when nothing inside it is written. */
  lemma RunKept(before: seq<Cell>, after: seq<Cell>, t: nat, m: nat)
    requires RunAt(before, t, m) && |after| == |before|
    requires forall j :: t <= j < t + m ==> after[j] == before[j]
    ensures RunAt(after, t, m)
  {
  }

  /** A run is laid over free cells: no live run is touched. */
  lemma FillKeepsTable(cells: seq<Cell>, live: Runs, s: nat, n: nat)
    requires TableOk(cells, live) && 0 < n && s + n <= |cells| && AllFree(cells, s, n)
    ensures s !in live && TableOk(Fill(cells, s, n), live[s := n])
    ensures forall t :: t in live ==> t + live[t] <= s || s + n <= t
  {
    FillKeepsRuns(cells, live, s, n);
    FillCovers(cells, live, s, n);
  }

  lemma FillKeepsRuns(cells: seq<Cell>, live: Runs, s: nat, n: nat)
    requires RunsOk(cells, live) && RunsApart(live) && 0 < n && s + n <= |cells| && AllFree(cells, s, n)
    ensures s !in live && RunsOk(Fill(cells, s, n), live[s := n]) && RunsApart(live[s := n])
    ensures forall t :: t in live ==> t + live[t] <= s || s + n <= t
  {
    var after := Fill(cells, s, n);
    forall t | t in live
      ensures t + live[t] <= s || s + n <= t
      ensures t != s && RunAt(after, t, live[t])
    {
      TakenMissesFree(cells, t, live[t], s, n);
      RunKept(cells, after, t, live[t]);
    }
    assert RunAt(after, s, n);
  }

  lemma FillCovers(cells: seq<Cell>, live: Runs, s: nat, n: nat)
    requires CellsOk(cells, live) && 0 < n && s + n <= |cells| && s !in live
    ensures CellsOk(Fill(cells, s, n), live[s := n])
  {
    var after, runs := Fill(cells, s, n), live[s := n];
    forall j | 0 <= j < |after|
      ensures if after[j].isFree then after[j].count == 0 else InRun(runs, j)
    {
      if s <= j < s + n {
        assert s in runs;
      } else if !cells[j].isFree {
        assert InRun(live, j);
        var t :| t in live && t <= j < t + live[t];
        assert t in runs && runs[t] == live[t];
      }
    }
  }

  /** Exactly the cells of one run become free. */
  lemma ClearKeepsTable(cells: seq<Cell>, live: Runs, s: nat)
    requires TableOk(cells, live) && s in live
    ensures s + live[s] <= |cells| && TableOk(Clear(cells, s, live[s]), live - {s})
  {
    assert RunAt(cells, s, live[s]);
    ClearKeepsRuns(cells, live, s);
    ClearCovers(cells, live, s);
  }

  lemma ClearKeepsRuns(cells: seq<Cell>, live: Runs, s: nat)
    requires RunsOk(cells, live) && RunsApart(live) && s in live && s + live[s] <= |cells|
    ensures RunsOk(Clear(cells, s, live[s]), live - {s})
  {
  }

  lemma ClearCovers(cells: seq<Cell>, live: Runs, s: nat)
    requires CellsOk(cells, live) && s in live && s + live[s] <= |cells|
    ensures CellsOk(Clear(cells, s, live[s]), live - {s})
  {
    var after, runs := Clear(cells, s, live[s]), live - {s};
    forall j | 0 <= j < |after|
      ensures if after[j].isFree then after[j].count == 0 else InRun(runs, j)
    {
      if !(s <= j < s + live[s]) && !cells[j].isFree {
        assert InRun(live, j);
        var t :| t in live && t <= j < t + live[t];
        assert t in runs;
      }
    }
  }

  /** Freeing an allocation at once restores the table and the live runs. */
  lemma FreeUndoesAlloc(cells: seq<Cell>, live: Runs, s: nat, n: nat)
    requires TableOk(cells, live) && 0 < n && NaiveFit(cells, n, 0) == Some(s)
    ensures Clear(Fill(cells, s, n), s, n) == cells && live[s := n] - {s} == live
  {
  }

  /** Only the first cell of a run holds a length. */
  lemma CountIsRun(cells: seq<Cell>, live: Runs, j: nat)
    requires TableOk(cells, live) && j < |cells|
    ensures cells[j].count > 0 <==> j in live
    ensures j in live ==> cells[j].count == live[j]
  {
  }

  lemma OutsideIsNoRun(cells: seq<Cell>, live: Runs, index: int)
    requires RunsOk(cells, live) && (index < 0 || |cells| <= index)
    ensures index !in live
  {
  }

  // ---- the manager ----

  class SimpleHeap {
    const memory: nat
    const cells: array<Cell>
    ghost var live: Runs

    ghost predicate Valid()
      reads this, cells
    {
      memory > 0 && TableOk(cells[..], live)
    }

    // my_kmm_init
    constructor (memory: nat, total: nat)
      requires memory > 0
      ensures Valid() && fresh(cells) && this.memory == memory && cells.Length == total && live == map[]
      ensures forall j :: 0 <= j < total ==> cells[j] == Cell(true, 0)
    {
      this.memory := memory;
      cells := new Cell[total](_ => Cell(true, 0));
      live := map[];
    }

    /** The search of my_kmalloc. `looked` lists the cells it inspects. */
    method Search(needed: nat) returns (found: Option<nat>, ghost looked: seq<nat>)
      requires needed <= cells.Length
      ensures found == NaiveFit(cells[..], needed, 0)
      ensures forall a, b :: 0 <= a < b < |looked| ==> looked[a] < looked[b] < cells.Length
    {
      var i := 0;
      looked := [];
      while i <= cells.Length - needed
        invariant 0 <= i <= cells.Length + 1
        invariant NaiveFit(cells[..], needed, i) == NaiveFit(cells[..], needed, 0)
        invariant forall a, b :: 0 <= a < b < |looked| ==> looked[a] < looked[b]
        invariant forall a :: 0 <= a < |looked| ==> looked[a] < i && looked[a] < cells.Length
      {
        var free := true;
        var j := 0;
        while j < needed && free
          invariant 0 <= j <= needed && i + needed <= cells.Length
          invariant forall k :: i <= k < i + j ==> cells[k].isFree
          invariant !free ==> j < needed && !cells[i + j].isFree
          invariant forall a, b :: 0 <= a < b < |looked| ==> looked[a] < looked[b]
          invariant forall a :: 0 <= a < |looked| ==> looked[a] < i + j + if free then 0 else 1
          decreases needed - j + if free then 1 else 0
        {
          looked := looked + [i + j];
          if !cells[i + j].isFree {
            free := false;
          } else {
            j := j + 1;
          }
        }
        if free {
          assert AllFree(cells[..], i, needed);
          return Some(i), looked;
        }
        SkipAhead(cells[..], needed, i, i + j);
        i := i + j + 1;
      }
      found := None;
    }

    /**
      my_kmalloc: the leftmost run of enough free cells, or NULL if there is none; nothing else
      changes. A request for no bytes is answered with the start of the heap and reserves nothing.
     */
    method Kmalloc(size: nat) returns (addr: nat, ghost at: Option<nat>)
      requires Valid() && size <= cells.Length * BLOCK_SIZE
      modifies this`live, cells
      ensures Valid()
      ensures var needed := (size + BLOCK_SIZE - 1) / BLOCK_SIZE;
              && needed <= cells.Length && size <= needed * BLOCK_SIZE < size + BLOCK_SIZE
              && at == NaiveFit(old(cells[..]), needed, 0)
              && addr == (if at.Some? then memory + at.value * BLOCK_SIZE else 0)
              && (at.None? || size == 0 ==> cells[..] == old(cells[..]) && live == old(live))
              && (at.Some? && size > 0 ==>
                    && at.value !in old(live) && live == old(live)[at.value := needed]
                    && cells[..] == Fill(old(cells[..]), at.value, needed))
      ensures size == 0 ==> addr == memory
    {
      var needed := (size + BLOCK_SIZE - 1) / BLOCK_SIZE;
      ghost var before := cells[..];
      var found, _ := Search(needed);
      at := found;
      if found == None {
        return 0, at;
      }
      var i := found.value;
      if needed > 0 {
        FillKeepsTable(before, live, i, needed);
        live := live[i := needed];
      } else {
        assert Fill(before, i, 0) == before;
      }
      Occupy(i, needed);
      addr := memory + i * BLOCK_SIZE;
    }

    method Occupy(i: nat, needed: nat)
      requires i + needed <= cells.Length
      modifies cells
      ensures cells[..] == Fill(old(cells[..]), i, needed)
    {
      var j := 0;
      while j < needed
        invariant 0 <= j <= needed
        invariant forall k :: 0 <= k < cells.Length ==>
                    cells[k] == if i <= k < i + j then (if k == i then Cell(false, needed) else Cell(false, 0))
                                else old(cells[k])
      {
        cells[i + j] := if j == 0 then Cell(false, needed) else Cell(false, 0);
        j := j + 1;
      }
    }

    /**
      my_kmm_free, for any address: the run whose first cell holds the address is released, and
      nothing else; an address in no such cell changes nothing.
     */
    method KmmFree(addr: nat)
      requires Valid()
      modifies this`live, cells
      ensures Valid()
      ensures var index := (addr - memory) / BLOCK_SIZE;
              if addr >= memory && index in old(live) then
                && index + old(live)[index] <= cells.Length
                && cells[..] == Clear(old(cells[..]), index, old(live)[index]) && live == old(live) - {index}
              else
                cells[..] == old(cells[..]) && live == old(live)
    {
      ghost var before := cells[..];
      if addr == 0 || addr < memory || addr >= memory + cells.Length * BLOCK_SIZE {
        OutsideIsNoRun(before, live, (addr - memory) / BLOCK_SIZE);
        return;
      }
      var index := (addr - memory) / BLOCK_SIZE;
      CountIsRun(before, live, index);
      var n := cells[index].count;
      if n > 0 {
        ClearKeepsTable(before, live, index);
        live := live - {index};
      } else {
        assert Clear(before, index, 0) == before;
      }
      Release(index, n);
    }

    method Release(index: nat, n: nat)
      requires index + n <= cells.Length
      modifies cells
      ensures cells[..] == Clear(old(cells[..]), index, n)
    {
      var i := 0;
      while i < n
        invariant 0 <= i <= n
        invariant forall k :: 0 <= k < cells.Length ==>
                    cells[k] == if index <= k < index + i then Cell(true, 0) else old(cells[k])
      {
        cells[index + i] := Cell(true, 0);
        i := i + 1;
      }
    }
  }
}
