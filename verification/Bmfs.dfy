/**
  Creating a file in a BMFS directory: the lowest gap between the extents of a sorted copy of the
  directory, on a disk whose first and last blocks are reserved. The directory has no deleted
  records.
 */
module Bmfs {
  import opened Basics
  import opened Sequences

  const MAX_BLOCKS: nat := 0x8000_0000  // half of the range of disksize

  /** An empty name marks the end of the directory; a name starting with 0x01 a deleted record. */
  datatype Record = Record(name: string, start: nat, reserved: nat, size: nat)

  function End(r: Record): nat { r.start + r.reserved }

  function Sub64(a: nat, b: nat): nat { (a - b) % WORDS }

  // ---- extents ----

  predicate Apart(a: Record, b: Record) {
    End(a) <= b.start || End(b) <= a.start
  }

  /** The extent lies in the data blocks: not the first block, not the last. */
  predicate InData(r: Record, numBlocks: nat) {
    1 <= r.start && End(r) < numBlocks
  }

  /** Non-empty, pairwise disjoint extents inside the data blocks. */
  ghost predicate Laid(files: seq<Record>, numBlocks: nat) {
    && (forall i :: 0 <= i < |files| ==> InData(files[i], numBlocks) && files[i].reserved > 0)
    && forall i, j :: 0 <= i < j < |files| ==> Apart(files[i], files[j])
  }

  /** `n` data blocks from `s` on belong to no file. */
  ghost predicate Fits(files: seq<Record>, numBlocks: nat, s: nat, n: nat) {
    && 1 <= s && s + n < numBlocks
    && forall r :: r in files ==> s + n <= r.start || End(r) <= s
  }

  ghost predicate LowestFit(files: seq<Record>, numBlocks: nat, s: nat, n: nat) {
    Fits(files, numBlocks, s, n) && forall t :: Fits(files, numBlocks, t, n) ==> s <= t
  }

  /** A file added in a gap keeps the disk laid out. */
  lemma AddedIsLaid(files: seq<Record>, numBlocks: nat, r: Record)
    requires Laid(files, numBlocks) && Fits(files, numBlocks, r.start, r.reserved) && r.reserved > 0
    ensures Laid(files + [r], numBlocks)
  {
  }

  // ---- the sorted copy ----

  ghost predicate Sorted(s: seq<Record>) {
    forall i, j :: 0 <= i < j < |s| ==> s[i].start <= s[j].start
  }

  /** Each extent ends where the next begins, or before. */
  ghost predicate Chained(s: seq<Record>) {
    forall t :: 0 <= t < |s| - 1 ==> End(s[t]) <= s[t + 1].start
  }

  lemma LaidIsDistinct(files: seq<Record>, numBlocks: nat)
    requires Laid(files, numBlocks)
    ensures Distinct(files)
  {
  }

  /** Sorting lays the extents out one after the other. */
  lemma SortedIsChained(files: seq<Record>, sorted: seq<Record>, numBlocks: nat)
    requires Laid(files, numBlocks) && Sorted(sorted) && multiset(sorted) == multiset(files)
    ensures Chained(sorted) && Laid(sorted, numBlocks)
  {
    LaidIsDistinct(files, numBlocks);
    DistinctPermuted(files, sorted);
    forall i | 0 <= i < |sorted|
      ensures InData(sorted[i], numBlocks) && sorted[i].reserved > 0
    {
      var k := PlaceIn(files, sorted, i);
    }
    forall i, j | 0 <= i < j < |sorted|
      ensures Apart(sorted[i], sorted[j])
    {
      var k, l := PlaceIn(files, sorted, i), PlaceIn(files, sorted, j);
      assert sorted[i] != sorted[j];
      assert if k < l then Apart(files[k], files[l]) else Apart(files[l], files[k]);
    }
  }

  ghost function PlaceIn(files: seq<Record>, sorted: seq<Record>, i: nat): (k: nat)
    requires multiset(sorted) == multiset(files) && i < |sorted|
    ensures k < |files| && files[k] == sorted[i]
  {
    assert sorted[i] in multiset(sorted);
    assert sorted[i] in files;
    var k :| 0 <= k < |files| && files[k] == sorted[i];
    k
  }

  // ---- the gap search ----

  /** The search from record `t` on; 0 when no gap is wide enough. The subtraction is unsigned. */
  function GapSearch(sorted: seq<Record>, t: nat, prev: nat, numBlocks: nat, requested: nat): nat
    requires t <= |sorted|
    decreases |sorted| - t
  {
    var here := if t == |sorted| then Sub64(numBlocks, 1) else sorted[t].start;
    if Sub64(here, prev) >= requested then prev
    else if t == |sorted| then 0
    else GapSearch(sorted, t + 1, End(sorted[t]), numBlocks, requested)
  }

  function PrevEnd(sorted: seq<Record>, t: nat): nat
    requires t <= |sorted|
  {
    if t == 0 then 1 else End(sorted[t - 1])
  }

  /** Every extent lies in the data blocks; some may be empty. */
  ghost predicate AllInData(files: seq<Record>, numBlocks: nat) {
    2 <= numBlocks < MAX_BLOCKS && forall i :: 0 <= i < |files| ==> InData(files[i], numBlocks)
  }

  lemma NoWrap(a: nat, b: nat)
    requires b <= a < WORDS
    ensures Sub64(a, b) == a - b
  {
  }

  /** Where record `t` starts too early for a gap, any fitting gap lies past its end. */
  lemma PastRecord(sorted: seq<Record>, numBlocks: nat, n: nat, t: nat, s: nat)
    requires t < |sorted| && Fits(sorted, numBlocks, s, n)
    requires PrevEnd(sorted, t) <= s && sorted[t].start < PrevEnd(sorted, t) + n
    ensures End(sorted[t]) <= s
  {
  }

  lemma GapFits(sorted: seq<Record>, numBlocks: nat, n: nat, t: nat)
    requires AllInData(sorted, numBlocks) && Sorted(sorted) && Chained(sorted) && t <= |sorted|
    requires PrevEnd(sorted, t) + n <= if t == |sorted| then numBlocks - 1 else sorted[t].start
    ensures Fits(sorted, numBlocks, PrevEnd(sorted, t), n)
  {
    var prev := PrevEnd(sorted, t);
    forall r | r in sorted
      ensures prev + n <= r.start || End(r) <= prev
    {
      ChainedEnds(sorted, r, t);
    }
  }

  /** Where the gap before record `t` ends; the last gap ends at the last block. */
  function Ahead(sorted: seq<Record>, t: nat, numBlocks: nat): int
    requires t <= |sorted|
  {
    if t == |sorted| then numBlocks - 1 else sorted[t].start
  }

  /** With the extents chained no subtraction of the search wraps, so each is the width of a gap. */
  lemma GapsDoNotWrap(sorted: seq<Record>, numBlocks: nat, t: nat)
    requires AllInData(sorted, numBlocks) && Chained(sorted) && t <= |sorted|
    ensures PrevEnd(sorted, t) <= Ahead(sorted, t, numBlocks)
    ensures Sub64(if t == |sorted| then Sub64(numBlocks, 1) else sorted[t].start, PrevEnd(sorted, t)) ==
            Ahead(sorted, t, numBlocks) - PrevEnd(sorted, t)
  {
    assert 0 < t < |sorted| ==> End(sorted[t - 1]) <= sorted[t - 1 + 1].start;
    NoWrap(numBlocks, 1);
    NoWrap(Ahead(sorted, t, numBlocks), PrevEnd(sorted, t));
  }

  /** With the extents chained the search finds the lowest gap, or there is none. */
  lemma {:induction false} SearchIsRight(sorted: seq<Record>, numBlocks: nat, n: nat, t: nat)
    requires AllInData(sorted, numBlocks) && Sorted(sorted) && Chained(sorted) && t <= |sorted|
    requires forall s :: Fits(sorted, numBlocks, s, n) ==> PrevEnd(sorted, t) <= s
    ensures var r := GapSearch(sorted, t, PrevEnd(sorted, t), numBlocks, n);
            if r == 0 then forall s :: !Fits(sorted, numBlocks, s, n) else LowestFit(sorted, numBlocks, r, n)
    decreases |sorted| - t
  {
    var prev := PrevEnd(sorted, t);
    GapsDoNotWrap(sorted, numBlocks, t);
    if Ahead(sorted, t, numBlocks) - prev >= n {
      GapFits(sorted, numBlocks, n, t);
    } else if t < |sorted| {
      forall s | Fits(sorted, numBlocks, s, n)
        ensures PrevEnd(sorted, t + 1) <= s
      {
        PastRecord(sorted, numBlocks, n, t, s);
      }
      SearchIsRight(sorted, numBlocks, n, t + 1);
    } else {
      assert forall s: nat :: Fits(sorted, numBlocks, s, n) ==> prev <= s && s + n <= numBlocks - 1;
    }
  }

  /** An extent is at or past record `t`, or it ends no later than the record before `t`. */
  lemma ChainedEnds(sorted: seq<Record>, r: Record, t: nat)
    requires Sorted(sorted) && Chained(sorted) && r in sorted && t <= |sorted|
    ensures (t < |sorted| && sorted[t].start <= r.start) || End(r) <= PrevEnd(sorted, t)
  {
    var i :| 0 <= i < |sorted| && sorted[i] == r;
    if i < t - 1 {
      assert End(sorted[i]) <= sorted[i + 1].start;
      assert sorted[i + 1].start <= sorted[t - 1].start;
    }
  }

  /** The search never answers with blocks in use or outside the data blocks. */
  ghost predicate SearchIsSafe(sorted: seq<Record>, numBlocks: nat, n: nat) {
    var r := GapSearch(sorted, 0, 1, numBlocks, n);
    r == 0 || Fits(sorted, numBlocks, r, n)
  }

  /**
    The search is safe for every request exactly when the sorted extents are chained. Disjoint
    non-empty extents always are; an empty one may tie with another and sort after it.
   */
  lemma SearchIsSafeIff(sorted: seq<Record>, numBlocks: nat)
    requires AllInData(sorted, numBlocks) && Sorted(sorted)
    ensures Chained(sorted) <==> forall n :: 0 < n < WORDS ==> SearchIsSafe(sorted, numBlocks, n)
  {
    if Chained(sorted) {
      forall n | 0 < n < WORDS
        ensures SearchIsSafe(sorted, numBlocks, n)
      {
        SearchIsRight(sorted, numBlocks, n, 0);
      }
    } else {
      var t :| 0 <= t < |sorted| - 1 && End(sorted[t]) > sorted[t + 1].start;
      BrokenChainIsUnsafe(sorted, numBlocks, t);
    }
  }

  lemma {:induction false} BrokenChainIsUnsafe(sorted: seq<Record>, numBlocks: nat, t: nat)
    requires AllInData(sorted, numBlocks)
    requires t < |sorted| - 1 && End(sorted[t]) > sorted[t + 1].start
    ensures !SearchIsSafe(sorted, numBlocks, numBlocks)
  {
    if u: nat :| u < t && End(sorted[u]) > sorted[u + 1].start {
      BrokenChainIsUnsafe(sorted, numBlocks, u);
    } else {
      WrapIsTaken(sorted, numBlocks, 0, t);
    }
  }

  /** Nothing as wide as the disk fits before record `u`, unless the subtraction wraps there. */
  lemma WideRequest(sorted: seq<Record>, numBlocks: nat, u: nat)
    requires AllInData(sorted, numBlocks) && u < |sorted|
    ensures GapSearch(sorted, u, PrevEnd(sorted, u), numBlocks, numBlocks) ==
            if PrevEnd(sorted, u) > sorted[u].start then PrevEnd(sorted, u)
            else GapSearch(sorted, u + 1, PrevEnd(sorted, u + 1), numBlocks, numBlocks)
  {
    var here, prev := sorted[u].start, PrevEnd(sorted, u);
    if prev > here {
      assert Sub64(here, prev) == WORDS + here - prev;
    } else {
      NoWrap(here, prev);
    }
  }

  /** At the first broken link the unsigned subtraction wraps and the gap looks enormous. */
  lemma {:induction false} WrapIsTaken(sorted: seq<Record>, numBlocks: nat, u: nat, t: nat)
    requires AllInData(sorted, numBlocks) && u <= t + 1 < |sorted|
    requires forall v :: 0 <= v < t ==> End(sorted[v]) <= sorted[v + 1].start
    requires End(sorted[t]) > sorted[t + 1].start
    ensures GapSearch(sorted, u, PrevEnd(sorted, u), numBlocks, numBlocks) == End(sorted[t])
    decreases t + 1 - u
  {
    WideRequest(sorted, numBlocks, u);
    if u <= t {
      assert u > 0 ==> End(sorted[u - 1]) <= sorted[u - 1 + 1].start;
      WrapIsTaken(sorted, numBlocks, u + 1, t);
    }
  }

  // ---- the directory ----

  /** The records before the end marker. */
  function Files(dir: seq<Record>): (f: seq<Record>)
    ensures |f| <= |dir| && f == dir[..|f|]
    ensures forall r :: r in f ==> r.name != ""
    ensures |f| < |dir| ==> dir[|f|].name == ""
  {
    if dir == [] || dir[0].name == "" then [] else [dir[0]] + Files(dir[1..])
  }

  predicate IsDeleted(r: Record) {
    r.name != "" && r.name[0] == 1 as char
  }

  /** A file of that name before the end marker. */
  predicate Named(dir: seq<Record>, name: string) {
    exists r :: r in Files(dir) && !IsDeleted(r) && r.name == name
  }

  lemma FilesSoFar(dir: seq<Record>, n: nat)
    requires n <= |dir| && forall i :: 0 <= i < n ==> dir[i].name != ""
    ensures n <= |Files(dir)|
    ensures n < |dir| && dir[n].name == "" ==> |Files(dir)| == n
  {
  }

  datatype Outcome = Created(start: nat) | Exists | DirectoryFull | NoRoom

  /** The size in MiB, made even (the increment may wrap), in blocks of 2 MiB. */
  function Blocks(maxsize: nat): nat {
    (if maxsize % 2 != 0 then (maxsize + 1) % WORDS else maxsize) / 2
  }

  /** Only a request for nothing, or the one that wraps, reserves no block. */
  lemma RequestIsReserved(maxsize: nat)
    requires maxsize < WORDS
    ensures Blocks(maxsize) > 0 <==> 0 < maxsize < WORDS - 1
    ensures Blocks(maxsize) > 0 ==> maxsize <= 2 * Blocks(maxsize) <= maxsize + 1
  {
  }

  lemma InsertKeepsSorted(s: seq<Record>, k: nat, r: Record)
    requires Sorted(s) && k <= |s|
    requires forall j :: 0 <= j < k ==> s[j].start <= r.start
    requires k < |s| ==> r.start < s[k].start
    ensures Sorted(s[..k] + [r] + s[k..])
    ensures multiset(s[..k] + [r] + s[k..]) == multiset(s) + multiset{r}
  {
    assert s == s[..k] + s[k..];
  }

  method Insert(s: seq<Record>, r: Record) returns (t: seq<Record>)
    requires Sorted(s)
    ensures Sorted(t) && multiset(t) == multiset(s) + multiset{r}
  {
    var k := 0;
    while k < |s| && s[k].start <= r.start
      invariant 0 <= k <= |s|
      invariant forall j :: 0 <= j < k ==> s[j].start <= r.start
    {
      k := k + 1;
    }
    InsertKeepsSorted(s, k, r);
    t := s[..k] + [r] + s[k..];
  }

  // qsort: some permutation in the order of StartingBlockCmp.
  method Qsort(files: seq<Record>) returns (sorted: seq<Record>)
    ensures Sorted(sorted) && multiset(sorted) == multiset(files)
  {
    sorted := [];
    var i := 0;
    while i < |files|
      invariant 0 <= i <= |files|
      invariant Sorted(sorted) && multiset(sorted) == multiset(files[..i])
    {
      assert files[..i + 1] == files[..i] + [files[i]];
      sorted := Insert(sorted, files[i]);
      i := i + 1;
    }
    assert files[..|files|] == files;
  }

  /** No deleted records, every name once, and the extents laid out. */
  ghost predicate DirectoryOk(dir: seq<Record>, numBlocks: nat) {
    var files := Files(dir);
    && |dir| == 64 && 2 <= numBlocks < MAX_BLOCKS
    && (forall r :: r in files ==> !IsDeleted(r))
    && (forall i, j :: 0 <= i < j < |files| ==> files[i].name != files[j].name)
    && Laid(files, numBlocks)
  }

  /** A new name with a fitting, non-empty extent keeps the directory in order. */
  lemma CreatedIsOk(before: seq<Record>, after: seq<Record>, numBlocks: nat, r: Record)
    requires DirectoryOk(before, numBlocks) && |after| == 64 && Files(after) == Files(before) + [r]
    requires !IsDeleted(r) && !Named(before, r.name)
    requires Fits(Files(before), numBlocks, r.start, r.reserved) && r.reserved > 0
    ensures DirectoryOk(after, numBlocks)
  {
    var was, now := Files(before), Files(after);
    AddedIsLaid(was, numBlocks, r);
    forall i, j | 0 <= i < j < |now|
      ensures now[i].name != now[j].name
    {
      if j == |was| {
        assert was[i] in was;
      }
    }
  }

  class Disk {
    const directory: array<Record>
    const numBlocks: nat

    /** No deleted records, and every extent in the data blocks, though some may be empty or overlap. */
    ghost predicate Readable()
      reads directory
    {
      && directory.Length == 64 && AllInData(Files(directory[..]), numBlocks)
      && forall r :: r in Files(directory[..]) ==> !IsDeleted(r)
    }

    ghost predicate Valid()
      reads directory
    {
      DirectoryOk(directory[..], numBlocks)
    }

    // A formatted disk of `disksize` MiB.
    constructor (disksize: nat)
      requires 4 <= disksize < 2 * MAX_BLOCKS
      ensures Valid() && fresh(directory) && numBlocks == disksize / 2 && Files(directory[..]) == []
    {
      directory := new Record[64](_ => Record("", 0, 0, 0));
      numBlocks := disksize / 2;
    }

    /** findfile: the first record of that name that is neither deleted nor past the end marker. */
    method FindFile(name: string) returns (slot: Option<nat>)
      ensures slot.Some? ==>
                && slot.value < |Files(directory[..])| && !IsDeleted(directory[slot.value])
                && directory[slot.value].name == name
                && forall i :: 0 <= i < slot.value ==> IsDeleted(directory[i]) || directory[i].name != name
      ensures slot.Some? <==> Named(directory[..], name)
    {
      ghost var dir := directory[..];
      var t := 0;
      while t < directory.Length
        invariant 0 <= t <= directory.Length
        invariant forall i :: 0 <= i < t ==>
                    directory[i].name != "" && (IsDeleted(directory[i]) || directory[i].name != name)
      {
        FilesSoFar(dir, t);
        if directory[t].name == "" {
          return None;
        } else if !IsDeleted(directory[t]) && directory[t].name == name {
          FilesSoFar(dir, t + 1);
          assert Files(dir)[t] == directory[t];
          return Some(t);
        }
        t := t + 1;
      }
      return None;
    }

    /** The records before the end marker, if there is one. */
    method CountUsed() returns (used: nat)
      ensures used == |Files(directory[..])|
    {
      used := 0;
      while used < directory.Length && directory[used].name != ""
        invariant 0 <= used <= directory.Length
        invariant forall i :: 0 <= i < used ==> directory[i].name != ""
      {
        used := used + 1;
      }
      FilesSoFar(directory[..], used);
    }

    method FindGap(sorted: seq<Record>, requested: nat) returns (start: nat)
      ensures start == GapSearch(sorted, 0, 1, numBlocks, requested)
    {
      start := 0;
      var prev, t := 1, 0;
      while t < |sorted| + 1
        invariant 0 <= t <= |sorted| + 1 && start == 0
        invariant GapSearch(sorted, 0, 1, numBlocks, requested) ==
                    if t <= |sorted| then GapSearch(sorted, t, prev, numBlocks, requested) else 0
      {
        var here := if t == |sorted| then Sub64(numBlocks, 1) else sorted[t].start;
        if Sub64(here, prev) >= requested {
          return prev;
        }
        if t < |sorted| {
          prev := End(sorted[t]);
        }
        t := t + 1;
      }
    }

    /** A record over the end marker, and the next one marked. */
    method AddFile(used: nat, r: Record)
      requires used == |Files(directory[..])| < directory.Length && r.name != ""
      modifies directory
      ensures Files(directory[..]) == old(Files(directory[..])) + [r]
    {
      directory[used] := r;
      if used + 1 < directory.Length {
        directory[used + 1] := directory[used + 1].(name := "");
      }
      FilesAdded(old(directory[..]), directory[..], used);
    }

    /**
      create: a new name gets an answer of the gap search, and a refusal changes nothing. On a disk
      that is laid out that answer is the lowest gap of that many blocks, the request is refused only
      if the directory has 64 files or there is no such gap, and the disk stays laid out unless the
      request reserves no block.
     */
    method Create(name: string, maxsize: nat) returns (outcome: Outcome)
      requires Readable() && maxsize < WORDS
      requires 1 <= |name| <= 31 && name[0] != 1 as char
      modifies directory
      ensures var files, n := old(Files(directory[..])), Blocks(maxsize);
              match outcome
              case Exists => old(Named(directory[..], name)) && directory[..] == old(directory[..])
              case DirectoryFull =>
                !old(Named(directory[..], name)) && |files| == 64 && directory[..] == old(directory[..])
              case NoRoom =>
                && !old(Named(directory[..], name)) && directory[..] == old(directory[..])
                && Answer(files, numBlocks, n, 0)
              case Created(s) =>
                && !old(Named(directory[..], name)) && s != 0 && Answer(files, numBlocks, n, s)
                && Files(directory[..]) == files + [Record(name, s, n, 0)]
      ensures var files, n := old(Files(directory[..])), Blocks(maxsize);
              old(Valid()) ==>
                && (outcome == NoRoom ==> forall s :: !Fits(files, numBlocks, s, n))
                && (outcome.Created? ==> LowestFit(files, numBlocks, outcome.start, n))
                && (!(outcome.Created? && n == 0) ==> Valid())
    {
      ghost var dir, files := directory[..], Files(directory[..]);
      var requested := (if maxsize % 2 != 0 then (maxsize + 1) % WORDS else maxsize) / 2;
      var slot := FindFile(name);
      if slot.Some? {
        assert directory[..] == dir;
        return Exists;
      }
      var used := CountUsed();
      if used == directory.Length {
        assert directory[..] == dir;
        return DirectoryFull;
      }
      assert directory[..used] == files;
      var sorted := Qsort(directory[..used]);
      var start := FindGap(sorted, requested);
      assert Answer(files, numBlocks, requested, start);
      if Laid(files, numBlocks) {
        AnswerIsRight(files, numBlocks, requested, start);
      }
      if start == 0 {
        assert directory[..] == dir;
        return NoRoom;
      }
      AddFile(used, Record(name, start, requested, 0));
      if DirectoryOk(dir, numBlocks) && requested > 0 {
        CreatedIsOk(dir, directory[..], numBlocks, Record(name, start, requested, 0));
      }
      return Created(start);
    }
  }

  /** An answer of the gap search for `n` blocks, on some copy of the files sorted by start. */
  ghost predicate Answer(files: seq<Record>, numBlocks: nat, n: nat, answer: nat) {
    exists sorted :: SortedCopy(files, sorted) && GapSearch(sorted, 0, 1, numBlocks, n) == answer
  }

  ghost predicate SortedCopy(files: seq<Record>, sorted: seq<Record>) {
    Sorted(sorted) && multiset(sorted) == multiset(files)
  }

  lemma AnswerIsRight(files: seq<Record>, numBlocks: nat, n: nat, answer: nat)
    requires Laid(files, numBlocks) && 2 <= numBlocks < MAX_BLOCKS && Answer(files, numBlocks, n, answer)
    ensures if answer == 0 then forall s :: !Fits(files, numBlocks, s, n) else LowestFit(files, numBlocks, answer, n)
  {
    var sorted :| SortedCopy(files, sorted) && GapSearch(sorted, 0, 1, numBlocks, n) == answer;
    GapFound(files, sorted, numBlocks, n);
  }

  lemma GapFound(files: seq<Record>, sorted: seq<Record>, numBlocks: nat, n: nat)
    requires Laid(files, numBlocks) && Sorted(sorted) && multiset(sorted) == multiset(files)
    requires 2 <= numBlocks < MAX_BLOCKS
    ensures var r := GapSearch(sorted, 0, 1, numBlocks, n);
            if r == 0 then forall s :: !Fits(files, numBlocks, s, n) else LowestFit(files, numBlocks, r, n)
  {
    SortedIsChained(files, sorted, numBlocks);
    SearchIsRight(sorted, numBlocks, n, 0);
    assert forall r :: r in files <==> r in sorted by {
      assert forall r :: r in files <==> r in multiset(files);
      assert forall r :: r in sorted <==> r in multiset(sorted);
    }
    forall s
      ensures Fits(files, numBlocks, s, n) <==> Fits(sorted, numBlocks, s, n)
    {
    }
  }

  lemma FilesHaveNames(dir: seq<Record>)
    ensures forall i :: 0 <= i < |Files(dir)| ==> dir[i].name != ""
  {
    forall i | 0 <= i < |Files(dir)|
      ensures dir[i].name != ""
    {
      assert Files(dir)[i] == dir[i];
    }
  }

  /** Writing over the end marker, and marking the next record, adds one file. */
  lemma FilesAdded(before: seq<Record>, after: seq<Record>, used: nat)
    requires used == |Files(before)| < |before| == |after| && after[used].name != ""
    requires forall i :: 0 <= i < used ==> after[i] == before[i]
    requires used + 1 < |after| ==> after[used + 1].name == ""
    ensures Files(after) == Files(before) + [after[used]]
  {
    FilesHaveNames(before);
    FilesSoFar(after, used + 1);
    assert |Files(after)| == used + 1;
    assert after[..used + 1] == before[..used] + [after[used]];
  }

  // ---- an empty file ----

  lemma LowestIsUnique(files: seq<Record>, numBlocks: nat, n: nat, s: nat, t: nat)
    requires LowestFit(files, numBlocks, s, n) && LowestFit(files, numBlocks, t, n)
    ensures s == t
  {
  }

  /** A record that fits its lowest gap is the one a request for it adds. */
  method CreateIn(disk: Disk, r: Record, maxsize: nat, ghost files: seq<Record>, ghost after: seq<Record>)
    requires disk.Valid() && maxsize < WORDS && 1 <= |r.name| <= 31 && r.name[0] != 1 as char
    requires files == Files(disk.directory[..]) && |files| < 64 && forall f :: f in files ==> f.name != r.name
    requires r.reserved == Blocks(maxsize) && r.size == 0 && after == files + [r]
    requires LowestFit(files, disk.numBlocks, r.start, r.reserved)
    modifies disk.directory
    ensures r.reserved > 0 ==> disk.Valid()
    ensures Files(disk.directory[..]) == after
  {
    var outcome := disk.Create(r.name, maxsize);
    if outcome.Created? {
      LowestIsUnique(files, disk.numBlocks, r.reserved, r.start, outcome.start);
    }
  }

  const FILE_B := Record("b", 1, 1, 0)
  const FILE_C := Record("c", 2, 1, 0)
  const FILE_A := Record("a", 1, 0, 0)

  const ONE_FILE := [FILE_B]
  const TWO_FILES := [FILE_B, FILE_C]
  const THREE_FILES := [FILE_B, FILE_C, FILE_A]

  lemma FirstFile()
    ensures LowestFit([], 8, 1, 1) && Blocks(2) == 1 && FILE_B.name[0] != 1 as char
    ensures ONE_FILE == [] + [FILE_B]
  {
  }

  lemma SecondFile()
    ensures |ONE_FILE| < 64 && LowestFit(ONE_FILE, 8, 2, 1) && FILE_C.name[0] != 1 as char
    ensures TWO_FILES == ONE_FILE + [FILE_C] && forall f :: f in ONE_FILE ==> f.name != FILE_C.name
  {
    assert FILE_B in ONE_FILE;
  }

  lemma ThirdFile()
    ensures |TWO_FILES| < 64 && LowestFit(TWO_FILES, 8, 1, 0) && Blocks(0) == 0 && FILE_A.name[0] != 1 as char
    ensures THREE_FILES == TWO_FILES + [FILE_A] && forall f :: f in TWO_FILES ==> f.name != FILE_A.name
  {
  }

  /**
    On a formatted disk of 8 blocks the files "b" and "c", of one block each, and then the empty "a"
    are created, in the only places they can get.
   */
  method CreateEmptyFile() returns (disk: Disk)
    ensures disk.numBlocks == 8 && Files(disk.directory[..]) == THREE_FILES
  {
    FirstFile();
    SecondFile();
    ThirdFile();
    disk := new Disk(16);
    CreateIn(disk, FILE_B, 2, [], ONE_FILE);
    CreateIn(disk, FILE_C, 2, ONE_FILE, TWO_FILES);
    CreateIn(disk, FILE_A, 0, TWO_FILES, THREE_FILES);
  }

  /** The three files are disjoint, but the next request may get the block of "c". */
  lemma EmptyFileBreaksTheSearch()
    ensures Apart(FILE_B, FILE_C) && Apart(FILE_B, FILE_A) && Apart(FILE_C, FILE_A)
    ensures Answer(THREE_FILES, 8, 1, FILE_C.start) && !Fits(THREE_FILES, 8, FILE_C.start, 1)
  {
    assert SortedCopy(THREE_FILES, [FILE_B, FILE_A, FILE_C]);
    assert GapSearch([FILE_B, FILE_A, FILE_C], 0, 1, 8, 1) == 2;
    assert FILE_C in THREE_FILES;
  }
}
