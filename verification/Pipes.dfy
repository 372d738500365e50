/**
  Pipes and the descriptors that refer to them: reference counts spread over the tables of all
  processes, readers that sleep on an empty pipe, and the stream of bytes through the buffer.
 */
module Pipes {
  import opened Basics
  import opened RingBuffer
  import opened Sequences
  import opened PipeRefs

  const PIPE_BUFFER_SIZE: nat := 1024
  const ENOENT: int := 2
  const EBADF: int := 9
  const EINVAL: int := 22

  datatype Pipe = Pipe(readers: nat, writers: nat, ring: Ring, sleepers: seq<Pid>) {
    function Count(end: End): nat {
      if end == ReadEnd then readers else writers
    }

    function WithCount(end: End, n: nat): Pipe {
      if end == ReadEnd then this.(readers := n) else this.(writers := n)
    }
  }

  /** Every counter is the number of descriptors, over all processes, that refer to its end. */
  ghost predicate CountsExact(t: Tables, pipes: map<PipeId, Pipe>) {
    && Sized(t)
    && (forall id, end :: id in pipes ==> pipes[id].Count(end) == |Refs(t, id, end)|)
    && (forall p, i :: p in t && 0 <= i < |t[p]| && t[p][i].FdPipe? ==> t[p][i].pipe in pipes)
  }

  /** The pipes after one of them gains a descriptor. */
  function Opened(pipes: map<PipeId, Pipe>, id: PipeId, end: End): map<PipeId, Pipe>
    requires id in pipes
  {
    pipes[id := pipes[id].WithCount(end, pipes[id].Count(end) + 1)]
  }

  /**
    Every pipe that was there keeps its ring, its sleepers, and its counters but for the opened
    end's, which rises by one. A new pipe has that one reference and no sleepers.
   */
  ghost predicate EndOpened(before: map<PipeId, Pipe>, after: map<PipeId, Pipe>, id: PipeId, end: End) {
    && after.Keys == before.Keys + {id}
    && (forall jd :: jd in before ==>
          after[jd] == before[jd].(
            readers := before[jd].readers + (if jd == id && end == ReadEnd then 1 else 0),
            writers := before[jd].writers + (if jd == id && end == WriteEnd then 1 else 0)))
    && (id !in before ==>
          && after[id].readers == (if end == ReadEnd then 1 else 0)
          && after[id].writers == (if end == WriteEnd then 1 else 0)
          && after[id].sleepers == [])
  }

  /** Opening an end moves no byte, puts nobody to sleep and wakes nobody; the logs of a new pipe are empty. */
  ghost function LogsOpened(logs: Logs, before: map<PipeId, Pipe>, id: PipeId): Logs {
    if id in before then logs
    else Logs(logs.sent[id := []], logs.got[id := []], logs.slept[id := []], logs.woke[id := []])
  }

  lemma OpenedDoes(pipes: map<PipeId, Pipe>, id: PipeId, end: End)
    requires id in pipes
    ensures EndOpened(pipes, Opened(pipes, id, end), id, end)
    ensures Opened(pipes, id, end)[id].ring == pipes[id].ring
  {
  }

  lemma NewOpenedDoes(pipes: map<PipeId, Pipe>, id: PipeId, pipe: Pipe, end: End)
    requires id !in pipes && pipe.readers == 0 && pipe.writers == 0 && pipe.sleepers == []
    ensures EndOpened(pipes, Opened(pipes[id := pipe], id, end), id, end)
    ensures Opened(pipes[id := pipe], id, end)[id].ring == pipe.ring
  {
  }

  lemma AddKeepsCounts(t: Tables, pipes: map<PipeId, Pipe>, p: Pid, i: nat, id: PipeId, end: End)
    requires CountsExact(t, pipes) && p in t && i < FD_MAX && !t[p][i].FdPipe? && id in pipes
    ensures CountsExact(SetFd(t, p, i, FdPipe(id, end)), Opened(pipes, id, end))
  {
    forall jd, e | jd in pipes
      ensures |Refs(SetFd(t, p, i, FdPipe(id, end)), jd, e)| ==
              pipes[jd].Count(e) + if jd == id && e == end then 1 else 0
    {
      RefsAfterSet(t, p, i, FdPipe(id, end), jd, e);
    }
  }

  lemma DropKeepsCounts(t: Tables, pipes: map<PipeId, Pipe>, p: Pid, i: nat)
    requires CountsExact(t, pipes) && p in t && i < FD_MAX && t[p][i].FdPipe?
    ensures var id, end := t[p][i].pipe, t[p][i].end;
            && id in pipes && pipes[id].Count(end) > 0
            && CountsExact(SetFd(t, p, i, FdNone), pipes[id := pipes[id].WithCount(end, pipes[id].Count(end) - 1)])
  {
    var id, end := t[p][i].pipe, t[p][i].end;
    RefsHas(t, id, end, p, i);
    forall jd, e | jd in pipes
      ensures |Refs(SetFd(t, p, i, FdNone), jd, e)| == pipes[jd].Count(e) - if jd == id && e == end then 1 else 0
    {
      RefsAfterSet(t, p, i, FdNone, jd, e);
    }
  }

  lemma PlainKeepsCounts(t: Tables, pipes: map<PipeId, Pipe>, p: Pid, i: nat, fd: Fd)
    requires CountsExact(t, pipes) && p in t && i < FD_MAX && !t[p][i].FdPipe? && !fd.FdPipe?
    ensures CountsExact(SetFd(t, p, i, fd), pipes)
  {
    forall jd, e | jd in pipes
      ensures |Refs(SetFd(t, p, i, fd), jd, e)| == pipes[jd].Count(e)
    {
      RefsAfterSet(t, p, i, fd, jd, e);
    }
  }

  /** A pipe that nobody refers to can go. */
  lemma FreeKeepsCounts(t: Tables, pipes: map<PipeId, Pipe>, id: PipeId)
    requires CountsExact(t, pipes) && id in pipes && pipes[id].readers == 0 && pipes[id].writers == 0
    ensures CountsExact(t, pipes - {id})
  {
    forall p, i | p in t && 0 <= i < |t[p]| && t[p][i].FdPipe?
      ensures t[p][i].pipe != id
    {
      var end := t[p][i].end;
      RefsHas(t, t[p][i].pipe, end, p, i);
      assert pipes[id].Count(ReadEnd) == 0 && pipes[id].Count(WriteEnd) == 0;
    }
  }

  lemma NewProcessKeepsCounts(t: Tables, pipes: map<PipeId, Pipe>, p: Pid, fds: seq<Fd>)
    requires CountsExact(t, pipes) && p !in t && |fds| == FD_MAX && forall i :: 0 <= i < |fds| ==> !fds[i].FdPipe?
    ensures CountsExact(t[p := fds], pipes)
  {
    forall jd, e | jd in pipes
      ensures Refs(t[p := fds], jd, e) == Refs(t, jd, e)
    {
      RefsNewProcess(t, p, fds, jd, e);
    }
  }

  lemma NewPipeKeepsCounts(t: Tables, pipes: map<PipeId, Pipe>, id: PipeId, pipe: Pipe)
    requires CountsExact(t, pipes) && id !in pipes && pipe.readers == 0 && pipe.writers == 0
    ensures CountsExact(t, pipes[id := pipe])
  {
  }

  // ---- sleepers and streams ----

  /** The readers that went to sleep on each pipe, in order: those woken, then those still asleep. */
  ghost predicate LinesSound(pipes: map<PipeId, Pipe>, slept: map<PipeId, seq<Pid>>, woke: map<PipeId, seq<Pid>>) {
    forall id :: id in pipes ==> id in slept && id in woke && slept[id] == woke[id] + pipes[id].sleepers
  }

  lemma LinesKept(before: map<PipeId, Pipe>, after: map<PipeId, Pipe>,
                  slept: map<PipeId, seq<Pid>>, woke: map<PipeId, seq<Pid>>)
    requires LinesSound(before, slept, woke)
    requires forall id :: id in after ==> id in before && after[id].sleepers == before[id].sleepers
    ensures LinesSound(after, slept, woke)
  {
  }

  /** Some readers arrive and some are woken at one pipe. */
  lemma LineMoves(pipes: map<PipeId, Pipe>, id: PipeId, sleepers: seq<Pid>, slept: map<PipeId, seq<Pid>>,
                  woke: map<PipeId, seq<Pid>>, arrived: seq<Pid>, woken: seq<Pid>)
    requires LinesSound(pipes, slept, woke) && id in pipes && pipes[id].sleepers + arrived == woken + sleepers
    ensures id in slept && id in woke
    ensures LinesSound(pipes[id := pipes[id].(sleepers := sleepers)],
                       slept[id := slept[id] + arrived], woke[id := woke[id] + woken])
  {
    var w, p := woke[id], pipes[id].sleepers;
    assert (w + p) + arrived == w + (p + arrived) == w + (woken + sleepers) == (w + woken) + sleepers;
  }

  lemma SleepersAre(before: map<PipeId, Pipe>, after: map<PipeId, Pipe>, id: PipeId, sleepers: seq<Pid>)
    requires id in before && after == before[id := before[id].(sleepers := sleepers)]
    ensures after[id].sleepers == sleepers && after == before[id := before[id].(sleepers := after[id].sleepers)]
  {
  }

  lemma HeadGoes(pipe: Pipe)
    requires pipe.sleepers != []
    ensures pipe.sleepers + [] == [pipe.sleepers[0]] + pipe.sleepers[1..]
    ensures SleepersSound(pipe) ==> SleepersSound(pipe.(sleepers := pipe.sleepers[1..]))
  {
  }

  lemma SameLog<T>(log: map<PipeId, seq<T>>, id: PipeId)
    requires id in log
    ensures log[id := log[id] + []] == log
  {
    assert log[id] + [] == log[id];
  }

  lemma NewLine(pipes: map<PipeId, Pipe>, id: PipeId, pipe: Pipe, slept: map<PipeId, seq<Pid>>,
                woke: map<PipeId, seq<Pid>>)
    requires LinesSound(pipes, slept, woke) && pipe.sleepers == []
    ensures LinesSound(WithPipe(pipes, id, pipe), slept[id := []], woke[id := []])
  {
  }

  /** No reader sleeps on a pipe without writers, and none is queued twice. */
  ghost predicate SleepersSound(pipe: Pipe) {
    Distinct(pipe.sleepers) && (pipe.sleepers != [] ==> pipe.writers > 0)
  }

  ghost predicate AllSleepersSound(pipes: map<PipeId, Pipe>) {
    forall id :: id in pipes ==> SleepersSound(pipes[id])
  }

  /** The bytes a pipe's ring holds. */
  ghost function Held(ring: Ring): seq<Byte>
    reads ring, ring.buf
  {
    if ring.Valid() then ring.Contents() else []
  }

  /** What was accepted is what was delivered, followed by what the ring still holds. */
  ghost predicate StreamSound(ring: Ring, sent: seq<Byte>, got: seq<Byte>)
    reads ring, ring.buf
  {
    ring.Valid() && ring.buf.Length == PIPE_BUFFER_SIZE && sent == got + Held(ring)
  }

  /** A read of up to `n` bytes moves the first `k` bytes of `data` to the front of `dst`. */
  ghost predicate Taken(data: seq<Byte>, left: seq<Byte>, dst: seq<Byte>, dst': seq<Byte>, n: nat, k: nat) {
    && k == Min(n, |data|) && k <= |dst|
    && dst' == data[..k] + dst[k..] && left == data[k..]
  }

  /** A write of up to `n` bytes appends as many of `src` as fit. */
  ghost predicate Given(data: seq<Byte>, more: seq<Byte>, src: seq<Byte>, n: nat, k: nat) {
    && |data| < PIPE_BUFFER_SIZE && k == Min(n, PIPE_BUFFER_SIZE - 1 - |data|) && k <= |src|
    && more == data + src[..k]
  }

  function Front(s: seq<Byte>, k: nat): seq<Byte> {
    if k <= |s| then s[..k] else s
  }

  /** One entry of a log grows by `more`. */
  predicate Logged<T(==)>(before: map<PipeId, seq<T>>, after: map<PipeId, seq<T>>, id: PipeId, more: seq<T>) {
    id in before && after == before[id := before[id] + more]
  }

  /** ringbuf_read on a pipe's ring. */
  method ReadHeld(ring: Ring, dst: array<Byte>, n: nat) returns (k: nat)
    requires ring.Valid() && n <= dst.Length && dst != ring.buf
    modifies ring`head, dst
    ensures ring.Valid() && Taken(old(Held(ring)), Held(ring), old(dst[..]), dst[..], n, k)
  {
    k := ring.Read(n, dst);
  }

  /** ringbuf_write on a pipe's ring. */
  method WriteHeld(ring: Ring, src: array<Byte>, n: nat) returns (k: nat)
    requires ring.Valid() && ring.buf.Length == PIPE_BUFFER_SIZE && n <= src.Length && src != ring.buf
    modifies ring`tail, ring.buf
    ensures ring.Valid() && Given(old(Held(ring)), Held(ring), src[..], n, k)
  {
    k := ring.Write(n, src);
    assert src[..][..k] == src[..k];
  }

  lemma NothingTaken(got: map<PipeId, seq<Byte>>, id: PipeId, dst: seq<Byte>, n: nat)
    requires id in got
    ensures Taken([], [], dst, dst, n, 0) && Logged(got, got, id, Front([], 0))
  {
    assert got[id] + [] == got[id];
  }

  lemma TakenMisses(data: seq<Byte>, n: nat, sleepers: seq<Pid>)
    ensures NobodyMisses(data[Min(n, |data|)..], sleepers) <==> NobodyMisses(data, sleepers) || n >= |data|
  {
    assert |data[Min(n, |data|)..]| == |data| - Min(n, |data|);
  }

  /** Nobody sleeps while there is data. */
  predicate NobodyMisses(data: seq<Byte>, sleepers: seq<Pid>) {
    data != [] ==> sleepers == []
  }

  ghost predicate RingsApart(pipes: map<PipeId, Pipe>) {
    forall id, jd :: id in pipes && jd in pipes && id != jd ==>
      pipes[id].ring != pipes[jd].ring && pipes[id].ring.buf != pipes[jd].ring.buf
  }

  function Rings(pipes: map<PipeId, Pipe>): set<Ring> {
    set id | id in pipes :: pipes[id].ring
  }

  function Buffers(pipes: map<PipeId, Pipe>): set<array<Byte>> {
    set id | id in pipes :: pipes[id].ring.buf
  }

  /** Each pipe has a ring of its own, and its stream is exact. */
  ghost predicate AllStreamsSound(pipes: map<PipeId, Pipe>, sent: map<PipeId, seq<Byte>>, got: map<PipeId, seq<Byte>>)
    reads Rings(pipes), Buffers(pipes)
  {
    && RingsApart(pipes)
    && forall id :: id in pipes ==> id in sent && id in got && StreamSound(pipes[id].ring, sent[id], got[id])
  }

  /** A stream that changed is exact again, and the others were not touched. */
  lemma StreamJoins(pipes: map<PipeId, Pipe>, id: PipeId, sent: map<PipeId, seq<Byte>>, got: map<PipeId, seq<Byte>>,
                    s: seq<Byte>, g: seq<Byte>)
    requires RingsApart(pipes) && id in pipes && AllStreamsSound(pipes - {id}, sent, got)
    requires StreamSound(pipes[id].ring, s, g)
    ensures AllStreamsSound(pipes, sent[id := s], got[id := g])
  {
    forall jd | jd in pipes && jd != id
      ensures jd in sent && jd in got && StreamSound(pipes[jd].ring, sent[jd], got[jd])
    {
      assert jd in pipes - {id};
    }
  }

  /** A new pipe on an empty ring of its own starts an empty stream. */
  lemma NewStream(pipes: map<PipeId, Pipe>, id: PipeId, pipe: Pipe, sent: map<PipeId, seq<Byte>>,
                  got: map<PipeId, seq<Byte>>)
    requires AllStreamsSound(pipes, sent, got) && id !in pipes && StreamSound(pipe.ring, [], [])
    requires pipe.ring !in Rings(pipes) && pipe.ring.buf !in Buffers(pipes)
    ensures AllStreamsSound(WithPipe(pipes, id, pipe), sent[id := []], got[id := []])
  {
    forall jd | jd in pipes
      ensures pipes[jd].ring in Rings(pipes) && pipes[jd].ring.buf in Buffers(pipes)
    {
    }
  }

  /** One pipe's ring is none of the others'. */
  lemma OthersApart(pipes: map<PipeId, Pipe>, id: PipeId)
    requires RingsApart(pipes) && id in pipes
    ensures pipes[id].ring !in Rings(pipes - {id}) && pipes[id].ring.buf !in Buffers(pipes - {id})
    ensures Buffers(pipes - {id}) <= Buffers(pipes) && SameRings(pipes, pipes - {id})
  {
  }

  /** The first `k` bytes of the ring's `data` were delivered. */
  lemma TakenJoins(pipes: map<PipeId, Pipe>, id: PipeId, sent: map<PipeId, seq<Byte>>, got: map<PipeId, seq<Byte>>,
                   data: seq<Byte>, k: nat)
    requires RingsApart(pipes) && id in pipes && AllStreamsSound(pipes - {id}, sent, got) && id in sent && id in got
    requires pipes[id].ring.Valid() && pipes[id].ring.buf.Length == PIPE_BUFFER_SIZE && sent[id] == got[id] + data
    requires k <= |data| && Held(pipes[id].ring) == data[k..]
    ensures AllStreamsSound(pipes, sent, got[id := got[id] + data[..k]])
  {
    assert sent[id] == (got[id] + data[..k]) + data[k..];
    StreamJoins(pipes, id, sent, got, sent[id], got[id] + data[..k]);
    assert sent[id := sent[id]] == sent;
  }

  /** The bytes `given` were appended to the ring's `data`. */
  lemma GivenJoins(pipes: map<PipeId, Pipe>, id: PipeId, sent: map<PipeId, seq<Byte>>, got: map<PipeId, seq<Byte>>,
                   data: seq<Byte>, given: seq<Byte>)
    requires RingsApart(pipes) && id in pipes && AllStreamsSound(pipes - {id}, sent, got) && id in sent && id in got
    requires pipes[id].ring.Valid() && pipes[id].ring.buf.Length == PIPE_BUFFER_SIZE && sent[id] == got[id] + data
    requires Held(pipes[id].ring) == data + given
    ensures AllStreamsSound(pipes, sent[id := sent[id] + given], got)
  {
    assert sent[id] + given == got[id] + (data + given);
    StreamJoins(pipes, id, sent, got, sent[id] + given, got[id]);
    assert got[id := got[id]] == got;
  }

  /** Only counters may differ. */
  predicate SameButCounters(before: map<PipeId, Pipe>, after: map<PipeId, Pipe>) {
    && after.Keys == before.Keys
    && forall id :: id in after ==>
         after[id] == before[id].(readers := after[id].readers, writers := after[id].writers)
  }

  lemma CountersJoin(a: map<PipeId, Pipe>, b: map<PipeId, Pipe>, c: map<PipeId, Pipe>)
    requires SameButCounters(a, b) && SameButCounters(b, c)
    ensures SameButCounters(a, c) && SameRings(a, c)
  {
  }

  lemma OpenedCounts(pipes: map<PipeId, Pipe>, id: PipeId, end: End)
    requires id in pipes
    ensures SameButCounters(pipes, Opened(pipes, id, end))
  {
  }

  /** The pipes that are left have the rings they had. */
  predicate SameRings(before: map<PipeId, Pipe>, after: map<PipeId, Pipe>) {
    forall id :: id in after ==> id in before && after[id].ring == before[id].ring
  }

  /** Streams depend on the rings alone. */
  lemma StreamsKept(before: map<PipeId, Pipe>, after: map<PipeId, Pipe>,
                    sent: map<PipeId, seq<Byte>>, got: map<PipeId, seq<Byte>>)
    requires AllStreamsSound(before, sent, got) && SameRings(before, after)
    ensures AllStreamsSound(after, sent, got)
  {
  }

  ghost predicate Referenced(pipes: map<PipeId, Pipe>) {
    forall id :: id in pipes ==> pipes[id].readers + pipes[id].writers > 0
  }

  /** Every pipe but `id`, which may be new, is referred to. */
  ghost predicate OthersReferenced(pipes: map<PipeId, Pipe>, id: PipeId) {
    Referenced(pipes - {id})
  }

  function WithPipe(pipes: map<PipeId, Pipe>, id: PipeId, pipe: Pipe): map<PipeId, Pipe> {
    pipes[id := pipe]
  }

  /** A pipe nobody refers to yet. */
  lemma NewPipeSound(t: Tables, pipes: map<PipeId, Pipe>, freed: set<PipeId>, id: PipeId, pipe: Pipe)
    requires CountsExact(t, pipes) && AllSleepersSound(pipes) && Referenced(pipes) && freed !! pipes.Keys
    requires id !in pipes && id !in freed
    requires pipe.readers == 0 && pipe.writers == 0 && pipe.sleepers == []
    ensures CountsExact(t, WithPipe(pipes, id, pipe)) && AllSleepersSound(WithPipe(pipes, id, pipe))
    ensures OthersReferenced(WithPipe(pipes, id, pipe), id)
    ensures WithPipe(pipes, id, pipe).Keys == pipes.Keys + {id} && freed !! WithPipe(pipes, id, pipe).Keys
  {
    NewPipeKeepsCounts(t, pipes, id, pipe);
    assert pipes[id := pipe] - {id} == pipes;
  }

  lemma OthersAre(pipes: map<PipeId, Pipe>, id: PipeId)
    requires Referenced(pipes)
    ensures OthersReferenced(pipes, id)
    ensures id in pipes ==> pipes.Keys == pipes.Keys + {id}
  {
  }

  lemma FirstReference(pipes: map<PipeId, Pipe>, id: PipeId, end: End)
    requires id in pipes && OthersReferenced(pipes, id)
    ensures Referenced(Opened(pipes, id, end)) && SameRings(pipes, Opened(pipes, id, end))
    ensures Opened(pipes, id, end).Keys == pipes.Keys
  {
    forall jd | jd in pipes && jd != id
      ensures pipes[jd].readers + pipes[jd].writers > 0
    {
      assert jd in pipes - {id};
    }
  }

  /** A pipe after one of its ends loses a descriptor: at the last writer all sleepers wake. */
  function Closed(pipe: Pipe, end: End): Pipe {
    var less := pipe.WithCount(end, if pipe.Count(end) > 0 then pipe.Count(end) - 1 else 0);
    if end == WriteEnd && less.writers == 0 then less.(sleepers := []) else less
  }

  /** The pipes after that: the pipe goes away with its last descriptor. */
  function AfterClose(pipes: map<PipeId, Pipe>, id: PipeId, end: End): map<PipeId, Pipe>
    requires id in pipes
  {
    var c := Closed(pipes[id], end);
    if c.readers == 0 && c.writers == 0 then pipes - {id} else pipes[id := c]
  }

  /** The readers that a close wakes: all of them when the last writer goes. */
  function Awoken(pipe: Pipe, end: End): seq<Pid> {
    if end == WriteEnd && pipe.writers <= 1 then pipe.sleepers else []
  }

  /**
    A close lowers one counter. The last writer wakes every sleeper and no other close wakes anybody;
    ring and other pipes stay, and the pipe goes exactly with its last descriptor.
   */
  lemma CloseDoes(pipes: map<PipeId, Pipe>, id: PipeId, end: End)
    requires id in pipes && pipes[id].Count(end) > 0
    ensures var before, after, woken := pipes[id], AfterClose(pipes, id, end), Awoken(pipes[id], end);
            var readers := before.readers - if end == ReadEnd then 1 else 0;
            var writers := before.writers - if end == WriteEnd then 1 else 0;
            && (id !in after <==> readers == 0 && writers == 0)
            && (id in after ==>
                  && after[id].readers == readers && after[id].writers == writers && after[id].ring == before.ring
                  && woken + after[id].sleepers == before.sleepers)
            && woken == (if end == WriteEnd && writers == 0 then before.sleepers else [])
            && after.Keys + {id} == pipes.Keys
            && forall jd :: jd in pipes && jd != id ==> jd in after && after[jd] == pipes[jd]
  {
  }

  lemma CloseKeepsLines(pipes: map<PipeId, Pipe>, id: PipeId, end: End,
                        slept: map<PipeId, seq<Pid>>, woke: map<PipeId, seq<Pid>>)
    requires LinesSound(pipes, slept, woke) && id in pipes && pipes[id].Count(end) > 0
    ensures id in woke
    ensures LinesSound(AfterClose(pipes, id, end), slept, woke[id := woke[id] + Awoken(pipes[id], end)])
  {
    CloseDoes(pipes, id, end);
  }

  lemma NobodyRefersIff(t: Tables, pipes: map<PipeId, Pipe>, id: PipeId)
    requires CountsExact(t, pipes) && id in pipes
    ensures pipes[id].readers == 0 && pipes[id].writers == 0 <==>
            Refs(t, id, ReadEnd) == {} && Refs(t, id, WriteEnd) == {}
  {
  }

  /** Counters are all that CountsExact looks at. */
  lemma OnlyCountersCount(t: Tables, pipes: map<PipeId, Pipe>, id: PipeId, a: Pipe, b: Pipe)
    requires CountsExact(t, pipes[id := a]) && b.readers == a.readers && b.writers == a.writers
    ensures CountsExact(t, pipes[id := b])
  {
  }

  /** A descriptor goes: the counters stay exact, nobody sleeps without a writer, and no ring changes hands. */
  lemma DropSound(t: Tables, pipes: map<PipeId, Pipe>, p: Pid, i: nat)
    requires CountsExact(t, pipes) && AllSleepersSound(pipes) && p in t && i < FD_MAX && t[p][i].FdPipe?
    ensures var id, end := t[p][i].pipe, t[p][i].end;
            && id in pipes && pipes[id].Count(end) > 0
            && CountsExact(SetFd(t, p, i, FdNone), pipes[id := Closed(pipes[id], end)])
            && AllSleepersSound(pipes[id := Closed(pipes[id], end)])
            && SameRings(pipes, pipes[id := Closed(pipes[id], end)])
  {
    var id, end := t[p][i].pipe, t[p][i].end;
    DropKeepsCounts(t, pipes, p, i);
    OnlyCountersCount(SetFd(t, p, i, FdNone), pipes, id,
                      pipes[id].WithCount(end, pipes[id].Count(end) - 1), Closed(pipes[id], end));
    assert SleepersSound(pipes[id]);
  }

  /** Those asleep stay asleep, but on a pipe without writers. */
  ghost predicate SleepersLeft(before: map<PipeId, Pipe>, after: map<PipeId, Pipe>) {
    forall id :: id in after ==>
      && id in before && after[id].writers <= before[id].writers
      && after[id].sleepers == if after[id].writers > 0 then before[id].sleepers else []
  }

  lemma LeftAlone(pipes: map<PipeId, Pipe>)
    requires AllSleepersSound(pipes)
    ensures SleepersLeft(pipes, pipes)
  {
    forall id | id in pipes
      ensures pipes[id].writers == 0 ==> pipes[id].sleepers == []
    {
      assert SleepersSound(pipes[id]);
    }
  }

  lemma CloseLeaves(pipes: map<PipeId, Pipe>, id: PipeId, end: End)
    requires AllSleepersSound(pipes) && id in pipes && pipes[id].Count(end) > 0
    ensures SleepersLeft(pipes, AfterClose(pipes, id, end)) && SameRings(pipes, AfterClose(pipes, id, end))
    ensures pipes.Keys - AfterClose(pipes, id, end).Keys == if id in AfterClose(pipes, id, end) then {} else {id}
  {
    CloseDoes(pipes, id, end);
    LeftAlone(pipes);
  }

  lemma LeftTwice(a: map<PipeId, Pipe>, b: map<PipeId, Pipe>, c: map<PipeId, Pipe>)
    requires SleepersLeft(a, b) && SleepersLeft(b, c) && SameRings(a, b) && SameRings(b, c)
    ensures SleepersLeft(a, c) && SameRings(a, c)
  {
  }

  /** After the death of `p` its sleeps are over, and so are all those on pipes without writers. */
  ghost predicate LeftBy(before: map<PipeId, Pipe>, after: map<PipeId, Pipe>, p: Pid) {
    && SameRings(before, after)
    && forall id :: id in after ==>
         && p !in after[id].sleepers
         && after[id].sleepers == if after[id].writers > 0 then Without(before[id].sleepers, p) else []
  }

  /** A process leaves every queue, and then the sleepers of the pipes without writers are woken. */
  lemma Left(before: map<PipeId, Pipe>, between: map<PipeId, Pipe>, after: map<PipeId, Pipe>, p: Pid)
    requires between == Quit(before, p) && SleepersLeft(between, after) && SameRings(between, after)
    requires forall id :: id in between ==> p !in between[id].sleepers
    ensures LeftBy(before, after, p)
  {
  }

  function Quit(pipes: map<PipeId, Pipe>, p: Pid): map<PipeId, Pipe> {
    map id | id in pipes :: pipes[id].(sleepers := Without(pipes[id].sleepers, p))
  }

  lemma QuitSound(t: Tables, pipes: map<PipeId, Pipe>, p: Pid)
    requires CountsExact(t, pipes) && AllSleepersSound(pipes)
    ensures CountsExact(t, Quit(pipes, p)) && AllSleepersSound(Quit(pipes, p))
    ensures forall id :: id in Quit(pipes, p) ==> p !in Quit(pipes, p)[id].sleepers
  {
    forall id | id in pipes
      ensures SleepersSound(Quit(pipes, p)[id]) && p !in Quit(pipes, p)[id].sleepers
    {
      assert SleepersSound(pipes[id]);
      WithoutDistinct(pipes[id].sleepers, p);
    }
    forall id, e | id in pipes
      ensures Quit(pipes, p)[id].Count(e) == |Refs(t, id, e)|
    {
      assert pipes[id].Count(e) == |Refs(t, id, e)|;
    }
  }

  /** The arrivals without the sleep that `p` is in. */
  function Struck(pipes: map<PipeId, Pipe>, woke: map<PipeId, seq<Pid>>, p: Pid): map<PipeId, seq<Pid>>
    requires forall id :: id in pipes ==> id in woke
  {
    map id | id in pipes :: woke[id] + Without(pipes[id].sleepers, p)
  }

  /** The pipes that are gone are freed now, and were not before. */
  ghost predicate FreedBy(freed: set<PipeId>, before: map<PipeId, Pipe>, freed': set<PipeId>,
                          after: map<PipeId, Pipe>) {
    after.Keys <= before.Keys && freed' == freed + (before.Keys - after.Keys)
  }

  lemma FreedTwice(f: set<PipeId>, a: map<PipeId, Pipe>, g: set<PipeId>, b: map<PipeId, Pipe>,
                   h: set<PipeId>, c: map<PipeId, Pipe>)
    requires FreedBy(f, a, g, b) && FreedBy(g, b, h, c)
    ensures FreedBy(f, a, h, c)
  {
  }

  /** The bytes accepted and delivered, and the readers put to sleep and woken, in order. */
  datatype Logs = Logs(
    sent: map<PipeId, seq<Byte>>,
    got: map<PipeId, seq<Byte>>,
    slept: map<PipeId, seq<Pid>>,
    woke: map<PipeId, seq<Pid>>)

  /** What a ring holds is told by the logs. */
  lemma HeldIs(pipes: map<PipeId, Pipe>, sent: map<PipeId, seq<Byte>>, got: map<PipeId, seq<Byte>>)
    requires AllStreamsSound(pipes, sent, got)
    ensures forall id :: id in pipes ==>
              id in sent && id in got && Held(pipes[id].ring) == Since(sent[id], got[id])
  {
  }

  function Since(sent: seq<Byte>, got: seq<Byte>): seq<Byte> {
    if |got| <= |sent| then sent[|got|..] else []
  }

  class PipeTable {
    var fds: Tables
    var pipes: map<PipeId, Pipe>

    ghost var freed: set<PipeId>
    ghost var sent: map<PipeId, seq<Byte>>
    ghost var got: map<PipeId, seq<Byte>>
    ghost var slept: map<PipeId, seq<Pid>>
    ghost var woke: map<PipeId, seq<Pid>>

    /** Everything but that each pipe is referred to. */
    ghost predicate Core()
      reads this`fds, this`pipes, this`freed
    {
      && CountsExact(fds, pipes)
      && AllSleepersSound(pipes)
      && freed !! pipes.Keys
    }

    ghost predicate Valid()
      reads this`fds, this`pipes, this`freed
    {
      Core() && Referenced(pipes)
    }

    /** The counters and sleepers, the streams through the rings, and the lines of the readers. */
    ghost predicate Sound()
      reads this, Rings(pipes), Buffers(pipes)
    {
      Valid() && AllStreamsSound(pipes, sent, got) && LinesSound(pipes, slept, woke)
    }

    /** Readers are woken in the order in which they went to sleep. */
    lemma FirstToSleepFirstWoken(id: PipeId)
      requires Sound() && id in pipes
      ensures id in slept && id in woke && |woke[id]| <= |slept[id]|
      ensures woke[id] == slept[id][..|woke[id]|] && pipes[id].sleepers == slept[id][|woke[id]|..]
    {
    }

    constructor ()
      ensures Sound() && fds == map[] && pipes == map[] && freed == {}
    {
      fds, pipes := map[], map[];
      freed := {};
      sent, got := map[], map[];
      slept, woke := map[], map[];
    }

    // find_free_fd
    method FindFreeFd(p: Pid) returns (i: int)
      requires Sized(fds) && p in fds
      ensures -1 <= i < FD_MAX
      ensures i >= 0 ==> fds[p][i] == FdNone && forall j :: 0 <= j < i ==> fds[p][j] != FdNone
      ensures i == -1 ==> FdNone !in fds[p]
    {
      i := 0;
      while i < FD_MAX
        invariant 0 <= i <= FD_MAX && forall j :: 0 <= j < i ==> fds[p][j] != FdNone
      {
        if fds[p][i] == FdNone {
          return;
        }
        i := i + 1;
      }
      i := -1;
    }

    /** add_ref, with the descriptor that now refers to the end. */
    method Attach(p: Pid, i: nat, id: PipeId, end: End)
      requires Core() && p in fds && i < FD_MAX && !fds[p][i].FdPipe? && id in pipes
      modifies this`fds, this`pipes
      ensures Core()
      ensures fds == SetFd(old(fds), p, i, FdPipe(id, end))
      ensures pipes == Opened(old(pipes), id, end)
    {
      AddKeepsCounts(fds, pipes, p, i, id, end);
      assert SleepersSound(pipes[id]);
      AddEnd(p, i, id, end);
    }

    method AddEnd(p: Pid, i: nat, id: PipeId, end: End)
      requires p in fds && i < |fds[p]| && id in pipes
      modifies this`fds, this`pipes
      ensures fds == SetFd(old(fds), p, i, FdPipe(id, end))
      ensures pipes == Opened(old(pipes), id, end)
    {
      if end == ReadEnd {
        pipes := pipes[id := pipes[id].(readers := pipes[id].readers + 1)];
      } else {
        pipes := pipes[id := pipes[id].(writers := pipes[id].writers + 1)];
      }
      fds := fds[p := fds[p][i := FdPipe(id, end)]];
    }

    // pipe_close_read and pipe_close_write
    method CloseEnd(p: Pid, i: nat, id: PipeId, end: End)
      requires Valid() && LinesSound(pipes, slept, woke) && p in fds && i < FD_MAX && fds[p][i] == FdPipe(id, end)
      modifies this`fds, this`pipes, this`freed, this`woke
      ensures Valid() && LinesSound(pipes, slept, woke)
      ensures id in old(pipes) && old(pipes)[id].Count(end) > 0
      ensures Logged(old(woke), woke, id, Awoken(old(pipes)[id], end))
      ensures fds == SetFd(old(fds), p, i, FdNone)
      ensures id in old(pipes) && id !in old(freed) && pipes == AfterClose(old(pipes), id, end)
      ensures freed == if id in pipes then old(freed) else old(freed) + {id}
      ensures id !in pipes <==> Refs(fds, id, ReadEnd) == {} && Refs(fds, id, WriteEnd) == {}
    {
      RefsHas(fds, id, end, p, i);
      CloseKeepsLines(pipes, id, end, slept, woke);
      woke := woke[id := woke[id] + Awoken(pipes[id], end)];
      CloseCounted(p, i, id, end);
    }

    method CloseCounted(p: Pid, i: nat, id: PipeId, end: End)
      requires Valid() && p in fds && i < FD_MAX && fds[p][i] == FdPipe(id, end)
      modifies this`fds, this`pipes, this`freed
      ensures Valid()
      ensures fds == SetFd(old(fds), p, i, FdNone)
      ensures id in old(pipes) && id !in old(freed) && pipes == AfterClose(old(pipes), id, end)
      ensures freed == if id in pipes then old(freed) else old(freed) + {id}
      ensures id !in pipes <==> Refs(fds, id, ReadEnd) == {} && Refs(fds, id, WriteEnd) == {}
    {
      DropSound(fds, pipes, p, i);
      DropEnd(p, i, id, end);
      NobodyRefersIff(fds, pipes, id);
      if pipes[id].readers == 0 && pipes[id].writers == 0 {
        PipeFree(id);
      }
    }

    /** The counter goes down, the descriptor is cleared, and the last writer wakes the readers. */
    method DropEnd(p: Pid, i: nat, id: PipeId, end: End)
      requires p in fds && i < |fds[p]| && id in pipes
      modifies this`fds, this`pipes
      ensures fds == SetFd(old(fds), p, i, FdNone)
      ensures pipes == old(pipes)[id := Closed(old(pipes)[id], end)]
    {
      var pipe := pipes[id];
      if end == ReadEnd {
        if pipe.readers > 0 {
          pipe := pipe.(readers := pipe.readers - 1);
        }
      } else {
        if pipe.writers > 0 {
          pipe := pipe.(writers := pipe.writers - 1);
        }
        if pipe.writers == 0 {
          pipe := pipe.(sleepers := []);
        }
      }
      fds := fds[p := fds[p][i := FdNone]];
      pipes := pipes[id := pipe];
    }

    // pipe_free
    method PipeFree(id: PipeId)
      requires Core() && id in pipes && pipes[id].readers == 0 && pipes[id].writers == 0
      modifies this`pipes, this`freed
      ensures Core()
      ensures id !in old(freed) && pipes == old(pipes) - {id} && freed == old(freed) + {id}
    {
      FreeKeepsCounts(fds, pipes, id);
      pipes := pipes - {id};
      freed := freed + {id};
    }

    /** The close operation of a descriptor's end, if it has one, and the descriptor cleared. */
    method CloseEntry(p: Pid, i: nat)
      requires Valid() && LinesSound(pipes, slept, woke) && p in fds && i < FD_MAX
      modifies this`fds, this`pipes, this`freed, this`woke
      ensures Valid() && LinesSound(pipes, slept, woke)
      ensures fds == SetFd(old(fds), p, i, FdNone)
      ensures !old(fds)[p][i].FdPipe? ==> pipes == old(pipes) && freed == old(freed) && woke == old(woke)
      ensures old(fds)[p][i].FdPipe? ==>
                var id, end := old(fds)[p][i].pipe, old(fds)[p][i].end;
                && id in old(pipes) && old(pipes)[id].Count(end) > 0
                && id !in old(freed) && pipes == AfterClose(old(pipes), id, end)
                && freed == (if id in pipes then old(freed) else old(freed) + {id})
                && (id !in pipes <==> Refs(fds, id, ReadEnd) == {} && Refs(fds, id, WriteEnd) == {})
                && Logged(old(woke), woke, id, Awoken(old(pipes)[id], end))
      ensures FreedBy(old(freed), old(pipes), freed, pipes) && SameRings(old(pipes), pipes)
      ensures SleepersLeft(old(pipes), pipes)
    {
      var fd := fds[p][i];
      if fd.FdPipe? {
        CloseEnd(p, i, fd.pipe, fd.end);
        CloseLeaves(old(pipes), fd.pipe, fd.end);
      } else {
        PlainKeepsCounts(fds, pipes, p, i, FdNone);
        LeftAlone(pipes);
        fds := fds[p := fds[p][i := FdNone]];
      }
    }

    // sys_close_fd
    method SysCloseFd(me: Pid, fd: int) returns (code: int)
      requires Sound() && me in fds
      modifies this`fds, this`pipes, this`freed, this`woke
      ensures Sound()
      ensures code == if 0 <= fd < FD_MAX then 0 else -EINVAL
      ensures fds == if 0 <= fd < FD_MAX then SetFd(old(fds), me, fd, FdNone) else old(fds)
      ensures FreedBy(old(freed), old(pipes), freed, pipes)
      ensures if 0 <= fd < FD_MAX && old(fds)[me][fd].FdPipe? then
                var id, end := old(fds)[me][fd].pipe, old(fds)[me][fd].end;
                && id in old(pipes) && old(pipes)[id].Count(end) > 0 && pipes == AfterClose(old(pipes), id, end)
                && Logged(old(woke), woke, id, Awoken(old(pipes)[id], end))
              else
                pipes == old(pipes) && woke == old(woke)
    {
      if fd < 0 || fd >= FD_MAX {
        return -EINVAL;
      }
      ghost var before := pipes;
      CloseEntry(me, fd);
      StreamsKept(before, pipes, sent, got);
      return 0;
    }

    /**
      sys_pipe_open: the lowest free descriptor, and the pipe made if it does not exist yet and
      there is `room` for it.
     */
    method SysPipeOpen(me: Pid, id: PipeId, end: End, room: bool) returns (fd: int)
      requires Sound() && me in fds && id !in freed
      modifies this
      ensures Sound() && freed == old(freed)
      ensures fd == -ENOENT <==> FdNone !in old(fds)[me]
      ensures fd == -1 <==> FdNone in old(fds)[me] && id !in old(pipes) && !room
      ensures fd < 0 ==> fd in {-1, -ENOENT} && fds == old(fds) && pipes == old(pipes)
      ensures fd < 0 ==> AllLogs() == old(AllLogs())
      ensures fd >= 0 ==> fd < FD_MAX && old(fds)[me][fd] == FdNone && fds == SetFd(old(fds), me, fd, FdPipe(id, end))
      ensures fd >= 0 ==> forall j :: 0 <= j < fd ==> old(fds)[me][j] != FdNone
      ensures fd >= 0 ==> EndOpened(old(pipes), pipes, id, end)
      ensures fd >= 0 ==> AllLogs() == LogsOpened(old(AllLogs()), old(pipes), id)
      ensures fd >= 0 ==> forall jd :: jd in pipes ==>
                Held(pipes[jd].ring) == if jd in old(pipes) then old(Held(pipes[jd].ring)) else []
    {
      var i := FindFreeFd(me);
      if i < 0 {
        return -ENOENT;
      }
      assert fds[me][i] in fds[me];
      var res := OpenPipe(me, i, id, end, room);
      return if res < 0 then res else i;
    }

    /** open_pipe on the free descriptor `i`. */
    method OpenPipe(me: Pid, i: nat, id: PipeId, end: End, room: bool) returns (res: int)
      requires Sound() && me in fds && i < FD_MAX && fds[me][i] == FdNone && id !in freed
      modifies this
      ensures Sound() && freed == old(freed)
      ensures res == if id in old(pipes) || room then 0 else -1
      ensures res < 0 ==> fds == old(fds) && pipes == old(pipes)
      ensures res < 0 ==> AllLogs() == old(AllLogs())
      ensures res == 0 ==> fds == SetFd(old(fds), me, i, FdPipe(id, end))
      ensures res == 0 ==> EndOpened(old(pipes), pipes, id, end)
      ensures res == 0 ==> AllLogs() == LogsOpened(old(AllLogs()), old(pipes), id)
      ensures res == 0 ==> forall jd :: jd in pipes ==>
                Held(pipes[jd].ring) == if jd in old(pipes) then old(Held(pipes[jd].ring)) else []
    {
      HeldIs(pipes, sent, got);
      res := FindOrMake(me, i, id, end, room);
      HeldIs(pipes, sent, got);
    }

    /** The body of open_pipe; what the rings hold is left to the logs. */
    method FindOrMake(me: Pid, i: nat, id: PipeId, end: End, room: bool) returns (res: int)
      requires Sound() && me in fds && i < FD_MAX && fds[me][i] == FdNone && id !in freed
      modifies this
      ensures Sound() && freed == old(freed)
      ensures res == if id in old(pipes) || room then 0 else -1
      ensures res < 0 ==> fds == old(fds) && pipes == old(pipes) && AllLogs() == old(AllLogs())
      ensures res == 0 ==> fds == SetFd(old(fds), me, i, FdPipe(id, end))
      ensures res == 0 ==>
                EndOpened(old(pipes), pipes, id, end) && AllLogs() == LogsOpened(old(AllLogs()), old(pipes), id)
    {
      if id in pipes {
        OpenFound(me, i, id, end);
      } else if room {
        OpenNew(me, i, id, end);
      } else {
        return -1;
      }
      return 0;
    }

    /** The pipe was found. */
    method OpenFound(me: Pid, i: nat, id: PipeId, end: End)
      requires Sound() && me in fds && i < FD_MAX && fds[me][i] == FdNone && id in pipes
      modifies this`fds, this`pipes
      ensures Sound() && fds == SetFd(old(fds), me, i, FdPipe(id, end))
      ensures EndOpened(old(pipes), pipes, id, end) && AllLogs() == LogsOpened(old(AllLogs()), old(pipes), id)
    {
      OthersAre(pipes, id);
      OpenedDoes(pipes, id, end);
      FirstEnd(me, i, id, end);
    }

    /** The pipe is made first. */
    method OpenNew(me: Pid, i: nat, id: PipeId, end: End)
      requires Sound() && me in fds && i < FD_MAX && fds[me][i] == FdNone && id !in pipes && id !in freed
      modifies this`fds, this`pipes, this`sent, this`got, this`slept, this`woke
      ensures Sound() && fds == SetFd(old(fds), me, i, FdPipe(id, end))
      ensures EndOpened(old(pipes), pipes, id, end) && AllLogs() == LogsOpened(old(AllLogs()), old(pipes), id)
    {
      CreatePipe(id);
      NewOpenedDoes(old(pipes), id, pipes[id], end);
      FirstEnd(me, i, id, end);
    }

    ghost function AllLogs(): Logs
      reads this`sent, this`got, this`slept, this`woke
    {
      Logs(sent, got, slept, woke)
    }

    /** Attach, for a pipe that may be new and referred to by nobody yet. */
    method FirstEnd(p: Pid, i: nat, id: PipeId, end: End)
      requires Core() && AllStreamsSound(pipes, sent, got) && LinesSound(pipes, slept, woke)
      requires OthersReferenced(pipes, id) && p in fds && i < FD_MAX && !fds[p][i].FdPipe? && id in pipes
      modifies this`fds, this`pipes
      ensures Sound() && fds == SetFd(old(fds), p, i, FdPipe(id, end))
      ensures pipes == Opened(old(pipes), id, end) && pipes.Keys == old(pipes).Keys
    {
      FirstReference(pipes, id, end);
      StreamsKept(pipes, Opened(pipes, id, end), sent, got);
      LinesKept(pipes, Opened(pipes, id, end), slept, woke);
      Attach(p, i, id, end);
    }

    // create_pipe
    method CreatePipe(id: PipeId)
      requires Sound() && id !in pipes && id !in freed
      modifies this`pipes, this`sent, this`got, this`slept, this`woke
      ensures Core() && AllStreamsSound(pipes, sent, got) && LinesSound(pipes, slept, woke)
      ensures OthersReferenced(pipes, id)
      ensures id in pipes && pipes == old(pipes)[id := Pipe(0, 0, pipes[id].ring, [])]
      ensures pipes.Keys == old(pipes).Keys + {id}
      ensures fresh(pipes[id].ring) && fresh(pipes[id].ring.buf) && Held(pipes[id].ring) == []
      ensures sent == old(sent)[id := []] && got == old(got)[id := []]
      ensures slept == old(slept)[id := []] && woke == old(woke)[id := []]
    {
      var ring := new Ring(PIPE_BUFFER_SIZE);
      AddPipe(id, ring);
    }

    /** A pipe on an empty ring of its own enters the table. */
    method AddPipe(id: PipeId, ring: Ring)
      requires Sound() && id !in pipes && id !in freed && StreamSound(ring, [], [])
      requires ring !in Rings(pipes) && ring.buf !in Buffers(pipes)
      modifies this`pipes, this`sent, this`got, this`slept, this`woke
      ensures Core() && AllStreamsSound(pipes, sent, got) && LinesSound(pipes, slept, woke)
      ensures OthersReferenced(pipes, id)
      ensures pipes == old(pipes)[id := Pipe(0, 0, ring, [])] && pipes.Keys == old(pipes).Keys + {id}
      ensures sent == old(sent)[id := []] && got == old(got)[id := []]
      ensures slept == old(slept)[id := []] && woke == old(woke)[id := []]
    {
      var pipe := Pipe(0, 0, ring, []);
      NewPipeSound(fds, pipes, freed, id, pipe);
      NewStream(pipes, id, pipe, sent, got);
      NewLine(pipes, id, pipe, slept, woke);
      EnterPipe(id, pipe);
    }

    method EnterPipe(id: PipeId, pipe: Pipe)
      modifies this`pipes, this`sent, this`got, this`slept, this`woke
      ensures pipes == WithPipe(old(pipes), id, pipe)
      ensures sent == old(sent)[id := []] && got == old(got)[id := []]
      ensures slept == old(slept)[id := []] && woke == old(woke)[id := []]
    {
      pipes := WithPipe(pipes, id, pipe);
      sent, got := sent[id := []], got[id := []];
      slept, woke := slept[id := []], woke[id := []];
    }

    /**
      The descriptors of a new process: the terminal ones, or those of the parent named in
      `list`, in order, up to the first number that is no descriptor.
     */
    method NewProcess(child: Pid, parent: Pid, list: Option<seq<int>>)
      requires Sound() && child !in fds && parent in fds
      modifies this`fds, this`pipes
      ensures Sound() && fds.Keys == old(fds).Keys + {child}
      ensures forall q :: q in old(fds) ==> fds[q] == old(fds)[q]
      ensures list.None? ==> pipes == old(pipes)
      ensures list.None? ==> forall i :: 0 <= i < FD_MAX ==>
                fds[child][i] == if i == 0 then FdKeyboard else if i <= 2 then FdScreen else FdNone
      ensures list.Some? ==> forall i :: 0 <= i < FD_MAX ==>
                fds[child][i] == if i < Inherited(list.value) then old(fds)[parent][list.value[i]] else FdNone
      ensures SameButCounters(old(pipes), pipes)
    {
      if list.None? {
        AddProcess(child, DEFAULT_FDS);
        return;
      }
      AddProcess(child, NO_FDS);
      InheritSoundly(child, parent, list.value);
    }

    /** Inheriting moves counters only, so the rings stay as they are. */
    method InheritSoundly(child: Pid, parent: Pid, list: seq<int>)
      requires Sound() && child in fds && parent in fds && child != parent && fds[child] == NO_FDS
      modifies this`fds, this`pipes
      ensures Sound() && fds.Keys == old(fds).Keys
      ensures forall q :: q in fds && q != child ==> fds[q] == old(fds)[q]
      ensures forall i :: 0 <= i < FD_MAX ==>
                fds[child][i] == if i < Inherited(list) then fds[parent][list[i]] else FdNone
      ensures SameButCounters(old(pipes), pipes)
    {
      InheritFds(child, parent, list);
      CountersJoin(old(pipes), old(pipes), pipes);
      StreamsKept(old(pipes), pipes, sent, got);
      LinesKept(old(pipes), pipes, slept, woke);
    }

    /** A new process with descriptors that refer to no pipe. */
    method AddProcess(child: Pid, table: seq<Fd>)
      requires Sound() && child !in fds && |table| == FD_MAX && forall i :: 0 <= i < FD_MAX ==> !table[i].FdPipe?
      modifies this`fds
      ensures Sound() && fds == old(fds)[child := table]
    {
      NewProcessKeepsCounts(fds, pipes, child, table);
      fds := fds[child := table];
    }

    // inherit_fds
    method InheritFds(child: Pid, parent: Pid, list: seq<int>)
      requires Valid() && child in fds && parent in fds && child != parent && fds[child] == NO_FDS
      modifies this`fds, this`pipes
      ensures Valid() && fds.Keys == old(fds).Keys
      ensures forall q :: q in fds && q != child ==> fds[q] == old(fds)[q]
      ensures forall i :: 0 <= i < FD_MAX ==>
                fds[child][i] == if i < Inherited(list) then fds[parent][list[i]] else FdNone
      ensures SameButCounters(old(pipes), pipes)
    {
      var i := 0;
      while i < FD_MAX && i < |list|
        invariant 0 <= i <= FD_MAX && i <= Inherited(list)
        invariant Valid() && InheritedUpTo(old(fds), fds, child, parent, list, i)
        invariant SameButCounters(old(pipes), pipes)
      {
        InheritedAt(list, i);
        if list[i] < 0 || list[i] >= FD_MAX {
          break;
        }
        ghost var before := pipes;
        SourceExists(fds, pipes, parent, list[i]);
        InheritStep(old(fds), fds, child, parent, list, i);
        CopyFd(child, i, fds[parent][list[i]]);
        CountersJoin(old(pipes), before, pipes);
        i := i + 1;
      }
    }

    /** One descriptor is copied into a free place, with a reference of its own. */
    method CopyFd(child: Pid, i: nat, fd: Fd)
      requires Valid() && child in fds && i < FD_MAX && fds[child][i] == FdNone
      requires fd.FdPipe? ==> fd.pipe in pipes
      modifies this`fds, this`pipes
      ensures Valid() && fds == SetFd(old(fds), child, i, fd)
      ensures SameButCounters(old(pipes), pipes)
    {
      if fd.FdPipe? {
        OpenedCounts(pipes, fd.pipe, fd.end);
        OthersAre(pipes, fd.pipe);
        FirstReference(pipes, fd.pipe, fd.end);
        Attach(child, i, fd.pipe, fd.end);
      } else {
        PlainKeepsCounts(fds, pipes, child, i, fd);
        fds := fds[child := fds[child][i := fd]];
      }
    }

    /**
      The part of proc_kill about pipes: out of any wait queue, and every descriptor closed. Only on
      pipes that lose their last writer is anybody else woken; the line forgets the process' sleep.
     */
    method KillProcess(p: Pid)
      requires Sound() && p in fds
      modifies this`fds, this`pipes, this`freed, this`slept, this`woke
      ensures Sound() && fds.Keys == old(fds).Keys && forall q :: q in fds && q != p ==> fds[q] == old(fds)[q]
      ensures forall i :: 0 <= i < FD_MAX ==> fds[p][i] == FdNone
      ensures forall id :: id in pipes ==>
                && id in old(pipes) && pipes[id].ring == old(pipes)[id].ring && p !in pipes[id].sleepers
                && pipes[id].sleepers == (if pipes[id].writers > 0 then Without(old(pipes)[id].sleepers, p) else [])
      ensures FreedBy(old(freed), old(pipes), freed, pipes)
      ensures forall id :: id in old(pipes) ==>
                id in slept && slept[id] == old(woke)[id] + Without(old(pipes)[id].sleepers, p)
    {
      CloseDown(p);
      StreamsKept(old(pipes), pipes, sent, got);
    }

    /** All of it but the streams, which it does not touch. */
    method CloseDown(p: Pid)
      requires Valid() && LinesSound(pipes, slept, woke) && p in fds
      modifies this`fds, this`pipes, this`freed, this`slept, this`woke
      ensures Valid() && LinesSound(pipes, slept, woke) && fds == old(fds)[p := NO_FDS]
      ensures LeftBy(old(pipes), pipes, p) && FreedBy(old(freed), old(pipes), freed, pipes)
      ensures slept == Struck(old(pipes), old(woke), p)
    {
      ghost var before := pipes;
      LeaveQueues(p);
      ghost var between := pipes;
      CloseAll(p);
      Left(before, between, pipes, p);
    }

    /** The loop of proc_kill over the descriptors. */
    method CloseAll(p: Pid)
      requires Valid() && LinesSound(pipes, slept, woke) && p in fds
      modifies this`fds, this`pipes, this`freed, this`woke
      ensures Valid() && LinesSound(pipes, slept, woke) && fds == old(fds)[p := NO_FDS]
      ensures FreedBy(old(freed), old(pipes), freed, pipes)
      ensures SameRings(old(pipes), pipes) && SleepersLeft(old(pipes), pipes)
    {
      var i := 0;
      LeftAlone(pipes);
      while i < FD_MAX
        invariant 0 <= i <= FD_MAX && Valid() && LinesSound(pipes, slept, woke)
        invariant fds.Keys == old(fds).Keys && forall q :: q in fds && q != p ==> fds[q] == old(fds)[q]
        invariant forall j :: 0 <= j < i ==> fds[p][j] == FdNone
        invariant FreedBy(old(freed), old(pipes), freed, pipes)
        invariant SameRings(old(pipes), pipes) && SleepersLeft(old(pipes), pipes)
      {
        ghost var f, before := freed, pipes;
        CloseEntry(p, i);
        FreedTwice(old(freed), old(pipes), f, before, freed, pipes);
        LeftTwice(old(pipes), before, pipes);
        i := i + 1;
      }
      assert fds[p] == NO_FDS;
    }

    /** queue_remove on the queue the process waits in, if any. */
    method LeaveQueues(p: Pid)
      requires Valid() && LinesSound(pipes, slept, woke)
      modifies this`pipes, this`slept
      ensures Valid() && LinesSound(pipes, slept, woke)
      ensures pipes == Quit(old(pipes), p) && slept == Struck(old(pipes), woke, p)
      ensures forall id :: id in pipes ==> p !in pipes[id].sleepers
    {
      QuitSound(fds, pipes, p);
      slept := Struck(pipes, woke, p);
      pipes := Quit(pipes, p);
    }

    /**
      pipe_read: sleeps on an empty ring that has writers, and otherwise delivers the first bytes.
      A reader put to sleep runs the call again when woken.
     */
    method PipeRead(me: Pid, id: PipeId, dst: array<Byte>, n: nat) returns (r: ReadResult)
      requires Sound() && id in pipes && n <= dst.Length && dst !in Buffers(pipes) && me !in pipes[id].sleepers
      modifies this`pipes, this`got, this`slept, pipes[id].ring`head, dst
      ensures Sound()
      ensures HasRead(r, me, id, n, old(Held(pipes[id].ring)), Held(old(pipes)[id].ring), old(dst[..]), dst[..],
                      old(pipes), pipes, old(AllLogs()), AllLogs())
    {
      var ring := pipes[id].ring;
      assert StreamSound(ring, sent[id], got[id]);
      var available := ring.Available();
      if available == 0 {
        r := ReadNothing(me, id, dst, n);
      } else {
        r := ReadSome(me, id, dst, n);
      }
    }

    /** The part of pipe_read after its loop. */
    method ReadSome(ghost me: Pid, id: PipeId, dst: array<Byte>, n: nat) returns (r: ReadResult)
      requires Sound() && id in pipes && n <= dst.Length && dst !in Buffers(pipes) && Held(pipes[id].ring) != []
      modifies this`got, pipes[id].ring`head, dst
      ensures Sound()
      ensures HasRead(r, me, id, n, old(Held(pipes[id].ring)), Held(old(pipes)[id].ring), old(dst[..]), dst[..],
                      old(pipes), pipes, old(AllLogs()), AllLogs())
    {
      var k := TakeBytes(id, dst, n);
      return Count(k);
    }

    /** The loop of pipe_read on an empty ring: the end of the stream, or a sleep. */
    method ReadNothing(me: Pid, id: PipeId, ghost dst: array<Byte>, n: nat) returns (r: ReadResult)
      requires Sound() && id in pipes && me !in pipes[id].sleepers && Held(pipes[id].ring) == []
      modifies this`pipes, this`slept
      ensures Sound()
      ensures HasRead(r, me, id, n, [], Held(old(pipes)[id].ring), dst[..], dst[..],
                      old(pipes), pipes, old(AllLogs()), AllLogs())
    {
      if pipes[id].writers == 0 {
        NothingTaken(got, id, dst[..], n);
        return Count(0);
      }
      FallAsleep(me, id);
      return Asleep;
    }

    method FallAsleep(me: Pid, id: PipeId)
      requires Sound() && id in pipes && me !in pipes[id].sleepers && pipes[id].writers > 0
      modifies this`pipes, this`slept
      ensures Sound() && Logged(old(slept), slept, id, [me])
      ensures pipes == old(pipes)[id := old(pipes)[id].(sleepers := old(pipes)[id].sleepers + [me])]
    {
      assert SleepersSound(pipes[id]);
      AppendDistinct(pipes[id].sleepers, me);
      LineMoves(pipes, id, pipes[id].sleepers + [me], slept, woke, [me], []);
      SameLog(woke, id);
      slept := slept[id := slept[id] + [me]];
      SetSleepers(id, pipes[id].sleepers + [me]);
    }

    /** ringbuf_read on the ring of one pipe: every stream stays exact. */
    method TakeBytes(id: PipeId, dst: array<Byte>, n: nat) returns (k: nat)
      requires AllStreamsSound(pipes, sent, got) && id in pipes && n <= dst.Length && dst !in Buffers(pipes)
      modifies this`got, pipes[id].ring`head, dst
      ensures AllStreamsSound(pipes, sent, got)
      ensures Taken(old(Held(pipes[id].ring)), Held(pipes[id].ring), old(dst[..]), dst[..], n, k)
      ensures Logged(old(got), got, id, Front(old(Held(pipes[id].ring)), k))
    {
      var ring := pipes[id].ring;
      assert StreamSound(ring, sent[id], got[id]);
      ghost var data := Held(ring);
      OthersApart(pipes, id);
      StreamsKept(pipes, pipes - {id}, sent, got);
      k := ReadHeld(ring, dst, n);
      TakenJoins(pipes, id, sent, got, data, k);
      got := got[id := got[id] + data[..k]];
    }

    /** Whether descriptor `fd` of a process is the given end of a pipe. */
    predicate IsEnd(me: Pid, fd: int, end: End)
      requires Sized(fds) && me in fds
      reads this
    {
      0 <= fd < FD_MAX && fds[me][fd].FdPipe? && fds[me][fd].end == end
    }

    /** The ring that a call on that end can touch. */
    ghost function RingOf(me: Pid, fd: int, end: End): set<Ring>
      requires Sized(fds) && me in fds
      reads this
    {
      if IsEnd(me, fd, end) && fds[me][fd].pipe in pipes then {pipes[fds[me][fd].pipe].ring} else {}
    }

    /**
      sys_read: pipe_read, the keyboard's read, or -EBADF if the descriptor has no read operation. A
      read of a pipe puts nobody to sleep on data, and one that empties the ring ends such a sleep.
     */
    method SysRead(me: Pid, fd: int, dst: array<Byte>, n: nat) returns (r: ReadResult)
      requires Sound() && me in fds && n <= dst.Length && dst !in Buffers(pipes)
      requires forall id :: id in pipes ==> me !in pipes[id].sleepers
      modifies this`pipes, this`got, this`slept, RingOf(me, fd, ReadEnd), dst
      ensures Sound() && pipes.Keys == old(pipes).Keys
      ensures r.Failed? <==> !(0 <= fd < FD_MAX && (fds[me][fd].FdKeyboard? || old(IsEnd(me, fd, ReadEnd))))
      ensures r.Failed? ==> r.code == if 0 <= fd < FD_MAX then -EBADF else -EINVAL
      ensures r.Keyboard? <==> 0 <= fd < FD_MAX && fds[me][fd].FdKeyboard?
      ensures r.Failed? || r.Keyboard? ==> pipes == old(pipes) && slept == old(slept)
      ensures r.Failed? || r.Keyboard? || r.Asleep? ==> got == old(got) && dst[..] == old(dst[..])
      ensures r.Count? || r.Asleep? ==>
                var id := fds[me][fd].pipe;
                && id in pipes
                && var data, left := old(Held(pipes[id].ring)), Held(pipes[id].ring);
                && (r.Asleep? <==> data == [] && old(pipes)[id].writers > 0)
                && (r.Asleep? ==>
                      && left == []
                      && pipes == old(pipes)[id := old(pipes)[id].(sleepers := old(pipes)[id].sleepers + [me])]
                      && Logged(old(slept), slept, id, [me]))
                && (r.Count? ==>
                      && pipes == old(pipes) && slept == old(slept) && Taken(data, left, old(dst[..]), dst[..], n, r.k)
                      && Logged(old(got), got, id, Front(data, r.k)))
                && (NobodyMisses(left, pipes[id].sleepers) <==>
                      NobodyMisses(data, old(pipes[id].sleepers)) || n >= |data|)
    {
      if fd < 0 || fd >= FD_MAX {
        return Failed(-EINVAL);
      }
      if fds[me][fd].FdKeyboard? {
        return Keyboard;
      }
      if !fds[me][fd].FdPipe? || fds[me][fd].end != ReadEnd {
        return Failed(-EBADF);
      }
      var id := fds[me][fd].pipe;
      r := PipeRead(me, id, dst, n);
      ReadMisses(r, me, id, n, old(Held(pipes[id].ring)), Held(old(pipes)[id].ring), old(dst[..]), dst[..],
                 old(pipes), pipes, old(AllLogs()), AllLogs());
    }

    /**
      pipe_write. The loop that would put the writer to sleep waits for PIPE_BUFFER_SIZE bytes,
      which the ring never holds: a full pipe takes nothing and the call returns at once, whether
      or not anybody reads.
     */
    method PipeWrite(id: PipeId, src: array<Byte>, n: nat) returns (k: nat, ghost woken: seq<Pid>)
      requires Sound() && id in pipes && n <= src.Length && src !in Buffers(pipes)
      modifies this`pipes, this`sent, this`woke, pipes[id].ring`tail, pipes[id].ring.buf
      ensures Sound() && pipes.Keys == old(pipes).Keys
      ensures pipes == old(pipes)[id := old(pipes)[id].(sleepers := pipes[id].sleepers)]
      ensures old(pipes)[id].sleepers == woken + pipes[id].sleepers && Logged(old(woke), woke, id, woken)
      ensures |woken| == if old(pipes)[id].sleepers == [] then 0 else 1
      ensures Given(old(Held(pipes[id].ring)), Held(pipes[id].ring), src[..], n, k)
      ensures Logged(old(sent), sent, id, Front(src[..], k))
    {
      var available := pipes[id].ring.Available();
      if available >= PIPE_BUFFER_SIZE {
        assert false;
      }
      k := GiveBytes(id, src, n);
      woken := WakeFirst(id);
    }

    /** proc_ready on the first of a pipe's sleepers, if any. */
    method WakeFirst(id: PipeId) returns (ghost woken: seq<Pid>)
      requires Sound() && id in pipes
      modifies this`pipes, this`woke
      ensures Sound() && id in pipes
      ensures pipes == old(pipes)[id := old(pipes)[id].(sleepers := pipes[id].sleepers)]
      ensures old(pipes)[id].sleepers == woken + pipes[id].sleepers && Logged(old(woke), woke, id, woken)
      ensures |woken| == if old(pipes)[id].sleepers == [] then 0 else 1
    {
      if pipes[id].sleepers == [] {
        woken := [];
        SameLog(woke, id);
        SleepersAre(pipes, pipes, id, pipes[id].sleepers);
      } else {
        woken := [pipes[id].sleepers[0]];
        HeadGoes(pipes[id]);
        WakeHead(id);
        SleepersAre(old(pipes), pipes, id, old(pipes)[id].sleepers[1..]);
      }
    }

    method WakeHead(id: PipeId)
      requires Sound() && id in pipes && pipes[id].sleepers != []
      modifies this`pipes, this`woke
      ensures Sound() && Logged(old(woke), woke, id, [old(pipes)[id].sleepers[0]])
      ensures pipes == old(pipes)[id := old(pipes)[id].(sleepers := old(pipes)[id].sleepers[1..])]
    {
      var rest := pipes[id].sleepers[1..];
      ghost var first := [pipes[id].sleepers[0]];
      HeadGoes(pipes[id]);
      LineMoves(pipes, id, rest, slept, woke, [], first);
      SameLog(slept, id);
      woke := woke[id := woke[id] + first];
      SetSleepers(id, rest);
    }

    /** ringbuf_write on the ring of one pipe: every stream stays exact. */
    method GiveBytes(id: PipeId, src: array<Byte>, n: nat) returns (k: nat)
      requires AllStreamsSound(pipes, sent, got) && id in pipes && n <= src.Length && src !in Buffers(pipes)
      modifies this`sent, pipes[id].ring`tail, pipes[id].ring.buf
      ensures AllStreamsSound(pipes, sent, got)
      ensures Given(old(Held(pipes[id].ring)), Held(pipes[id].ring), src[..], n, k)
      ensures Logged(old(sent), sent, id, Front(src[..], k))
    {
      var ring := pipes[id].ring;
      assert StreamSound(ring, sent[id], got[id]);
      ghost var data := Held(ring);
      OthersApart(pipes, id);
      StreamsKept(pipes, pipes - {id}, sent, got);
      k := WriteHeld(ring, src, n);
      ghost var given := Front(src[..], k);
      GivenJoins(pipes, id, sent, got, data, given);
      sent := sent[id := sent[id] + given];
    }

    /**
      sys_write: pipe_write, the screen's write, which shows all bytes, or -EBADF if the descriptor
      has no write operation. Only the first sleeper of a pipe is woken, so a write of something
      leaves somebody asleep on data if and only if two or more were asleep.
     */
    method SysWrite(me: Pid, fd: int, src: array<Byte>, n: nat) returns (k: int, ghost woken: seq<Pid>)
      requires Sound() && me in fds && n <= src.Length && src !in Buffers(pipes)
      modifies this`pipes, this`sent, this`woke, RingOf(me, fd, WriteEnd)
      modifies set ring | ring in RingOf(me, fd, WriteEnd) :: ring.buf
      ensures Sound() && pipes.Keys == old(pipes).Keys
      ensures k < 0 <==> !(0 <= fd < FD_MAX && (fds[me][fd].FdScreen? || old(IsEnd(me, fd, WriteEnd))))
      ensures k < 0 ==> k == if 0 <= fd < FD_MAX then -EBADF else -EINVAL
      ensures !old(IsEnd(me, fd, WriteEnd)) ==> pipes == old(pipes) && sent == old(sent) && (k < 0 || k == n)
      ensures !old(IsEnd(me, fd, WriteEnd)) ==> woken == [] && woke == old(woke)
      ensures old(IsEnd(me, fd, WriteEnd)) ==>
                var id := fds[me][fd].pipe;
                && id in pipes && k >= 0
                && var data, sleepers := old(Held(pipes[id].ring)), old(pipes[id].sleepers);
                && Given(data, Held(pipes[id].ring), src[..], n, k)
                && pipes == old(pipes)[id := old(pipes)[id].(sleepers := pipes[id].sleepers)]
                && sleepers == woken + pipes[id].sleepers && |woken| == (if sleepers == [] then 0 else 1)
                && Logged(old(sent), sent, id, Front(src[..], k)) && Logged(old(woke), woke, id, woken)
                && (NobodyMisses(data, sleepers) ==>
                      (NobodyMisses(Held(pipes[id].ring), pipes[id].sleepers) <==> n == 0 || |sleepers| <= 1))
    {
      woken := [];
      if fd < 0 || fd >= FD_MAX {
        return -EINVAL, woken;
      }
      if fds[me][fd].FdScreen? {
        return n, woken;
      }
      if !fds[me][fd].FdPipe? || fds[me][fd].end != WriteEnd {
        return -EBADF, woken;
      }
      k, woken := PipeWrite(fds[me][fd].pipe, src, n);
    }

    /** The sleepers of a pipe change, soundly. */
    method SetSleepers(id: PipeId, sleepers: seq<Pid>)
      requires Valid() && AllStreamsSound(pipes, sent, got) && id in pipes
      requires SleepersSound(pipes[id].(sleepers := sleepers))
      requires LinesSound(pipes[id := pipes[id].(sleepers := sleepers)], slept, woke)
      modifies this`pipes
      ensures Sound() && pipes == old(pipes)[id := old(pipes)[id].(sleepers := sleepers)]
    {
      assert pipes[id := pipes[id]] == pipes;
      OnlyCountersCount(fds, pipes, id, pipes[id], pipes[id].(sleepers := sleepers));
      StreamsKept(pipes, pipes[id := pipes[id].(sleepers := sleepers)], sent, got);
      pipes := pipes[id := pipes[id].(sleepers := sleepers)];
    }
  }

  /**
    A read of up to `n` bytes from a ring with `data`: it puts the reader to sleep exactly on an empty
    ring with writers, and otherwise delivers the first bytes, none of them at the end of the stream.
   */
  ghost predicate HasRead(r: ReadResult, me: Pid, id: PipeId, n: nat, data: seq<Byte>, left: seq<Byte>,
                          dst: seq<Byte>, dst': seq<Byte>, pipes: map<PipeId, Pipe>, pipes': map<PipeId, Pipe>,
                          logs: Logs, logs': Logs) {
    && id in pipes
    && (r.Asleep? <==> data == [] && pipes[id].writers > 0)
    && (r.Count? <==> !r.Asleep?)
    && (r.Asleep? ==>
          && left == [] && dst' == dst
          && pipes' == pipes[id := pipes[id].(sleepers := pipes[id].sleepers + [me])]
          && logs' == logs.(slept := logs'.slept) && Logged(logs.slept, logs'.slept, id, [me]))
    && (r.Count? ==>
          && pipes' == pipes && Taken(data, left, dst, dst', n, r.k)
          && logs' == logs.(got := logs'.got) && Logged(logs.got, logs'.got, id, Front(data, r.k)))
  }

  lemma ReadMisses(r: ReadResult, me: Pid, id: PipeId, n: nat, data: seq<Byte>, left: seq<Byte>,
                   dst: seq<Byte>, dst': seq<Byte>, pipes: map<PipeId, Pipe>, pipes': map<PipeId, Pipe>,
                   logs: Logs, logs': Logs)
    requires HasRead(r, me, id, n, data, left, dst, dst', pipes, pipes', logs, logs')
    ensures id in pipes' && pipes'.Keys == pipes.Keys && pipes'[id].ring == pipes[id].ring
    ensures NobodyMisses(left, pipes'[id].sleepers) <==> NobodyMisses(data, pipes[id].sleepers) || n >= |data|
  {
    if r.Count? {
      TakenMisses(data, n, pipes[id].sleepers);
    }
  }

  const NO_FDS: seq<Fd> := seq(FD_MAX, _ => FdNone)
  const DEFAULT_FDS: seq<Fd> := seq(FD_MAX, i => if i == 0 then FdKeyboard else if i < 3 then FdScreen else FdNone)

  /** `Keyboard`: the call goes on in the keyboard's own read. */
  datatype ReadResult = Count(k: nat) | Asleep | Keyboard | Failed(code: int)

  /** The first `i` descriptors of the child are copied, and nothing else has changed. */
  ghost predicate InheritedUpTo(before: Tables, t: Tables, child: Pid, parent: Pid, list: seq<int>, i: nat)
    requires i <= Inherited(list)
  {
    && t.Keys == before.Keys && child in t && parent in t && child != parent && Sized(t)
    && (forall q :: q in t && q != child ==> t[q] == before[q])
    && (forall j :: 0 <= j < i ==> t[child][j] == t[parent][list[j]])
    && forall j :: i <= j < FD_MAX ==> t[child][j] == FdNone
  }

  lemma InheritStep(before: Tables, t: Tables, child: Pid, parent: Pid, list: seq<int>, i: nat)
    requires i < Inherited(list) && InheritedUpTo(before, t, child, parent, list, i)
    ensures InheritedUpTo(before, SetFd(t, child, i, t[parent][list[i]]), child, parent, list, i + 1)
  {
  }

  /** A descriptor refers to a pipe that exists. */
  lemma SourceExists(t: Tables, pipes: map<PipeId, Pipe>, p: Pid, i: nat)
    requires CountsExact(t, pipes) && p in t && i < FD_MAX
    ensures t[p][i].FdPipe? ==> t[p][i].pipe in pipes
  {
  }

  /** How many leading numbers of `list` are descriptors, at most as many as a table holds. */
  function Inherited(list: seq<int>): (k: nat)
    ensures k <= |list| && k <= FD_MAX
    ensures forall i :: 0 <= i < k ==> 0 <= list[i] < FD_MAX
    ensures k < |list| && k < FD_MAX ==> !(0 <= list[k] < FD_MAX)
  {
    InheritedFrom(list, 0)
  }

  function InheritedFrom(list: seq<int>, i: nat): (k: nat)
    requires i <= |list| && i <= FD_MAX
    ensures i <= k <= |list| && k <= FD_MAX
    ensures forall j :: i <= j < k ==> 0 <= list[j] < FD_MAX
    ensures k < |list| && k < FD_MAX ==> !(0 <= list[k] < FD_MAX)
    decreases FD_MAX - i
  {
    if i == |list| || i == FD_MAX || !(0 <= list[i] < FD_MAX) then i else InheritedFrom(list, i + 1)
  }

  lemma InheritedAt(list: seq<int>, i: nat)
    requires i < |list| && i < FD_MAX && i <= Inherited(list)
    ensures i < Inherited(list) <==> 0 <= list[i] < FD_MAX
  {
  }
}
