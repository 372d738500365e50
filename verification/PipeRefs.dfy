/**
  The file descriptor tables of all processes, and which entries refer to an end of a pipe.
 */
module PipeRefs {
  import opened Basics

  type PipeId = nat

  const FD_MAX: nat := 16

  datatype End = ReadEnd | WriteEnd

  datatype Fd = FdNone | FdKeyboard | FdScreen | FdPipe(pipe: PipeId, end: End)

  type Tables = map<Pid, seq<Fd>>

  predicate Sized(t: Tables) {
    forall p :: p in t ==> |t[p]| == FD_MAX
  }

  /** The entries, over all processes, that refer to the given end of a pipe. */
  ghost function Refs(t: Tables, id: PipeId, end: End): set<(Pid, nat)> {
    set p, i | p in t && 0 <= i < |t[p]| && t[p][i] == FdPipe(id, end) :: (p, i)
  }

  function SetFd(t: Tables, p: Pid, i: nat, fd: Fd): Tables
    requires p in t && i < |t[p]|
  {
    t[p := t[p][i := fd]]
  }

  lemma RefsHas(t: Tables, id: PipeId, end: End, p: Pid, i: nat)
    ensures (p, i) in Refs(t, id, end) <==> p in t && i < |t[p]| && t[p][i] == FdPipe(id, end)
  {
  }

  lemma RefsSetIs(t: Tables, p: Pid, i: nat, fd: Fd, id: PipeId, end: End)
    requires p in t && i < |t[p]|
    ensures Refs(SetFd(t, p, i, fd), id, end) ==
            if fd == FdPipe(id, end) then Refs(t, id, end) + {(p, i)} else Refs(t, id, end) - {(p, i)}
  {
  }

  /** One entry changes: the count drops by one if it referred to the end, and rises if it does now. */
  lemma RefsAfterSet(t: Tables, p: Pid, i: nat, fd: Fd, id: PipeId, end: End)
    requires p in t && i < |t[p]|
    ensures |Refs(SetFd(t, p, i, fd), id, end)| ==
            |Refs(t, id, end)| + (if fd == FdPipe(id, end) then 1 else 0)
            - (if t[p][i] == FdPipe(id, end) then 1 else 0)
  {
    RefsSetIs(t, p, i, fd, id, end);
    RefsHas(t, id, end, p, i);
    var r := Refs(t, id, end);
    if (p, i) in r {
      assert r + {(p, i)} == r;
    } else {
      assert r - {(p, i)} == r;
    }
  }

  /** A process that is new, with no pipe among its entries, refers to nothing. */
  lemma RefsNewProcess(t: Tables, p: Pid, fds: seq<Fd>, id: PipeId, end: End)
    requires p !in t && forall i :: 0 <= i < |fds| ==> !fds[i].FdPipe?
    ensures Refs(t[p := fds], id, end) == Refs(t, id, end)
  {
  }
}
