/**
  Counting semaphores with hand-off: a post gives its unit straight to the longest waiter,
  and only a post that finds nobody waiting raises the value.
 */
module Semaphores {
  import opened Basics

  /** One open entry of the semaphore table: the value and the processes asleep on it. */
  datatype Sem<P> = Sem(value: nat, queue: seq<P>) {

    /** `my_sem_wait` by `p`; `p` runs on if and only if the value was positive. */
    function Wait(p: P): Sem<P> {
      if value > 0 then Sem(value - 1, queue) else Sem(value, queue + [p])
    }

    predicate Passes() {
      value > 0
    }

    /** `my_sem_post`: the process it wakes, if any, and the state it leaves. */
    function Woken(): Option<P> {
      if queue == [] then None else Some(queue[0])
    }

    function Post(): Sem<P> {
      if queue == [] then Sem(value + 1, queue) else Sem(value, queue[1..])
    }

    function TryWait(): Sem<P> {
      if value > 0 then Sem(value - 1, queue) else this
    }
  }
}
