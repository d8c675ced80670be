/** The vocabulary shared by timers, the event table and the scheduler. */
module Tasks {

  type FiberId = nat

  datatype Event = READ | WRITE

  datatype FiberState = INIT | HOLD | EXEC | TERM | READY | EXCEPT

  /** The callbacks the library itself creates, and all others. */
  datatype Callback =
    | Resume(fiber: FiberId)                       // sleep: schedule the sleeping fiber
    | IoTimeout(call: nat, fd: nat, event: Event)  // do_io: mark the call timed out, cancel its event
    | User(id: nat)

  /** What a task or an event slot holds: a fiber, a callback, or neither. */
  datatype Work<F> = Nothing | Fib(fiber: F) | Call(cb: Callback)

  /** An entry of the run queue; thread -1 is any thread. */
  datatype Task<F> = Task(work: Work<F>, thread: int)

  const ANY: int := -1
}
