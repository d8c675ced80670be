/** The run queue as a value. `F` names fibers: objects in the scheduler, numbers in the protocol. */
module SchedulerSpec {
  import opened Basics
  import opened Tasks

  /** A worker passes over tasks pinned elsewhere and fibers that are still executing. */
  predicate MayRun<F(==)>(t: Task<F>, thread: int, executing: set<F>) {
    (t.thread == ANY || t.thread == thread) && (t.work.Fib? ==> t.work.fiber !in executing)
  }

  /** The oldest task that `thread` may run, or the length of the queue. */
  function FirstFor<F(==)>(q: seq<Task<F>>, thread: int, executing: set<F>): (k: nat)
    ensures k <= |q|
    ensures k < |q| ==> MayRun(q[k], thread, executing)
    ensures forall i :: 0 <= i < k ==> !MayRun(q[i], thread, executing)
  {
    if q == [] || MayRun(q[0], thread, executing) then 0 else 1 + FirstFor(q[1..], thread, executing)
  }

  function Removed<T>(q: seq<T>, k: nat): seq<T>
    requires k < |q|
  {
    q[..k] + q[k + 1..]
  }

  /** scheduleNoLock: empty work is dropped. */
  function Scheduled<F>(q: seq<Task<F>>, work: Work<F>, thread: int): seq<Task<F>> {
    if work.Nothing? then q else q + [Task(work, thread)]
  }

  /** Scheduling a range, in order, on any thread. */
  function ScheduledAll<F>(q: seq<Task<F>>, works: seq<Work<F>>): (r: seq<Task<F>>)
    ensures q <= r
    decreases |works|
  {
    if works == [] then q else ScheduledAll(Scheduled(q, works[0], ANY), works[1..])
  }

  lemma {:induction false} FirstForIs<F>(q: seq<Task<F>>, thread: int, executing: set<F>, k: nat)
    requires k <= |q| && (k < |q| ==> MayRun(q[k], thread, executing))
    requires forall i :: 0 <= i < k ==> !MayRun(q[i], thread, executing)
    ensures FirstFor(q, thread, executing) == k
  {
    if k > 0 {
      FirstForIs(q[1..], thread, executing, k - 1);
    }
  }

  lemma {:induction false} ScheduledAllTwice<F>(q: seq<Task<F>>, a: seq<Work<F>>, b: seq<Work<F>>)
    ensures ScheduledAll(ScheduledAll(q, a), b) == ScheduledAll(q, a + b)
    decreases |a|
  {
    if a == [] {
      assert a + b == b;
    } else {
      assert (a + b)[0] == a[0] && (a + b)[1..] == a[1..] + b;
      ScheduledAllTwice(Scheduled(q, a[0], ANY), a[1..], b);
    }
  }

  lemma {:induction false} ScheduledAllMembers<F>(q: seq<Task<F>>, works: seq<Work<F>>, t: Task<F>)
    ensures t in ScheduledAll(q, works) <==> t in q || (t.thread == ANY && t.work in works && !t.work.Nothing?)
    decreases |works|
  {
    if works != [] {
      ScheduledAllMembers(Scheduled(q, works[0], ANY), works[1..], t);
      assert works == [works[0]] + works[1..];
    }
  }

  /** How a fiber leaves the processor. */
  datatype Exit = ToReady | ToHold | Return | Throw

  function StateAfter(exit: Exit): FiberState {
    match exit
    case ToReady => READY
    case ToHold => HOLD
    case Return => TERM
    case Throw => EXCEPT
  }

  // ---------- a worker's turn ----------

  /** What a turn works on: the queue, the number of active workers, the fiber the worker keeps for
      callbacks, and the fiber it has swapped in. */
  datatype Desk<F> = Desk(queue: seq<Task<F>>, active: int, own: Option<F>, current: Option<F>)

  predicate Resettable(state: FiberState) {
    state == INIT || state == TERM || state == EXCEPT
  }

  predicate Done(state: FiberState) {
    state == TERM || state == EXCEPT
  }

  /** The first half: the oldest task the thread may run is taken. A fiber is swapped in itself, a
      callback runs in the worker's own fiber, or in a new one that becomes its own. */
  function Started<F(==)>(d: Desk<F>, thread: int, executing: set<F>, spare: F): Desk<F> {
    var k := FirstFor(d.queue, thread, executing);
    if k == |d.queue| then d
    else
      var d1 := d.(queue := Removed(d.queue, k), active := d.active + 1);
      match d.queue[k].work
      case Nothing => d1
      case Fib(f) => d1.(current := Some(f))
      case Call(_) => var g := if d.own.Some? then d.own.value else spare; d1.(own := Some(g), current := Some(g))
  }

  /** The second half: the fiber has swapped out in `state`. A ready one is queued again; the worker
      keeps its own fiber only when that is done. */
  function Settled<F>(d: Desk<F>, state: FiberState, forCallback: bool): Desk<F>
    requires d.current.Some?
  {
    Desk(if state == READY then Scheduled(d.queue, Fib(d.current.value), ANY) else d.queue, d.active - 1,
         if forCallback && !Done(state) then None else d.own, None)
  }

  /** The state in which the second half leaves the fiber. */
  function StateSettled(state: FiberState, forCallback: bool): FiberState {
    if state == READY then READY else if !Done(state) then HOLD else if forCallback then INIT else state
  }
}
