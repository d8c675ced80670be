/** Fibers as objects with a state. Stacks and contexts are left out: what happens between swapIn and
    the next swapOut is the fiber's own business. */
module Fibers {
  import opened Basics
  import opened Tasks
  import S = SchedulerSpec

  class Fiber {
    const id: nat
    const hasStack: bool
    var state: FiberState
    var cb: Option<Callback>

    /** A thread's own fiber, which has no stack of its own and executes already. */
    constructor Main()
      ensures state == EXEC && !hasStack && cb == None
    {
      id, hasStack, state, cb := 0, false, EXEC, None;
    }

    constructor (id: nat, cb: Option<Callback>)
      ensures this.id == id && hasStack && state == INIT && this.cb == cb
    {
      this.id, hasStack, state, this.cb := id, true, INIT, cb;
    }

    /** The states in which a fiber may be given a new function. */
    predicate MayReset()
      reads this
    {
      hasStack && S.Resettable(state)
    }

    /** reset; false where its assertions fail. */
    method Reset(cb: Option<Callback>) returns (ok: bool)
      modifies this
      ensures ok == old(MayReset())
      ensures if ok then state == INIT && this.cb == cb else state == old(state) && this.cb == old(this.cb)
    {
      if !hasStack || !(state == TERM || state == INIT || state == EXCEPT) {
        return false;
      }
      this.cb := cb;
      state := INIT;
      return true;
    }

    /** swapIn up to the switch; false where its assertion fails. */
    method SwapIn() returns (ok: bool)
      modifies this`state
      ensures ok == (old(state) != EXEC) && state == EXEC
    {
      if state == EXEC {
        return false;
      }
      state := EXEC;
      return true;
    }

    method YieldToReady()
      modifies this`state
      ensures state == READY && !MayReset()
    {
      state := READY;
    }

    method YieldToHold()
      modifies this`state
      ensures state == HOLD && !MayReset()
    {
      state := HOLD;
    }

    /** The end of MainFunc: the function has returned, or thrown. */
    method Finish(threw: bool)
      modifies this
      ensures if threw then state == EXCEPT && cb == old(cb) else state == TERM && cb == None
      ensures MayReset() <==> hasStack
    {
      if threw {
        state := EXCEPT;
      } else {
        cb := None;
        state := TERM;
      }
    }
  }
}

/** The scheduler: the run queue, and a worker's turn from taking a task to looking at what became
    of its fiber. */
module Schedulers {
  import opened Basics
  import opened Tasks
  import opened Fibers
  import S = SchedulerSpec

  type FiberTask = Task<Fiber>

  /** The fibers of the queue, and those of them that execute. */
  ghost function FibersOf(tasks: seq<FiberTask>): set<Fiber> {
    set t | t in tasks && t.work.Fib? :: t.work.fiber
  }

  ghost function Executing(tasks: seq<FiberTask>): set<Fiber>
    reads FibersOf(tasks)
  {
    set f | f in FibersOf(tasks) && f.state == EXEC
  }

  /** What a thread keeps between turns: the fiber for callbacks, and what it has swapped in. */
  class Worker {
    const thread: int
    var cbFiber: Option<Fiber>
    var current: Option<Fiber>
    var forCallback: bool

    constructor (thread: int)
      ensures this.thread == thread && cbFiber == None && current == None
    {
      this.thread, cbFiber, current, forCallback := thread, None, None, false;
    }
  }

  /** What came of a turn: a fiber is running, there was nothing to do, or an assertion failed. */
  datatype Turn = Ran(fiber: Fiber) | NothingToDo | Failed

  class Scheduler {
    var tasks: seq<FiberTask>
    var active: nat
    var stopping: bool
    var autoStop: bool

    ghost predicate Valid()
      reads this
    {
      forall t :: t in tasks ==> !t.work.Nothing?
    }

    constructor ()
      ensures Valid() && tasks == [] && active == 0 && stopping && !autoStop
    {
      tasks, active, stopping, autoStop := [], 0, true, false;
    }

    /** schedule(fiber or callback, thread). */
    method Schedule(work: Work<Fiber>, thread: int)
      requires Valid()
      modifies this`tasks
      ensures Valid() && tasks == S.Scheduled(old(tasks), work, thread)
    {
      if !work.Nothing? {
        tasks := tasks + [Task(work, thread)];
      }
    }

    /** schedule with a pointer: the caller's variable is swapped with an empty one. */
    method ScheduleOut(work: Work<Fiber>, thread: int) returns (left: Work<Fiber>)
      requires Valid()
      modifies this`tasks
      ensures Valid() && left == Nothing && tasks == S.Scheduled(old(tasks), work, thread)
    {
      Schedule(work, thread);
      left := Nothing;
    }

    /** schedule(begin, end): every element is moved into the queue, in order. */
    method ScheduleAll(works: array<Work<Fiber>>)
      requires Valid()
      modifies this`tasks, works
      ensures Valid() && tasks == S.ScheduledAll(old(tasks), old(works[..]))
      ensures forall i :: 0 <= i < works.Length ==> works[i] == Nothing
    {
      ghost var ws := works[..];
      ghost var final := S.ScheduledAll(tasks, ws);
      var i := 0;
      assert ws[0..] == ws;
      while i < works.Length
        invariant 0 <= i <= works.Length && Valid()
        invariant works[i..] == ws[i..] && S.ScheduledAll(tasks, ws[i..]) == final
        invariant forall j :: 0 <= j < i ==> works[j] == Nothing
      {
        assert ws[i..][0] == ws[i] && ws[i..][1..] == ws[i + 1..];
        assert works[i..][0] == works[i] && works[i..][1..] == works[i + 1..];
        works[i] := ScheduleOut(works[i], ANY);
        i := i + 1;
      }
    }

    /** The scan of the run loop: the oldest task for this thread whose fiber does not execute. */
    method Take(thread: int) returns (found: bool, task: FiberTask)
      requires Valid()
      modifies this`tasks, this`active
      ensures Valid()
      ensures var k := S.FirstFor(old(tasks), thread, old(Executing(tasks)));
              && found == (k < |old(tasks)|)
              && if found then task == old(tasks)[k] && tasks == S.Removed(old(tasks), k) && active == old(active) + 1
                 else task == Task(Nothing, ANY) && tasks == old(tasks) && active == old(active)
      ensures found ==>
                && (task.thread == -1 || task.thread == thread)
                && (task.work.Fib? ==> task.work.fiber.state != EXEC)
      ensures var k, q := S.FirstFor(old(tasks), thread, old(Executing(tasks))), old(tasks);
              && (found ==> task == q[k] && tasks == q[..k] + q[k + 1..])
              && forall i :: 0 <= i < k ==>
                               || (q[i].thread != -1 && q[i].thread != thread)
                               || (q[i].work.Fib? && q[i].work.fiber.state == EXEC)
    {
      ghost var executing := Executing(tasks);
      var k := 0;
      while k < |tasks|
        invariant 0 <= k <= |tasks|
        invariant forall i :: 0 <= i < k ==> !S.MayRun(tasks[i], thread, executing)
        invariant forall i :: 0 <= i < k ==>
                                || (tasks[i].thread != -1 && tasks[i].thread != thread)
                                || (tasks[i].work.Fib? && tasks[i].work.fiber.state == EXEC)
        invariant tasks == old(tasks) && active == old(active) && Valid()
      {
        var t := tasks[k];
        assert t in tasks;
        if t.thread != ANY && t.thread != thread {
          k := k + 1;
        } else if t.work.Fib? && t.work.fiber.state == EXEC {
          k := k + 1;
        } else {
          S.FirstForIs(tasks, thread, executing, k);
          tasks := tasks[..k] + tasks[k + 1..];
          active := active + 1;
          return true, t;
        }
      }
      S.FirstForIs(tasks, thread, executing, k);
      return false, Task(Nothing, ANY);
    }

    /** Scheduler::stopping. */
    method Stopping() returns (b: bool)
      ensures b == (autoStop && stopping && tasks == [] && active == 0)
    {
      b := autoStop && stopping && |tasks| == 0 && active == 0;
    }

    /** What the turns of a worker work on. */
    function Desk(w: Worker): S.Desk<Fiber>
      reads this, w
    {
      S.Desk(tasks, active, w.cbFiber, w.current)
    }

    /** The first half of a turn: take a task and swap its fiber in; a callback runs in the retained
        fiber, reset, or in a new one. `id` is the number of the new one. */
    method Dispatch(w: Worker, id: nat) returns (turn: Turn)
      requires Valid() && w.current == None
      modifies this`tasks, this`active, w, FibersOf(tasks), if w.cbFiber.Some? then {w.cbFiber.value} else {}
      ensures Valid()
      ensures forall f :: f in old(FibersOf(tasks)) || Some(f) == old(w.cbFiber) ==>
                            turn == Ran(f) || (f.state == old(f.state) && f.cb == old(f.cb))
      ensures turn.NothingToDo? <==> S.FirstFor(old(tasks), w.thread, old(Executing(tasks))) == |old(tasks)|
      ensures turn.NothingToDo? ==> Desk(w) == old(Desk(w))
      ensures turn.Ran? ==>
                && Desk(w) == S.Started(old(Desk(w)), w.thread, old(Executing(tasks)), turn.fiber)
                && Desk(w).current == Some(turn.fiber) && turn.fiber.state == EXEC
                && match old(tasks)[S.FirstFor(old(tasks), w.thread, old(Executing(tasks)))].work
                   case Nothing => false
                   case Fib(f) => !w.forCallback && old(f.state) != EXEC && turn.fiber.cb == old(f.cb)
                   case Call(cb) => w.forCallback && turn.fiber.cb == Some(cb)
                                    && (old(w.cbFiber).None? ==> fresh(turn.fiber))
      ensures turn.Failed? ==>
                && old(tasks)[S.FirstFor(old(tasks), w.thread, old(Executing(tasks)))].work.Call?
                && old(w.cbFiber).Some? && !old(if w.cbFiber.Some? then w.cbFiber.value.MayReset() else true)
                && Desk(w) == old(Desk(w)).(
                              queue := S.Removed(old(tasks), S.FirstFor(old(tasks), w.thread, old(Executing(tasks)))),
                              active := old(active) + 1)
      ensures turn.Ran? && w.forCallback && old(w.cbFiber).Some? ==>
                old(if w.cbFiber.Some? then w.cbFiber.value.MayReset() else true)
      ensures turn.Ran? && w.forCallback ==> turn.fiber.hasStack
    {
      ghost var tasks0, executing := tasks, Executing(tasks);
      var found, task := Take(w.thread);
      if !found {
        return NothingToDo;
      }
      assert task in tasks0;
      match task.work {
        case Nothing =>
          assert false;
        case Fib(f) =>
          assert f in FibersOf(tasks0);
          var ok := f.SwapIn();
          w.current, w.forCallback := Some(f), false;
          return if ok then Ran(f) else Failed;
        case Call(cb) =>
          if w.cbFiber.Some? {
            var ok := w.cbFiber.value.Reset(Some(cb));
            if !ok {
              return Failed;
            }
          } else {
            var f := new Fiber(id, Some(cb));
            w.cbFiber := Some(f);
          }
          var ok := w.cbFiber.value.SwapIn();
          w.current, w.forCallback := w.cbFiber, true;
          return Ran(w.cbFiber.value);
      }
    }

    /** The second half: the fiber has swapped out in the state it chose. A ready one is scheduled
        again; one that is not finished is on hold; a finished one that ran a callback is reset and
        retained, and is given away otherwise. */
    method Settle(w: Worker)
      requires Valid() && w.current.Some? && active > 0
      requires w.forCallback ==> w.cbFiber == w.current && w.current.value.hasStack
      modifies this`tasks, this`active, w, w.current.value
      ensures Valid() && w.forCallback == old(w.forCallback)
      ensures Desk(w) == S.Settled(old(Desk(w)), old(w.current.value.state), w.forCallback)
      ensures var f := old(w.current).value;
              && f.state == S.StateSettled(old(w.current.value.state), old(w.forCallback))
              && f.cb ==
                 (if old(w.forCallback) && S.Done(old(w.current.value.state)) then None else old(w.current.value.cb))
    {
      var f := w.current.value;
      active := active - 1;
      if !w.forCallback {
        if f.state == READY {
          Schedule(Fib(f), ANY);
        } else if f.state != TERM && f.state != EXCEPT {
          f.state := HOLD;
        }
      } else if f.state == READY {
        Schedule(Fib(f), ANY);
        w.cbFiber := None;
      } else if f.state == EXCEPT || f.state == TERM {
        var ok := f.Reset(None);
      } else {
        f.state := HOLD;
        w.cbFiber := None;
      }
      w.current := None;
    }

    /** A turn in which nothing else happens: the fiber of the task leaves by `exit` at once. */
    method WholeTurn(w: Worker, id: nat, exit: S.Exit) returns (turn: Turn)
      requires Valid() && w.current == None
      modifies this`tasks, this`active, w, FibersOf(tasks), if w.cbFiber.Some? then {w.cbFiber.value} else {}
      ensures Valid() && (turn.NothingToDo? ==> Desk(w) == old(Desk(w)))
      ensures turn.Ran? ==>
                var d := S.Started(old(Desk(w)), w.thread, old(Executing(tasks)), turn.fiber);
                && d.current == Some(turn.fiber) && Desk(w) == S.Settled(d, S.StateAfter(exit), w.forCallback)
                && turn.fiber.state == S.StateSettled(S.StateAfter(exit), w.forCallback)
                && (exit == S.Return || (w.forCallback && exit == S.Throw) ==> turn.fiber.cb == None)
    {
      turn := Dispatch(w, id);
      if turn.Ran? {
        match exit {
          case ToReady => turn.fiber.YieldToReady();
          case ToHold => turn.fiber.YieldToHold();
          case Return => turn.fiber.Finish(false);
          case Throw => turn.fiber.Finish(true);
        }
        Settle(w);
      }
    }
  }
}
