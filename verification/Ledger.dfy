/** The run queue over whole runs: first come, first served among the tasks a worker may run, and
    every task submitted is queued, running, or has ended its turn, once. */
module Ledger {
  import opened Basics
  import opened Tasks
  import S = SchedulerSpec
  import E = EventSpec
  import T = TimerSpec
  import opened Protocol
  import opened Tokens
  import opened Safety
  import opened Runs

  // ---------- what a step submits ----------

  /** The tasks of a range of work, the empty ones dropped. */
  function AnyThread(works: seq<Work<FiberId>>): Queue {
    if works == [] then []
    else (if works[0].Nothing? then [] else [Task(works[0], ANY)]) + AnyThread(works[1..])
  }

  /** The work in the slot of an event that is asked for and registered. */
  function SlotWork(s: Sys, k: E.Key, asked: bool): seq<Work<FiberId>> {
    if asked && k in s.table.slots then [s.table.slots[k]] else []
  }

  /** No event is reported that is not registered, and epoll_ctl succeeds. */
  predicate Fires(s: Sys, fd: nat, reported: E.Mask, ok: bool) {
    ok && (reported.read ==> (fd, READ) in s.table.slots) && (reported.write ==> (fd, WRITE) in s.table.slots)
  }

  /** What the code that runs in a step hands to schedule, read off the step and the state before it. */
  ghost function Submitted(s: Sys, a: Action): Queue
    requires Enabled(s, a)
  {
    match a
    case ScheduleFiber(f, thread) => [Task(Fib(f), thread)]
    case ScheduleCall(cb, thread) => [Task(Call(User(cb)), thread)]
    // the callbacks of the timers due
    case Expire => AnyThread(Works(T.Callbacks(T.Due(s.timers, s.now))))
    // the work of the events cancelled or reported
    case CancelEvent(k, ok) => AnyThread(SlotWork(s, k, ok))
    case RunCancel(g, ok) => AnyThread(SlotWork(s, s.fibers[g].at.k, ok))
    case CancelAll(fd, ok) => AnyThread(SlotWork(s, (fd, READ), ok) + SlotWork(s, (fd, WRITE), ok))
    case Deliver(fd, reported, failed, ok) =>
      var fires := Fires(s, fd, reported, ok);
      AnyThread(SlotWork(s, (fd, READ), fires && (reported.read || failed))
                + SlotWork(s, (fd, WRITE), fires && (reported.write || failed)))
    // a sleeper resumed, a fiber that yields ready
    case RunResume(g) => [Task(Fib(s.fibers[g].at.fiber), ANY)]
    case Leave(w, exit) => if exit == S.ToReady then [Task(Fib(s.running[w]), ANY)] else []
    case _ => []
  }

  lemma {:induction false} ScheduledAllIs(q: Queue, works: seq<Work<FiberId>>)
    ensures S.ScheduledAll(q, works) == q + AnyThread(works)
    decreases |works|
  {
    if works != [] {
      ScheduledAllIs(S.Scheduled(q, works[0], ANY), works[1..]);
    }
  }

  lemma EffectSubmits(s: Sys, r: E.Result<FiberId>, why: Failure, works: seq<Work<FiberId>>)
    requires works == if r.Done? then r.woken else []
    ensures Effect(s, r, why).queue == s.queue + AnyThread(works)
  {
    ScheduledAllIs(s.queue, works);
  }

  lemma CancelAllSubmits(s: Sys, fd: nat, ok: bool)
    ensures E.CancelAll(s.table, fd, ok).woken == SlotWork(s, (fd, READ), ok) + SlotWork(s, (fd, WRITE), ok)
  {
  }

  lemma DeliverSubmits(s: Sys, fd: nat, reported: E.Mask, failed: bool, ok: bool)
    ensures var r, fires := E.Deliver(s.table, fd, reported, failed, ok), Fires(s, fd, reported, ok);
            (if r.Done? then r.woken else []) ==
            SlotWork(s, (fd, READ), fires && (reported.read || failed))
            + SlotWork(s, (fd, WRITE), fires && (reported.write || failed))
  {
  }

  lemma EventSubmits(s: Sys, a: Action)
    requires Enabled(s, a) && (a.AddCallback? || a.DeleteEvent? || a.CancelEvent? || a.CancelAll? || a.Deliver?)
    ensures OutsideStep(s, a).queue == s.queue + Submitted(s, a)
  {
    match a {
      case AddCallback(k, cb, ok) => EffectSubmits(s, E.Add(s.table, k, Call(User(cb)), ok), AlreadyRegistered, []);
      case DeleteEvent(k, ok) => EffectSubmits(s, E.Delete(s.table, k, ok, s.intended), NotRegistered, []);
      case CancelEvent(k, ok) =>
        EffectSubmits(s, E.Cancel(s.table, k, ok, s.intended), NotRegistered, SlotWork(s, k, ok));
      case CancelAll(fd, ok) =>
        CancelAllSubmits(s, fd, ok);
        EffectSubmits(s, E.CancelAll(s.table, fd, ok), NotRegistered, E.CancelAll(s.table, fd, ok).woken);
      case Deliver(fd, reported, failed, ok) =>
        var r := E.Deliver(s.table, fd, reported, failed, ok);
        DeliverSubmits(s, fd, reported, failed, ok);
        EffectSubmits(s, r, NotRegistered, if r.Done? then r.woken else []);
    }
  }

  lemma OutsideSubmits(s: Sys, a: Action)
    requires Enabled(s, a) && Mover(a).None? && !a.Dequeue? && !a.Leave?
    ensures OutsideStep(s, a).queue == s.queue + Submitted(s, a)
  {
    if a.AddCallback? || a.DeleteEvent? || a.CancelEvent? || a.CancelAll? || a.Deliver? {
      EventSubmits(s, a);
    } else if a.Expire? {
      ScheduledAllIs(s.queue, Works(T.Callbacks(T.Due(s.timers, s.now))));
    }
  }

  lemma FiberSubmits(s: Sys, f: FiberId, a: Action)
    requires Enabled(s, a) && Mover(a) == Some(f)
    ensures FiberStep(s, f, a).queue == s.queue + Submitted(s, a)
  {
    if a.RunCancel? {
      ScheduledAllIs(s.queue, SlotWork(s, s.fibers[f].at.k, a.ok));
    }
  }

  // ---------- the queue ----------

  /** A worker takes the oldest task that is not pinned to another thread and not an executing
      fiber, and leaves the others in their order; every other step appends what it submits. */
  lemma QueueStep(s: Sys, a: Action)
    requires Inv(s) && Enabled(s, a)
    ensures if a.Dequeue? then
              var k, q := Next(s, a.w), s.queue;
              && k < |q| && (q[k].thread == -1 || q[k].thread == a.w)
              && (q[k].work.Fib? ==> q[k].work.fiber in s.fibers && s.fibers[q[k].work.fiber].state != EXEC)
              && (forall i :: 0 <= i < k ==>
                                || (q[i].thread != -1 && q[i].thread != a.w)
                                || (q[i].work.Fib? && q[i].work.fiber in s.fibers
                                    && s.fibers[q[i].work.fiber].state == EXEC))
              && Step(s, a).queue == q[..k] + q[k + 1..]
            else Step(s, a).queue == s.queue + Submitted(s, a)
  {
    if a.Dequeue? {
      DequeueKeeps(s, a.w, a.spare);
    } else if Mover(a).Some? {
      FiberSubmits(s, Mover(a).value, a);
    } else if !a.Leave? {
      OutsideSubmits(s, a);
    }
  }

  // ---------- turns ----------

  /** What has been submitted in a run, which task each thread is at, and the tasks whose turn has
      ended, with how it ended. */
  datatype History = History(submitted: Queue, doing: map<nat, Task<FiberId>>, done: seq<(Task<FiberId>, S.Exit)>)

  ghost function Recorded(s: Sys, h: History, a: Action): History
    requires Enabled(s, a)
  {
    if a.Dequeue? then h.(doing := h.doing[a.w := s.queue[Next(s, a.w)]])
    else
      var h1 := h.(submitted := h.submitted + Submitted(s, a));
      if a.Leave? && a.w in h.doing then h1.(doing := h.doing - {a.w}, done := h.done + [(h.doing[a.w], a.exit)])
      else h1
  }

  ghost function HistoryOf(s: Sys, h: History, actions: seq<Action>): History
    decreases |actions|
  {
    if actions == [] || !Enabled(s, actions[0]) then h
    else HistoryOf(Step(s, actions[0]), Recorded(s, h, actions[0]), actions[1..])
  }

  /** The threads that are at `t`. */
  function Doing(doing: map<nat, Task<FiberId>>, t: Task<FiberId>): set<nat> {
    set w | w in doing && doing[w] == t
  }

  /** How often a turn of `t` has ended. */
  function Ended(done: seq<(Task<FiberId>, S.Exit)>, t: Task<FiberId>): nat {
    if done == [] then 0 else Ended(done[..|done| - 1], t) + One(done[|done| - 1].0 == t)
  }

  lemma DoingWithout(doing: map<nat, Task<FiberId>>, w: nat, t: Task<FiberId>)
    requires w in doing
    ensures |Doing(doing, t)| == |Doing(doing - {w}, t)| + One(doing[w] == t)
  {
    assert Doing(doing - {w}, t) == Doing(doing, t) - {w};
  }

  lemma DoingMore(doing: map<nat, Task<FiberId>>, w: nat, task: Task<FiberId>, t: Task<FiberId>)
    requires w !in doing
    ensures |Doing(doing[w := task], t)| == |Doing(doing, t)| + One(task == t)
  {
    assert doing[w := task] - {w} == doing;
    DoingWithout(doing[w := task], w, t);
  }

  lemma EndedMore(done: seq<(Task<FiberId>, S.Exit)>, task: Task<FiberId>, exit: S.Exit, t: Task<FiberId>)
    ensures Ended(done + [(task, exit)], t) == Ended(done, t) + One(task == t)
  {
    assert (done + [(task, exit)])[..|done|] == done;
  }

  ghost predicate Balanced(h: History, q: Queue) {
    forall t :: multiset(h.submitted)[t] == multiset(q)[t] + |Doing(h.doing, t)| + Ended(h.done, t)
  }

  lemma AppendBalances(h: History, q: Queue, more: Queue)
    requires Balanced(h, q)
    ensures Balanced(h.(submitted := h.submitted + more), q + more)
  {
  }

  lemma TakeBalances(h: History, q: Queue, k: nat, w: nat)
    requires Balanced(h, q) && k < |q| && w !in h.doing
    ensures Balanced(h.(doing := h.doing[w := q[k]]), S.Removed(q, k))
  {
    assert q == q[..k] + [q[k]] + q[k + 1..];
    forall t
      ensures multiset(q)[t] == multiset(S.Removed(q, k))[t] + One(q[k] == t)
      ensures |Doing(h.doing[w := q[k]], t)| == |Doing(h.doing, t)| + One(q[k] == t)
    {
      DoingMore(h.doing, w, q[k], t);
    }
  }

  lemma LeaveBalances(h: History, q: Queue, w: nat, exit: S.Exit, h': History)
    requires Balanced(h, q) && w in h.doing
    requires h' == History(h.submitted, h.doing - {w}, h.done + [(h.doing[w], exit)])
    ensures Balanced(h', q)
  {
    forall t
      ensures multiset(h'.submitted)[t] == multiset(q)[t] + |Doing(h'.doing, t)| + Ended(h'.done, t)
    {
      DoingWithout(h.doing, w, t);
      EndedMore(h.done, h.doing[w], exit, t);
      assert multiset(h.submitted)[t] == multiset(q)[t] + |Doing(h.doing, t)| + Ended(h.done, t);
    }
  }

  /** The threads at a task are those that run a fiber: that of the task, or their own. None is at a task
      that is pinned to another. */
  ghost predicate AtWork(running: map<nat, FiberId>, retained: map<nat, FiberId>, doing: map<nat, Task<FiberId>>) {
    && doing.Keys == running.Keys
    && (forall w :: w in doing ==> doing[w].thread == -1 || doing[w].thread == w)
    && forall w :: w in doing ==>
                     match doing[w].work
                     case Nothing => false
                     case Fib(f) => running[w] == f
                     case Call(_) => w in retained && retained[w] == running[w]
  }

  lemma TakenAtWork(running: map<nat, FiberId>, retained: map<nat, FiberId>, doing: map<nat, Task<FiberId>>,
                    w: nat, g: FiberId, task: Task<FiberId>)
    requires AtWork(running, retained, doing) && w !in running && (task.thread == -1 || task.thread == w)
    ensures match task.work
            case Nothing => true
            case Fib(f) => f == g ==> AtWork(running[w := g], retained, doing[w := task])
            case Call(_) => AtWork(running[w := g], retained[w := g], doing[w := task])
  {
  }

  lemma LeftAtWork(s: Sys, w: nat, exit: S.Exit, doing: map<nat, Task<FiberId>>)
    requires AtWork(s.running, s.retained, doing) && Enabled(s, Leave(w, exit))
    ensures var s' := Left(s, w, exit); AtWork(s'.running, s'.retained, doing - {w})
  {
  }

  lemma StartAtWork(s: Sys, w: nat, k: nat, spare: FiberId, s': Sys, doing: map<nat, Task<FiberId>>)
    requires Starts(s, w, k, spare, s') && w !in s.running && AtWork(s.running, s.retained, doing)
    requires s.queue[k].thread == -1 || s.queue[k].thread == w
    ensures AtWork(s'.running, s'.retained, doing[w := s.queue[k]])
  {
    TakenAtWork(s.running, s.retained, doing, w, Runner(s, w, k, spare), s.queue[k]);
  }

  lemma StartBalances(s: Sys, h: History, w: nat, k: nat, spare: FiberId, s': Sys)
    requires Starts(s, w, k, spare, s') && w !in h.doing && Balanced(h, s.queue)
    ensures Balanced(h.(doing := h.doing[w := s.queue[k]]), s'.queue)
  {
    TakeBalances(h, s.queue, k, w);
  }

  lemma DequeueBalances(s: Sys, h: History, w: nat, spare: FiberId)
    requires Inv(s) && Enabled(s, Dequeue(w, spare))
    requires Balanced(h, s.queue) && AtWork(s.running, s.retained, h.doing)
    ensures var s', h' := Taken(s, w, spare), Recorded(s, h, Dequeue(w, spare));
            Balanced(h', s'.queue) && AtWork(s'.running, s'.retained, h'.doing)
  {
    DequeueKeeps(s, w, spare);
    TakenStarts(s, w, Next(s, w), spare, Taken(s, w, spare));
    StartAtWork(s, w, Next(s, w), spare, Taken(s, w, spare), h.doing);
    StartBalances(s, h, w, Next(s, w), spare, Taken(s, w, spare));
  }

  lemma LeaveStepBalances(s: Sys, h: History, w: nat, exit: S.Exit)
    requires Enabled(s, Leave(w, exit)) && Balanced(h, s.queue) && AtWork(s.running, s.retained, h.doing)
    ensures var s', h' := Left(s, w, exit), Recorded(s, h, Leave(w, exit));
            Balanced(h', s'.queue) && AtWork(s'.running, s'.retained, h'.doing)
  {
    var more := Submitted(s, Leave(w, exit));
    AppendBalances(h, s.queue, more);
    assert Left(s, w, exit).queue == s.queue + more;
    LeaveBalances(h.(submitted := h.submitted + more), s.queue + more, w, exit, Recorded(s, h, Leave(w, exit)));
    LeftAtWork(s, w, exit, h.doing);
  }

  lemma StepBalances(s: Sys, h: History, a: Action)
    requires Inv(s) && Enabled(s, a) && Balanced(h, s.queue) && AtWork(s.running, s.retained, h.doing)
    ensures Balanced(Recorded(s, h, a), Step(s, a).queue)
    ensures AtWork(Step(s, a).running, Step(s, a).retained, Recorded(s, h, a).doing)
  {
    if a.Dequeue? {
      DequeueBalances(s, h, a.w, a.spare);
    } else if a.Leave? {
      LeaveStepBalances(s, h, a.w, a.exit);
    } else {
      QueueStep(s, a);
      AppendBalances(h, s.queue, Submitted(s, a));
    }
  }

  lemma {:induction false} RunBalances(s: Sys, h: History, actions: seq<Action>, s': Sys)
    requires Inv(s) && Leads(s, actions, s') && Balanced(h, s.queue) && AtWork(s.running, s.retained, h.doing)
    ensures var h' := HistoryOf(s, h, actions); Balanced(h', s'.queue) && AtWork(s'.running, s'.retained, h'.doing)
    decreases |actions|
  {
    if actions != [] {
      StepBalances(s, h, actions[0]);
      StepKeepsTokens(s, actions[0]);
      RunBalances(Step(s, actions[0]), Recorded(s, h, actions[0]), actions[1..], s');
    }
  }

  const NOTHING: History := History([], map[], [])

  /** Over any run of a new I/O manager, every task handed to schedule is queued, or one thread is
      running its fiber or, in its own fiber, its callback, or its turn has ended with the fiber
      ready, on hold, finished or failed; each as often as it was submitted. */
  lemma EveryTaskOnce(s0: Sys, actions: seq<Action>, s: Sys)
    requires Initial(s0) && Leads(s0, actions, s)
    ensures var h := HistoryOf(s0, NOTHING, actions);
            && (forall t :: multiset(h.submitted)[t] == multiset(s.queue)[t] + |Doing(h.doing, t)| + Ended(h.done, t))
            && AtWork(s.running, s.retained, h.doing)
            && (forall w :: w in h.doing ==> h.doing[w].thread == -1 || h.doing[w].thread == w)
  {
    InitialGood(s0);
    assert forall t :: Doing(map[], t) == {};
    RunBalances(s0, NOTHING, actions, s);
  }

  /** How a turn ends: ready and queued again, waiting or on hold and with nothing in the queue but
      what a wake-up may have put there before the yield, or finished and held by nothing. */
  lemma TurnEnds(s: Sys, w: nat, exit: S.Exit)
    requires Inv(s) && Enabled(s, Leave(w, exit))
    ensures var f, s' := s.running[w], Left(s, w, exit);
            match exit
            case ToReady => StatusOf(s', f) == Ready && Queued(s', f) == 1 && Promises(s', f) == 0
            case ToHold => if StatusOf(s', f) == Free then Queued(s', f) == 0 && Promises(s', f) == 0
            else StatusOf(s', f) == Blocked && Promises(s', f) + Queued(s', f) == 1
            case Return => Queued(s', f) == 0 && Promises(s', f) == 0
            case Throw => Queued(s', f) == 0 && Promises(s', f) == 0
    ensures var f, s' := s.running[w], Left(s, w, exit);
            if w in s.retained && s.retained[w] == f then
              if exit == S.Return || exit == S.Throw then
                w in s'.retained && s'.retained[w] == f && s'.fibers[f].state == INIT
              else w !in s'.retained
            else s'.retained == s.retained
  {
    var f, s' := s.running[w], Left(s, w, exit);
    LeaveStatus(s, w, exit);
    LeaveKeeps(s, w, exit);
    assert Fits(s, f) && Fits(s', f);
    CountScheduled(s.queue, Fib(f), ANY, Fib(f));
  }
}
