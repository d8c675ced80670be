/** Runs of the protocol and what holds at every moment of them. */
module Runs {
  import opened Basics
  import opened Tasks
  import E = EventSpec
  import W = Workers
  import opened Protocol
  import opened Tokens
  import opened Safety
  import opened Timing

  lemma OutsideKeeps(s: Sys, a: Action)
    requires Inv(s) && Enabled(s, a) && Mover(a).None? && !a.Dequeue? && !a.Leave?
    ensures Good(OutsideStep(s, a))
  {
    match a
    case Tick(_) => TimeKeeps(s, a);
    case Stop => TimeKeeps(s, a);
    case NewFiber(f) => NewFiberKeeps(s, f);
    case ScheduleFiber(f, thread) => ScheduleFiberKeeps(s, f, thread);
    case ScheduleCall(cb, thread) => ScheduleCallKeeps(s, cb, thread);
    case AddTimer(ms, recurring, user) =>
      NewTimerKeeps(s, ms, recurring, if user.Some? then Some(User(user.value)) else None);
    case CancelTimer(_) => ChangeTimerKeeps(s, a);
    case RefreshTimer(_) => ChangeTimerKeeps(s, a);
    case ResetTimer(_, _, _) => ChangeTimerKeeps(s, a);
    case AddCallback(k, cb, ok) => AddCallbackKeeps(s, k, cb, ok);
    case DeleteEvent(k, ok) => DeleteEventKeeps(s, k, ok);
    case CancelEvent(k, ok) => CancelEventKeeps(s, k, ok, NotRegistered);
    case CancelAll(fd, ok) => CancelAllKeeps(s, fd, ok);
    case Deliver(fd, reported, failed, ok) => DeliverKeeps(s, fd, reported, failed, ok);
    case Expire => ExpireKeeps(s);
    case _ =>
  }

  lemma CallStepKeeps(s: Sys, f: FiberId, a: Action)
    requires Inv(s) && s.failure.None? && FiberEnabled(s, f, a) && !Job(a)
    ensures Good(CallStep(s, f, a))
  {
    match a
    case GoToSleep(_, ms) => SleepKeeps(s, f, ms);
    case BeginIo(_, c, k, to, retries) =>
      MoveKeeps(s, f, Try(c));
      CallKeeps(Moved(s, f, Try(c)), c, IoCall(f, k, to, s.now, retries, None, false, true, false, false));
    case Complete(_) => ReturnKeeps(s, f, s.fibers[f].at.call, false);
    case Again(_) => RearmKeeps(s, f, s.fibers[f].at.call);
    case Register(_, ok) => RegisterKeeps(s, f, s.fibers[f].at.call, ok);
    case Awake(_) => ContinueKeeps(s, f, s.fibers[f].at.wait);
    case Judge(_) => JudgeKeeps(s, f, s.fibers[f].at.call);
    case _ =>
  }

  lemma JobStepKeeps(s: Sys, g: FiberId, a: Action)
    requires Inv(s) && s.failure.None? && FiberEnabled(s, g, a) && Job(a)
    ensures Good(JobStep(s, g, a))
  {
    match a
    case RunResume(_) => ResumeKeeps(s, g);
    case RunCheck(_) => CheckKeeps(s, g, s.fibers[g].at.call, s.fibers[g].at.k);
    case RunCancel(_, ok) => CancelJobKeeps(s, g, s.fibers[g].at.call, s.fibers[g].at.k, ok);
    case _ =>
  }

  lemma FiberKeeps(s: Sys, f: FiberId, a: Action)
    requires Inv(s) && s.failure.None? && FiberEnabled(s, f, a)
    ensures Good(FiberStep(s, f, a))
  {
    if Job(a) {
      JobStepKeeps(s, f, a);
    } else {
      CallStepKeeps(s, f, a);
    }
  }

  lemma DequeueKeeps(s: Sys, w: nat, spare: FiberId)
    requires Inv(s) && Enabled(s, Dequeue(w, spare))
    ensures Inv(Taken(s, w, spare)) && Taken(s, w, spare).failure.None?
  {
    var k := Next(s, w);
    assert s.queue[k] in s.queue;
    if s.queue[k].work.Fib? {
      TakeFiberKeeps(s, w, spare);
    } else {
      TakeCallKeeps(s, w, spare);
    }
  }

  /** Every step keeps the invariant of workers and tokens. */
  lemma StepKeepsTokens(s: Sys, a: Action)
    requires Inv(s) && Enabled(s, a)
    ensures Inv(Step(s, a))
  {
    if a.Dequeue? {
      DequeueKeeps(s, a.w, a.spare);
    } else if a.Leave? {
      LeaveKeeps(s, a.w, a.exit);
    } else {
      W.MoveQuiet(s, a);
      W.QuietKeeps(s, Step(s, a));
      if Mover(a).Some? {
        FiberKeeps(s, Mover(a).value, a);
      } else {
        OutsideKeeps(s, a);
      }
    }
  }

  lemma SleepTime(s: Sys, f: FiberId, ms: nat)
    requires Good(s) && Timely(s) && At(s, f, Body)
    ensures Timely(Slept(s, f, ms))
  {
    NobodyHolds(s, f);
    SleepTimely(s, f, ms);
  }

  lemma StepKeepsTime(s: Sys, a: Action)
    requires Inv(s) && Timely(s) && Enabled(s, a)
    ensures Timely(Step(s, a))
  {
    if a.Dequeue? {
      DequeueTime(s, a.w, a.spare);
    } else if a.Leave? {
      LeaveTimely(s, a.w, a.exit);
    } else if a.GoToSleep? {
      SleepTime(s, a.f, a.ms);
    } else if Mover(a).Some? {
      FiberTimely(s, a);
    } else {
      OutsideTimely(s, a);
    }
  }

  lemma DequeueTime(s: Sys, w: nat, spare: FiberId)
    requires Inv(s) && Timely(s) && Enabled(s, Dequeue(w, spare))
    ensures Timely(Taken(s, w, spare))
  {
    var k := Next(s, w);
    assert s.queue[k] in s.queue;
    DequeueKeeps(s, w, spare);
    if s.queue[k].work.Fib? {
      DequeueFiberTimely(s, w, spare);
    } else {
      if w in s.retained {
        KeptBody(s, w);
      }
      DequeueCallTimely(s, w, spare);
    }
  }

  // ---------- when an assertion fails ----------

  /** The event is not registered, and yet the guard in the code goes on to cancel it. */
  predicate CancelFails(s: Sys, k: E.Key, ok: bool) {
    ok && k !in s.table.slots && !s.intended
  }

  /** The exact condition on which a step ends the process. */
  predicate Fails(s: Sys, a: Action)
    requires Enabled(s, a)
  {
    match a
    case AddCallback(k, _, _) => k in s.table.slots
    case Register(f, _) => s.calls[s.fibers[f].at.call].k in s.table.slots
    case CancelEvent(k, ok) => CancelFails(s, k, ok)
    case RunCancel(g, ok) => CancelFails(s, s.fibers[g].at.k, ok)
    case Deliver(fd, reported, failed, ok) =>
      ok && !E.Within(reported, E.Events(s.table, fd))
      && (if failed then E.Events(s.table, fd) else E.Both(E.Events(s.table, fd), reported)) != E.EMPTY
    case _ => false
  }

  lemma CallFails(s: Sys, f: FiberId, a: Action)
    requires s.failure.None? && FiberEnabled(s, f, a) && !Job(a)
    ensures CallStep(s, f, a).failure ==
            if a.Register? && s.calls[s.fibers[f].at.call].k in s.table.slots then Some(AlreadyRegistered) else None
  {
  }

  lemma JobFails(s: Sys, g: FiberId, a: Action)
    requires s.failure.None? && FiberEnabled(s, g, a) && Job(a)
    ensures JobStep(s, g, a).failure ==
            if a.RunCancel? && CancelFails(s, s.fibers[g].at.k, a.ok) then Some(NotRegistered) else None
  {
  }

  lemma FiberFails(s: Sys, f: FiberId, a: Action)
    requires Enabled(s, a) && Mover(a) == Some(f)
    ensures FiberStep(s, f, a).failure.Some? <==> Fails(s, a)
    ensures FiberStep(s, f, a).failure in {None, Some(AlreadyRegistered), Some(NotRegistered)}
  {
    if Job(a) {
      JobFails(s, f, a);
    } else {
      CallFails(s, f, a);
    }
  }

  lemma OutsideFails(s: Sys, a: Action)
    requires Enabled(s, a) && Mover(a).None? && !a.Dequeue? && !a.Leave?
    ensures OutsideStep(s, a).failure.Some? <==> Fails(s, a)
    ensures OutsideStep(s, a).failure in {None, Some(AlreadyRegistered), Some(NotRegistered)}
  {
  }

  /** The scheduler's own assertions never fail; an assertion of the event table fails exactly when
      an event is registered twice, or one that is not registered is cancelled or delivered. */
  lemma FailsExactly(s: Sys, a: Action)
    requires Inv(s) && Enabled(s, a)
    ensures Step(s, a).failure.Some? <==> Fails(s, a)
    ensures Step(s, a).failure in {None, Some(AlreadyRegistered), Some(NotRegistered)}
  {
    if a.Dequeue? {
      DequeueKeeps(s, a.w, a.spare);
    } else if !a.Leave? {
      if Mover(a).Some? {
        FiberFails(s, Mover(a).value, a);
      } else {
        OutsideFails(s, a);
      }
    }
  }

  // ---------- runs ----------

  /** `s'` is reached from `s` by the actions. */
  ghost predicate Leads(s: Sys, actions: seq<Action>, s': Sys)
    decreases |actions|
  {
    if actions == [] then s == s'
    else Enabled(s, actions[0]) && Leads(Step(s, actions[0]), actions[1..], s')
  }

  /** `s` occurs in a run of a new I/O manager. */
  ghost predicate Reachable(s: Sys) {
    exists s0: Sys, actions: seq<Action> :: Initial(s0) && Leads(s0, actions, s)
  }

  lemma InitialGood(s: Sys)
    requires Initial(s)
    ensures Inv(s) && Timely(s)
  {
    forall f
      ensures Fits(s, f)
    {
      assert E.KeysOf(s.table.slots, Fib(f)) == {} && Standing(s.fibers, Resuming(f)) == {};
    }
  }

  lemma {:induction false} RunsKeep(s: Sys, actions: seq<Action>, s': Sys)
    requires Inv(s) && Timely(s) && Leads(s, actions, s')
    ensures Inv(s') && Timely(s')
    decreases |actions|
  {
    if actions != [] {
      StepKeepsTokens(s, actions[0]);
      StepKeepsTime(s, actions[0]);
      RunsKeep(Step(s, actions[0]), actions[1..], s');
    }
  }

  lemma ReachableGood(s: Sys)
    requires Reachable(s)
    ensures Inv(s) && Timely(s)
  {
    var s0: Sys, actions: seq<Action> :| Initial(s0) && Leads(s0, actions, s);
    InitialGood(s0);
    RunsKeep(s0, actions, s);
  }

  // ---------- what holds at every moment ----------

  /** No wake-up is lost or duplicated: a fiber blocked in sleep, do_io or connect is held by exactly
      one of an event slot, a timer, a queued or running callback of one, or a run-queue entry, even
      before it has yielded. A fiber that yielded ready has exactly one run-queue entry, a new one or
      one on hold at most one, and no other fiber has any; none of these is held elsewhere. */
  lemma WakeUpToken(s: Sys, f: FiberId)
    requires Reachable(s)
    ensures f in s.fibers && Waiting(s.fibers[f]) ==>
              E.Held(s.table.slots, Fib(f)) + TimerCount(s.timers.timers, Resume(f)) + Count(s.queue, Call(Resume(f)))
              + |Standing(s.fibers, Resuming(f))| + Count(s.queue, Fib(f)) == 1
    ensures !(f in s.fibers && Waiting(s.fibers[f])) ==> Promises(s, f) == 0 && Queued(s, f) <= 1
    ensures f in s.fibers && s.fibers[f].state == READY ==> Queued(s, f) == 1
    ensures f !in s.fibers || s.fibers[f].state in {TERM, EXCEPT} ==> Queued(s, f) == 0
    ensures f in s.fibers && s.fibers[f].state == EXEC && !s.fibers[f].at.Parked? ==> Queued(s, f) == 0
  {
    ReachableGood(s);
    assert Fits(s, f) && (f in s.fibers ==> W.Shape(s.fibers[f]));
  }

  /** A fiber is EXEC iff exactly one worker runs it, the active count is the number of workers
      holding a task, no finished fiber and no empty task is queued, and the fiber a worker keeps for
      callbacks is INIT whenever the worker does not run it, so that reset may be called. */
  lemma WorkersSound(s: Sys)
    requires Reachable(s)
    ensures forall f :: f in s.fibers && s.fibers[f].state == EXEC <==> exists w :: w in s.running && s.running[w] == f
    ensures forall v, w :: v in s.running && w in s.running && s.running[v] == s.running[w] ==> v == w
    ensures s.active == |s.running|
    ensures forall k :: 0 <= k < |s.queue| ==>
                          match s.queue[k].work
                          case Nothing => false
                          case Fib(f) => f in s.fibers && s.fibers[f].state !in {TERM, EXCEPT}
                          case Call(_) => true
    ensures forall w :: w in s.retained && w !in s.running ==>
                          s.retained[w] in s.fibers && s.fibers[s.retained[w]] == Fiber(INIT, Body)
  {
    ReachableGood(s);
    forall f
      ensures f in s.fibers && s.fibers[f].state == EXEC <==> exists w :: w in s.running && s.running[w] == f
    {
      assert W.Executes(s.fibers, f) <==> W.Among(s.running, f);
    }
    forall k | 0 <= k < |s.queue|
      ensures match s.queue[k].work
              case Nothing => false
              case Fib(f) => f in s.fibers && s.fibers[f].state !in {TERM, EXCEPT}
              case Call(_) => true
    {
      assert s.queue[k] in s.queue;
      if s.queue[k].work.Fib? {
        QueuedMayRun(s, k, s.queue[k].work.fiber);
      }
    }
    forall w | w in s.retained && w !in s.running
      ensures s.retained[w] in s.fibers && s.fibers[s.retained[w]] == Fiber(INIT, Body)
    {
      assert W.Shape(s.fibers[s.retained[w]]);
    }
  }

  /** The step deletes an event that is not registered, past the guard in the code. */
  predicate DeletesUnregistered(s: Sys, a: Action) {
    a.DeleteEvent? && a.ok && a.k !in s.table.slots && !s.intended
  }

  lemma ConsumedShort(s: Sys, r: E.Result<FiberId>, why: Failure)
    requires r.Done? ==> E.Consumes(s.table, r.table, r.woken)
    ensures E.Short(Effect(s, r, why).table) == E.Short(s.table)
  {
  }

  lemma FiberShort(s: Sys, f: FiberId, a: Action)
    requires E.Sound(s.table) && Enabled(s, a) && Mover(a) == Some(f)
    ensures E.Short(FiberStep(s, f, a).table) == E.Short(s.table)
  {
    if a.Register? {
      E.AddConserves(s.table, s.calls[s.fibers[f].at.call].k, Fib(f), a.ok);
    } else if a.RunCancel? {
      var k := s.fibers[f].at.k;
      E.CancelConsumes(s.table, k, a.ok, s.intended);
      ConsumedShort(Noted(s, f, s.fibers[f].at.call, k, a.ok), E.Cancel(s.table, k, a.ok, s.intended), NotRegistered);
    }
  }

  lemma WakeShort(s: Sys, a: Action)
    requires E.Sound(s.table) && Enabled(s, a) && (a.CancelEvent? || a.CancelAll? || a.Deliver?)
    ensures E.Short(OutsideStep(s, a).table) == E.Short(s.table)
  {
    match a {
      case CancelEvent(k, ok) =>
        E.CancelConsumes(s.table, k, ok, s.intended);
        ConsumedShort(s, E.Cancel(s.table, k, ok, s.intended), NotRegistered);
      case CancelAll(fd, ok) =>
        E.CancelAllConsumes(s.table, fd, ok);
        ConsumedShort(s, E.CancelAll(s.table, fd, ok), NotRegistered);
      case Deliver(fd, reported, failed, ok) =>
        E.DeliverConsumes(s.table, fd, reported, failed, ok);
        ConsumedShort(s, E.Deliver(s.table, fd, reported, failed, ok), NotRegistered);
    }
  }

  lemma OutsideShort(s: Sys, a: Action)
    requires E.Sound(s.table) && Enabled(s, a) && Mover(a).None? && !a.Dequeue? && !a.Leave?
    ensures E.Short(OutsideStep(s, a).table) == E.Short(s.table) + One(DeletesUnregistered(s, a))
  {
    if a.CancelEvent? || a.CancelAll? || a.Deliver? {
      WakeShort(s, a);
    } else if a.AddCallback? {
      AddShort(s, a.k, a.cb, a.ok);
    } else if a.DeleteEvent? {
      DeleteShort(s, a.k, a.ok);
    }
  }

  lemma AddShort(s: Sys, k: E.Key, cb: nat, ok: bool)
    requires E.Sound(s.table)
    ensures E.Short(Effect(s, E.Add(s.table, k, Call(User(cb)), ok), AlreadyRegistered).table) == E.Short(s.table)
  {
    E.AddConserves(s.table, k, Call(User(cb)), ok);
  }

  lemma DeleteShort(s: Sys, k: E.Key, ok: bool)
    requires E.Sound(s.table) && E.Watching(s.table, k.0, ok)
    ensures E.Short(Effect(s, E.Delete(s.table, k, ok, s.intended), NotRegistered).table)
         == E.Short(s.table) + One(DeletesUnregistered(s, DeleteEvent(k, ok)))
  {
    E.DeleteConserves(s.table, k, ok, s.intended);
  }

  lemma StepShort(s: Sys, a: Action)
    requires E.Sound(s.table) && Enabled(s, a)
    ensures E.Short(Step(s, a).table) == E.Short(s.table) + One(DeletesUnregistered(s, a))
  {
    if Mover(a).Some? {
      FiberShort(s, Mover(a).value, a);
    } else if !a.Dequeue? && !a.Leave? {
      OutsideShort(s, a);
    }
  }

  /** How many steps of the run do so. */
  ghost function Unregistered(s: Sys, actions: seq<Action>): nat
    decreases |actions|
  {
    if actions == [] || !Enabled(s, actions[0]) then 0
    else One(DeletesUnregistered(s, actions[0])) + Unregistered(Step(s, actions[0]), actions[1..])
  }

  lemma {:induction false} RunShort(s: Sys, actions: seq<Action>, s': Sys)
    requires Inv(s) && Leads(s, actions, s')
    ensures E.Short(s'.table) == E.Short(s.table) + Unregistered(s, actions)
    decreases |actions|
  {
    if actions != [] {
      StepShort(s, actions[0]);
      StepKeepsTokens(s, actions[0]);
      RunShort(Step(s, actions[0]), actions[1..], s');
    }
  }

  /** Every slot is in use, and the pending-event counter is the number of registered events, less
      the number of deletes of unregistered events in the run so far. */
  lemma EventsConserved(s0: Sys, actions: seq<Action>, s: Sys)
    requires Initial(s0) && Leads(s0, actions, s)
    ensures s.table.pending == |s.table.slots| - Unregistered(s0, actions)
    ensures forall k :: k in s.table.slots ==> !s.table.slots[k].Nothing?
  {
    InitialGood(s0);
    RunShort(s0, actions, s);
    ReachableGood(s);
  }

  /** Safe stop: whenever stopping() is true, no fiber is ready or executing, no timer is set, no task
      is queued or running, and the fibers that wait in a sleep or a call are those an event slot
      still holds. No event is registered, and so no fiber waits, exactly if the run has deleted no
      unregistered event past the guard in the code. */
  lemma SafeStop(s0: Sys, actions: seq<Action>, s: Sys)
    requires Initial(s0) && Leads(s0, actions, s) && Stopping(s)
    ensures s.running == map[] && s.queue == [] && s.timers.timers == []
    ensures forall f :: f in s.fibers ==> s.fibers[f].state !in {READY, EXEC}
    ensures forall f :: f in s.fibers ==> (Waiting(s.fibers[f]) <==> E.Held(s.table.slots, Fib(f)) == 1)
    ensures s.table.slots == map[] <==> Unregistered(s0, actions) == 0
    ensures Unregistered(s0, actions) == 0 ==> forall f :: f in s.fibers ==> !Waiting(s.fibers[f])
  {
    EventsConserved(s0, actions, s);
    ReachableGood(s);
    assert s.running.Keys == {};
    NoSlots(s.table.slots);
    forall f | f in s.fibers
      ensures s.fibers[f].state !in {READY, EXEC} && (Waiting(s.fibers[f]) <==> E.Held(s.table.slots, Fib(f)) == 1)
    {
      NobodyRuns(s, f);
      assert Fits(s, f);
      StoppedFiber(s, f);
    }
  }

  lemma NoSlots(slots: map<E.Key, Work<FiberId>>)
    ensures |slots| == 0 <==> slots == map[]
    ensures slots == map[] ==> forall f :: E.Held(slots, Fib(f)) == 0
  {
    assert |slots| == 0 <==> slots.Keys == {};
    if slots == map[] {
      assert forall f :: E.KeysOf(slots, Fib(f)) == {};
    }
  }

  /** With nothing timed, queued or running, only an event slot can hold a fiber. */
  lemma StoppedFiber(s: Sys, f: FiberId)
    requires Fits(s, f) && f in s.fibers && W.Shape(s.fibers[f]) && s.fibers[f].state != EXEC
    requires s.timers.timers == [] && s.queue == [] && Standing(s.fibers, Resuming(f)) == {}
    ensures s.fibers[f].state != READY && (Waiting(s.fibers[f]) <==> E.Held(s.table.slots, Fib(f)) == 1)
  {
  }

  lemma NobodyRuns(s: Sys, f: FiberId)
    requires W.Inv(s) && s.running == map[] && f in s.fibers
    ensures s.fibers[f].state != EXEC && Standing(s.fibers, Resuming(f)) == {}
  {
    assert !W.Among(s.running, f);
    assert !W.Executes(s.fibers, f);
    NobodyResumes(s, f);
  }

  lemma NobodyResumes(s: Sys, f: FiberId)
    requires W.Inv(s) && s.running == map[]
    ensures Standing(s.fibers, Resuming(f)) == {}
  {
    forall g | g in s.fibers
      ensures s.fibers[g].at != Resuming(f)
    {
      assert !W.Among(s.running, g);
      assert !W.Executes(s.fibers, g) && W.Shape(s.fibers[g]);
    }
  }

  /** A call reports ETIMEDOUT, or is marked to do so, only when its time limit has passed since it
      began, however often it has retried; and a sleeper goes on only when its sleep is over. */
  lemma NeverEarly(s: Sys)
    requires Reachable(s)
    ensures forall c :: c in s.calls && (s.calls[c].timedOut || s.calls[c].cancelled) ==>
                          s.calls[c].to.Some? && s.now >= s.calls[c].begin + s.calls[c].to.value
    ensures forall f, u :: f in s.fibers && s.fibers[f] == Fiber(EXEC, Woken(Sleep(u))) ==> s.now >= u
  {
    ReachableGood(s);
    forall f | f in s.fibers
      ensures FiberSound(s.fibers, s.calls, f, s.fibers[f], s.now)
    {
    }
  }

  /** Only a fiber's step changes calls. */
  lemma CallsStay(s: Sys, a: Action)
    requires Enabled(s, a) && Mover(a).None?
    ensures Step(s, a).calls == s.calls
  {
  }

  lemma DeadInCall(s: Sys, f: FiberId, a: Action, c: nat)
    requires FiberEnabled(s, f, a) && !Job(a) && c in s.calls && CallOf(s.fibers[f].at) != Some(c)
    ensures c in CallStep(s, f, a).calls && CallStep(s, f, a).calls[c] == s.calls[c]
  {
  }

  lemma DeadUnchecked(s: Sys, g: FiberId, a: Action, c: nat)
    requires FiberEnabled(s, g, a) && (a.RunCheck? || a.RunResume?) && c in s.calls && !s.calls[c].alive
    ensures c in JobStep(s, g, a).calls && JobStep(s, g, a).calls[c] == s.calls[c]
  {
  }

  lemma DeadInJob(s: Sys, g: FiberId, a: Action, c: nat)
    requires FiberEnabled(s, g, a) && Job(a) && c in s.calls && !s.calls[c].alive
    ensures c in JobStep(s, g, a).calls && JobStep(s, g, a).calls[c] == s.calls[c]
  {
    if !a.RunCancel? {
      DeadUnchecked(s, g, a, c);
    }
  }

  lemma DeadCallStays(s: Sys, f: FiberId, a: Action, c: nat)
    requires Timely(s) && FiberEnabled(s, f, a) && c in s.calls && !s.calls[c].alive
    ensures c in FiberStep(s, f, a).calls && FiberStep(s, f, a).calls[c] == s.calls[c]
  {
    assert FiberSound(s.fibers, s.calls, f, s.fibers[f], s.now);
    if Job(a) {
      DeadInJob(s, f, a, c);
    } else {
      DeadInCall(s, f, a, c);
    }
  }

  /** The record of a call that has returned never changes again, and a timeout callback that tests
      the call after its return changes nothing but its own progress. */
  lemma ReturnedIsLeft(s: Sys, a: Action, c: nat)
    requires Reachable(s) && Enabled(s, a) && c in s.calls && !s.calls[c].alive
    ensures c in Step(s, a).calls && Step(s, a).calls[c] == s.calls[c]
    ensures a.RunCheck? && s.fibers[a.g].at.call == c ==> Step(s, a) == Moved(s, a.g, Finished)
  {
    ReachableGood(s);
    if Mover(a).Some? {
      DeadCallStays(s, Mover(a).value, a, c);
    } else {
      CallsStay(s, a);
    }
  }
}
