/** Time limits of blocked calls: the callback that enforces one is still to come, unless it came too
    early. */
module Limits {
  import opened Basics
  import opened Tasks
  import S = SchedulerSpec
  import T = TimerSpec
  import opened Protocol
  import opened Tokens
  import opened Timing
  import opened Runs

  function TimeoutOf(c: nat, call: IoCall): Callback {
    IoTimeout(c, call.k.0, call.k.1)
  }

  /** The call whose timer is running while the fiber is here. */
  function LimitedBy(at: Point): Option<nat> {
    match at
    case Armed(c) => Some(c)
    case Parked(Io(c)) => Some(c)
    case Woken(Io(c)) => Some(c)
    case _ => None
  }

  /** Call `c` has no time limit, or its timeout callback is to come, or has marked it already. */
  predicate Watched(s: Sys, c: nat) {
    c in s.calls && (s.calls[c].to.None? || s.calls[c].cancelled || Watchers(s, TimeoutOf(c, s.calls[c])) > 0)
  }

  ghost predicate Guarded(s: Sys) {
    forall f :: f in s.fibers && LimitedBy(s.fibers[f].at).Some? ==> Watched(s, LimitedBy(s.fibers[f].at).value)
  }

  lemma CountPrefix(q: Queue, q': Queue, w: Work<FiberId>)
    requires q <= q'
    ensures Count(q', w) >= Count(q, w)
  {
    CountConcat(q, q'[|q|..], w);
    assert q' == q + q'[|q|..];
  }

  // ---------- what the steps do to the watchers ----------

  lemma OwnTimerWatch(s: Sys, a: Action, cb: Callback)
    requires Enabled(s, a) && (a.CancelTimer? || a.RefreshTimer? || a.ResetTimer?) && cb.IoTimeout?
    ensures TimerCount(OutsideStep(s, a).timers.timers, cb) == TimerCount(s.timers.timers, cb)
  {
    assert Lacks(s.timers.timers, a.id, cb);
    match a
    case CancelTimer(id) => CancelCounts(s.timers, id, cb);
    case RefreshTimer(id) => RefreshCounts(s.timers, id, s.now, cb);
    case ResetTimer(id, ms, fromNow) => ResetCounts(s.timers, id, ms, fromNow, s.now, cb);
  }

  lemma ExpireWatch(s: Sys, cb: Callback)
    requires Plain(s) && cb.IoTimeout?
    ensures Watchers(Expired(s), cb) == Watchers(s, cb)
  {
    CountScheduledAll(s.queue, Works(T.Callbacks(T.Due(s.timers, s.now))), Call(cb));
    TimerExpire(s.timers, s.now, cb);
  }

  lemma OutsideWatch(s: Sys, a: Action, cb: Callback)
    requires Plain(s) && Enabled(s, a) && Mover(a).None? && !a.Dequeue? && !a.Leave? && cb.IoTimeout?
    ensures Watchers(OutsideStep(s, a), cb) >= Watchers(s, cb)
  {
    var s' := OutsideStep(s, a);
    if a.Expire? {
      ExpireWatch(s, cb);
    } else {
      CountPrefix(s.queue, s'.queue, Call(cb));
      if a.NewFiber? {
        StandingMove(s.fibers, a.f, Fiber(INIT, Body), Entrance(cb));
      } else if a.AddTimer? {
        AddEntryCounts(s.timers, T.Entry(s.addresses, s.now + a.ms, a.ms, a.recurring,
                                         if a.user.Some? then Some(User(a.user.value)) else None), cb);
      } else if a.CancelTimer? || a.RefreshTimer? || a.ResetTimer? {
        OwnTimerWatch(s, a, cb);
      }
    }
  }

  /** A call cancels no timer but its own. */
  lemma UnsetWatch(s: Sys, c: nat, cb: Callback)
    requires Plain(s) && c in s.calls && cb.IoTimeout? && cb.call != c
    ensures TimerCount(Unset(s, s.calls[c].timer).timers.timers, cb) == TimerCount(s.timers.timers, cb)
  {
    if s.calls[c].timer.Some? {
      CancelCounts(s.timers, s.calls[c].timer.value, cb);
    }
  }

  /** A fiber's step takes away no timer, but of the call it goes on with. */
  lemma MoreTimers(s: Sys, f: FiberId, a: Action, cb: Callback)
    requires FiberEnabled(s, f, a) && (a.GoToSleep? || a.Again?)
    ensures TimerCount(CallStep(s, f, a).timers.timers, cb) >= TimerCount(s.timers.timers, cb)
  {
    match a {
      case GoToSleep(_, ms) =>
        AddEntryCounts(s.timers, T.Entry(s.addresses, s.now + ms, ms, false, Some(Resume(f))), cb);
      case Again(_) => AgainWatch(s, f, s.fibers[f].at.call, cb);
    }
  }

  lemma RegisterTimers(s: Sys, f: FiberId, c: nat, ok: bool, cb: Callback)
    requires Plain(s) && f in s.fibers && c in s.calls && cb.IoTimeout? && cb.call != c
    ensures TimerCount(Registered(s, f, c, ok).timers.timers, cb) == TimerCount(s.timers.timers, cb)
  {
    UnsetWatch(s, c, cb);
  }

  lemma ContinueTimers(s: Sys, f: FiberId, wait: Wait, cb: Callback)
    requires Plain(s) && f in s.fibers && cb.IoTimeout? && (wait.Io? ==> wait.call in s.calls && cb.call != wait.call)
    ensures TimerCount(Continued(s, f, wait).timers.timers, cb) == TimerCount(s.timers.timers, cb)
  {
    if wait.Io? {
      UnsetWatch(s, wait.call, cb);
    }
  }

  lemma CallTimers(s: Sys, f: FiberId, a: Action, cb: Callback)
    requires Plain(s) && FiberEnabled(s, f, a) && !Job(a) && cb.IoTimeout?
    requires CallOf(s.fibers[f].at) != Some(cb.call)
    ensures TimerCount(CallStep(s, f, a).timers.timers, cb) >= TimerCount(s.timers.timers, cb)
  {
    if a.GoToSleep? || a.Again? {
      MoreTimers(s, f, a, cb);
    } else if a.Register? {
      RegisterTimers(s, f, s.fibers[f].at.call, a.ok, cb);
    } else if a.Awake? {
      ContinueTimers(s, f, s.fibers[f].at.wait, cb);
    }
  }

  lemma FiberTimers(s: Sys, f: FiberId, a: Action, cb: Callback)
    requires Plain(s) && FiberEnabled(s, f, a) && cb.IoTimeout? && CallOf(s.fibers[f].at) != Some(cb.call)
    ensures TimerCount(FiberStep(s, f, a).timers.timers, cb) >= TimerCount(s.timers.timers, cb)
  {
    if !Job(a) {
      CallTimers(s, f, a, cb);
    }
  }

  /** Nor does it take away another watcher, but itself. */
  lemma FiberWatch(s: Sys, f: FiberId, a: Action, cb: Callback)
    requires FiberEnabled(s, f, a) && s.fibers[f].at != Entrance(cb)
    requires TimerCount(FiberStep(s, f, a).timers.timers, cb) >= TimerCount(s.timers.timers, cb)
    ensures Watchers(FiberStep(s, f, a), cb) >= Watchers(s, cb)
  {
    CountPrefix(s.queue, FiberStep(s, f, a).queue, Call(cb));
    StandingMove(s.fibers, f, FiberStep(s, f, a).fibers[f], Entrance(cb));
  }

  /** A call keeps its terms and its mark. */
  predicate KeepsCall(calls: Calls, calls': Calls, c: nat) {
    && c in calls && c in calls' && calls'[c].k == calls[c].k && calls'[c].to == calls[c].to
    && (calls[c].cancelled ==> calls'[c].cancelled)
  }

  lemma RegisterKeepsCall(s: Sys, f: FiberId, d: nat, ok: bool, c: nat)
    requires f in s.fibers && d in s.calls && c in s.calls
    ensures KeepsCall(s.calls, Registered(s, f, d, ok).calls, c)
  {
  }

  lemma CallKeepsCall(s: Sys, f: FiberId, a: Action, c: nat)
    requires FiberEnabled(s, f, a) && !Job(a) && c in s.calls
    ensures KeepsCall(s.calls, CallStep(s, f, a).calls, c)
  {
    if a.Register? {
      RegisterKeepsCall(s, f, s.fibers[f].at.call, a.ok, c);
    } else if a.Judge? {
      JudgeKeepsCall(s, f, s.fibers[f].at.call, c);
    }
  }

  lemma JudgeKeepsCall(s: Sys, f: FiberId, d: nat, c: nat)
    requires f in s.fibers && d in s.calls && c in s.calls
    ensures KeepsCall(s.calls, Judged(s, f, d).calls, c)
  {
  }

  lemma JobKeepsCall(s: Sys, g: FiberId, a: Action, c: nat)
    requires FiberEnabled(s, g, a) && Job(a) && c in s.calls
    ensures KeepsCall(s.calls, JobStep(s, g, a).calls, c)
    ensures a.RunCheck? && s.fibers[g].at.call == c && s.calls[c].alive ==> JobStep(s, g, a).calls[c].cancelled
  {
  }

  /** What calls keep, and when a call is marked. */
  lemma FiberCalls(s: Sys, f: FiberId, a: Action, c: nat)
    requires FiberEnabled(s, f, a) && c in s.calls
    ensures KeepsCall(s.calls, FiberStep(s, f, a).calls, c)
    ensures a.RunCheck? && s.fibers[f].at.call == c && s.calls[c].alive ==> FiberStep(s, f, a).calls[c].cancelled
  {
    if Job(a) {
      JobKeepsCall(s, f, a, c);
    } else {
      CallKeepsCall(s, f, a, c);
    }
  }

  /** Arming a call with a time limit sets a timer for it. */
  lemma AgainWatch(s: Sys, f: FiberId, c: nat, cb: Callback)
    requires f in s.fibers && c in s.calls
    ensures TimerCount(Rearmed(s, f, c).timers.timers, cb) >= TimerCount(s.timers.timers, cb)
    ensures s.calls[c].to.Some? ==> TimerCount(Rearmed(s, f, c).timers.timers, TimeoutOf(c, s.calls[c])) > 0
  {
    var call := s.calls[c];
    if call.to.Some? {
      var e := T.Entry(s.addresses, s.now + call.to.value, call.to.value, false, Some(TimeoutOf(c, call)));
      AddEntryCounts(s.timers, e, cb);
      AddEntryCounts(s.timers, e, TimeoutOf(c, call));
    }
  }

  lemma DequeueFiberWatch(s: Sys, w: nat, spare: FiberId, cb: Callback)
    requires Enabled(s, Dequeue(w, spare)) && Taken(s, w, spare).failure.None? && cb.IoTimeout?
    requires s.queue[Next(s, w)].work.Fib?
    ensures Watchers(Taken(s, w, spare), cb) == Watchers(s, cb)
  {
    var f := s.queue[Next(s, w)].work.fiber;
    TakenCounts(s, Taken(s, w, spare), Next(s, w), f, s.fibers[f].at, cb);
  }

  lemma DequeueCallWatch(s: Sys, w: nat, spare: FiberId, cb: Callback)
    requires Enabled(s, Dequeue(w, spare)) && Taken(s, w, spare).failure.None? && cb.IoTimeout?
    requires s.queue[Next(s, w)].work.Call?
    requires w in s.retained && s.retained[w] in s.fibers ==> s.fibers[s.retained[w]].at == Body
    ensures Watchers(Taken(s, w, spare), cb) == Watchers(s, cb)
  {
    var g := if w in s.retained then s.retained[w] else spare;
    TakenCounts(s, Taken(s, w, spare), Next(s, w), g, Entrance(s.queue[Next(s, w)].work.cb), cb);
  }

  lemma DequeueWatch(s: Sys, w: nat, spare: FiberId, cb: Callback)
    requires Inv(s) && Enabled(s, Dequeue(w, spare)) && cb.IoTimeout?
    ensures Watchers(Taken(s, w, spare), cb) == Watchers(s, cb)
  {
    assert s.queue[Next(s, w)] in s.queue;
    DequeueKeeps(s, w, spare);
    if s.queue[Next(s, w)].work.Fib? {
      DequeueFiberWatch(s, w, spare, cb);
    } else {
      if w in s.retained {
        KeptBody(s, w);
      }
      DequeueCallWatch(s, w, spare, cb);
    }
  }

  lemma LeaveWatch(s: Sys, w: nat, exit: S.Exit, cb: Callback)
    requires Enabled(s, Leave(w, exit)) && cb.IoTimeout?
    ensures Watchers(Left(s, w, exit), cb) == Watchers(s, cb)
  {
    var f := s.running[w];
    CountScheduled(s.queue, Fib(f), ANY, Call(cb));
    StandingMove(s.fibers, f, Left(s, w, exit).fibers[f], Entrance(cb));
  }

  // ---------- every step keeps the guard ----------

  /** Calls as they were, no fiber newly limited, no watcher gone. */
  lemma CallsGuard(s: Sys, s': Sys)
    requires Guarded(s) && s'.calls == s.calls
    requires forall f :: f in s'.fibers && LimitedBy(s'.fibers[f].at).Some? ==>
                           f in s.fibers && LimitedBy(s.fibers[f].at) == LimitedBy(s'.fibers[f].at)
    requires forall cb: Callback :: cb.IoTimeout? ==> Watchers(s', cb) >= Watchers(s, cb)
    ensures Guarded(s')
  {
  }

  lemma OutsideGuards(s: Sys, a: Action)
    requires Plain(s) && Guarded(s) && Enabled(s, a) && Mover(a).None? && !a.Dequeue? && !a.Leave?
    ensures Guarded(OutsideStep(s, a))
  {
    forall cb: Callback | cb.IoTimeout?
      ensures Watchers(OutsideStep(s, a), cb) >= Watchers(s, cb)
    {
      OutsideWatch(s, a, cb);
    }
    CallsGuard(s, OutsideStep(s, a));
  }

  /** The guard of a call that another fiber is in. */
  lemma OtherGuards(s: Sys, f: FiberId, a: Action, c: nat)
    requires Plain(s) && FiberEnabled(s, f, a) && Watched(s, c) && s.calls[c].alive
    requires CallOf(s.fibers[f].at) != Some(c)
    ensures Watched(FiberStep(s, f, a), c)
  {
    var cb := TimeoutOf(c, s.calls[c]);
    FiberCalls(s, f, a, c);
    if s.fibers[f].at != Entrance(cb) {
      FiberTimers(s, f, a, cb);
      FiberWatch(s, f, a, cb);
    }
  }

  lemma AgainGuards(s: Sys, f: FiberId, c: nat)
    requires f in s.fibers && c in s.calls
    ensures Watched(Rearmed(s, f, c), c) && Rearmed(s, f, c).fibers[f].at == Armed(c)
  {
    AgainWatch(s, f, c, TimeoutOf(c, s.calls[c]));
  }

  lemma RegisterGuards(s: Sys, f: FiberId, c: nat, ok: bool)
    requires f in s.fibers && s.fibers[f] == Fiber(EXEC, Armed(c)) && c in s.calls && Watched(s, c)
    ensures Registered(s, f, c, ok).fibers[f].at == Body || Watched(Registered(s, f, c, ok), c)
    ensures LimitedBy(Registered(s, f, c, ok).fibers[f].at) in {None, Some(c)}
  {
    var s' := Registered(s, f, c, ok);
    StandingMove(s.fibers, f, s'.fibers[f], Entrance(TimeoutOf(c, s.calls[c])));
  }

  /** Where a fiber's own call is limited after its step. */
  lemma LimitedAfter(s: Sys, f: FiberId, a: Action)
    requires FiberEnabled(s, f, a) && !a.Again? && !a.Register?
    ensures LimitedBy(FiberStep(s, f, a).fibers[f].at).None?
  {
  }

  /** The guard of the fiber's own call. */
  lemma SelfGuards(s: Sys, f: FiberId, a: Action)
    requires Guarded(s) && FiberEnabled(s, f, a)
    ensures var l := LimitedBy(FiberStep(s, f, a).fibers[f].at);
            l.Some? ==> Watched(FiberStep(s, f, a), l.value)
  {
    if a.Again? {
      AgainGuards(s, f, s.fibers[f].at.call);
    } else if a.Register? {
      RegisterGuards(s, f, s.fibers[f].at.call, a.ok);
    } else {
      LimitedAfter(s, f, a);
    }
  }

  lemma FiberGuards(s: Sys, f: FiberId, a: Action)
    requires Plain(s) && Timely(s) && Guarded(s) && FiberEnabled(s, f, a)
    ensures Guarded(FiberStep(s, f, a))
  {
    var s' := FiberStep(s, f, a);
    SelfGuards(s, f, a);
    forall g | g in s'.fibers && g != f && LimitedBy(s'.fibers[g].at).Some?
      ensures Watched(s', LimitedBy(s'.fibers[g].at).value)
    {
      var c := LimitedBy(s'.fibers[g].at).value;
      OwnCalls(s, f, g, c);
      OtherGuards(s, f, a, c);
    }
  }

  /** Two fibers are in two calls, which have not returned. */
  lemma OwnCalls(s: Sys, f: FiberId, g: FiberId, c: nat)
    requires Timely(s) && f in s.fibers && g in s.fibers && f != g && LimitedBy(s.fibers[g].at) == Some(c)
    ensures c in s.calls && s.calls[c].alive && CallOf(s.fibers[f].at) != Some(c)
  {
    assert FiberSound(s.fibers, s.calls, g, s.fibers[g], s.now) && FiberSound(s.fibers, s.calls, f, s.fibers[f], s.now);
  }

  /** A fiber that is swapped in is as limited as before. */
  lemma TakenLimits(fibers: Fibers, g: FiberId, fb: Fiber)
    requires LimitedBy(fb.at) == if g in fibers then LimitedBy(fibers[g].at) else None
    ensures forall f :: f in fibers[g := fb] && LimitedBy(fibers[g := fb][f].at).Some? ==>
                          f in fibers && LimitedBy(fibers[f].at) == LimitedBy(fibers[g := fb][f].at)
  {
  }

  lemma RunnerLimit(s: Sys, w: nat, k: nat, spare: FiberId, s': Sys)
    requires Starts(s, w, k, spare, s') && spare !in s.fibers
    requires w in s.retained ==> s.retained[w] in s.fibers && s.fibers[s.retained[w]].at == Body
    ensures var g := Runner(s, w, k, spare);
            && g in s'.fibers && s'.fibers == s.fibers[g := s'.fibers[g]]
            && LimitedBy(s'.fibers[g].at) == if g in s.fibers then LimitedBy(s.fibers[g].at) else None
  {
  }

  lemma DequeueGuards(s: Sys, w: nat, spare: FiberId)
    requires Inv(s) && Guarded(s) && Enabled(s, Dequeue(w, spare))
    ensures Guarded(Taken(s, w, spare))
  {
    forall cb: Callback | cb.IoTimeout?
      ensures Watchers(Taken(s, w, spare), cb) >= Watchers(s, cb)
    {
      DequeueWatch(s, w, spare, cb);
    }
    assert s.queue[Next(s, w)] in s.queue;
    DequeueKeeps(s, w, spare);
    if w in s.retained {
      KeptBody(s, w);
    }
    TakenStarts(s, w, Next(s, w), spare, Taken(s, w, spare));
    RunnerLimit(s, w, Next(s, w), spare, Taken(s, w, spare));
    TakenLimits(s.fibers, Runner(s, w, Next(s, w), spare), Taken(s, w, spare).fibers[Runner(s, w, Next(s, w), spare)]);
    CallsGuard(s, Taken(s, w, spare));
  }

  lemma LeaveGuards(s: Sys, w: nat, exit: S.Exit)
    requires Guarded(s) && Enabled(s, Leave(w, exit))
    ensures Guarded(Left(s, w, exit))
  {
    forall cb: Callback | cb.IoTimeout?
      ensures Watchers(Left(s, w, exit), cb) >= Watchers(s, cb)
    {
      LeaveWatch(s, w, exit, cb);
    }
    CallsGuard(s, Left(s, w, exit));
  }

  lemma StepGuards(s: Sys, a: Action)
    requires Inv(s) && Timely(s) && Guarded(s) && Enabled(s, a)
    ensures Guarded(Step(s, a))
  {
    if a.Dequeue? {
      DequeueGuards(s, a.w, a.spare);
    } else if a.Leave? {
      LeaveGuards(s, a.w, a.exit);
    } else if Mover(a).Some? {
      FiberGuards(s, Mover(a).value, a);
    } else {
      OutsideGuards(s, a);
    }
  }

  lemma {:induction false} RunGuards(s: Sys, actions: seq<Action>, s': Sys)
    requires Inv(s) && Timely(s) && Guarded(s) && Leads(s, actions, s')
    ensures Guarded(s')
    decreases |actions|
  {
    if actions != [] {
      StepGuards(s, actions[0]);
      StepKeepsTokens(s, actions[0]);
      StepKeepsTime(s, actions[0]);
      RunGuards(Step(s, actions[0]), actions[1..], s');
    }
  }

  lemma ReachableGuarded(s: Sys)
    requires Reachable(s)
    ensures Guarded(s)
  {
    var s0: Sys, actions: seq<Action> :| Initial(s0) && Leads(s0, actions, s);
    InitialGood(s0);
    RunGuards(s0, actions, s);
  }

  /** While a fiber is blocked in a call with a time limit, the limit is being watched: the call's
      timer is set, or its callback is queued or about to test the call, or the callback has marked
      the call, which will then end with ETIMEDOUT when it is woken. */
  lemma LimitWatched(s: Sys, f: FiberId, c: nat)
    requires Reachable(s) && f in s.fibers && s.fibers[f].at in {Parked(Io(c)), Woken(Io(c))}
    ensures c in s.calls
    ensures s.calls[c].to.Some? && !s.calls[c].cancelled ==>
              TimerCount(s.timers.timers, TimeoutOf(c, s.calls[c])) + Count(s.queue, Call(TimeoutOf(c, s.calls[c])))
              + |Standing(s.fibers, Checking(c, s.calls[c].k))| > 0
  {
    ReachableGuarded(s);
    assert Watched(s, c);
  }
}
