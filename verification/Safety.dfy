/** Every step keeps the invariants of workers and tokens. */
module Safety {
  import opened Basics
  import opened Tasks
  import S = SchedulerSpec
  import E = EventSpec
  import T = TimerSpec
  import W = Workers
  import opened Protocol
  import opened Tokens
  import opened PlainSteps

  // ---------- steps outside fibers ----------

  lemma SameFibers(s: Sys, s': Sys)
    requires Good(s) && Plain(s') && Passes(s, s') && s'.fibers == s.fibers && s'.retained == s.retained
    ensures Good(s')
  {
    PassingFits(s, s');
  }

  lemma TimeKeeps(s: Sys, a: Action)
    requires Good(s) && Enabled(s, a) && (a.Tick? || a.Stop?)
    ensures Good(Step(s, a))
  {
    SameTokens(s, Step(s, a));
    SameFibers(s, Step(s, a));
  }

  /** A new timer that is no sleeper's. */
  lemma NewTimerKeeps(s: Sys, ms: nat, recurring: bool, cb: Option<Callback>)
    requires Good(s) && (Library(cb) ==> cb.value.IoTimeout? && !recurring)
    ensures Good(NewTimer(s, ms, recurring, cb))
    ensures forall e :: e in NewTimer(s, ms, recurring, cb).timers.timers && e.id == s.addresses ==> e.cb == cb
  {
    var e, s' := T.Entry(s.addresses, s.now + ms, ms, recurring, cb), NewTimer(s, ms, recurring, cb);
    AddPlain(s.timers, e, s.calls);
    forall f
      ensures TimerCount(s'.timers.timers, Resume(f)) == TimerCount(s.timers.timers, Resume(f))
    {
      AddEntryCounts(s.timers, e, Resume(f));
    }
    TimersPass(s, s');
    SameFibers(s, s');
  }

  lemma OwnNoSleeper(s: Sys, id: nat)
    requires OwnTimer(s, id)
    ensures forall f :: Lacks(s.timers.timers, id, Resume(f))
  {
  }

  lemma ChangeTimerKeeps(s: Sys, a: Action)
    requires Good(s) && Enabled(s, a) && (a.CancelTimer? || a.RefreshTimer? || a.ResetTimer?)
    ensures Good(Step(s, a))
  {
    var s' := Step(s, a);
    OwnNoSleeper(s, a.id);
    forall f
      ensures TimerCount(s'.timers.timers, Resume(f)) == TimerCount(s.timers.timers, Resume(f))
    {
      match a {
        case CancelTimer(id) => CancelCounts(s.timers, id, Resume(f));
        case RefreshTimer(id) => RefreshCounts(s.timers, id, s.now, Resume(f));
        case ResetTimer(id, ms, fromNow) => ResetCounts(s.timers, id, ms, fromNow, s.now, Resume(f));
      }
    }
    match a {
      case CancelTimer(id) => CancelDescends(s.timers, id);
      case RefreshTimer(id) => RefreshDescends(s.timers, id, s.now);
      case ResetTimer(id, ms, fromNow) => ResetDescends(s.timers, id, ms, fromNow, s.now);
    }
    DescendsPlain(s.timers.timers, s'.timers.timers, s.addresses, s.calls);
    TimersPass(s, s');
    SameFibers(s, s');
  }

  lemma ExpireKeeps(s: Sys)
    requires Good(s)
    ensures Good(Expired(s))
  {
    ExpireDescends(s.timers, s.now);
    DescendsPlain(s.timers.timers, Expired(s).timers.timers, s.addresses, s.calls);
    ScheduledAllPlain(s.queue, Works(T.Callbacks(T.Due(s.timers, s.now))));
    ExpiryPasses(s);
    SameFibers(s, Expired(s));
  }

  /** Work handed over by the event table. */
  lemma ConsumingKeeps(s: Sys, r: E.Result<FiberId>, why: Failure)
    requires Good(s) && (r.Done? ==> E.Consumes(s.table, r.table, r.woken))
    ensures Good(Effect(s, r, why))
    ensures Passes(s, Effect(s, r, why)) && Plain(Effect(s, r, why))
  {
    EffectPlain(s, r, why);
    if r.Done? {
      WokenPasses(s, Effect(s, r, why), r.woken);
    } else {
      SameTokens(s, Effect(s, r, why));
    }
    SameFibers(s, Effect(s, r, why));
  }

  lemma CancelEventKeeps(s: Sys, k: E.Key, ok: bool, why: Failure)
    requires Good(s)
    ensures Good(Effect(s, E.Cancel(s.table, k, ok, s.intended), why))
  {
    E.CancelConsumes(s.table, k, ok, s.intended);
    ConsumingKeeps(s, E.Cancel(s.table, k, ok, s.intended), why);
  }

  lemma CancelAllKeeps(s: Sys, fd: nat, ok: bool)
    requires Good(s)
    ensures Good(Effect(s, E.CancelAll(s.table, fd, ok), NotRegistered))
  {
    E.CancelAllConsumes(s.table, fd, ok);
    ConsumingKeeps(s, E.CancelAll(s.table, fd, ok), NotRegistered);
  }

  lemma DeliverKeeps(s: Sys, fd: nat, reported: E.Mask, failed: bool, ok: bool)
    requires Good(s)
    ensures Good(Effect(s, E.Deliver(s.table, fd, reported, failed, ok), NotRegistered))
  {
    E.DeliverConsumes(s.table, fd, reported, failed, ok);
    ConsumingKeeps(s, E.Deliver(s.table, fd, reported, failed, ok), NotRegistered);
  }

  /** Slots of user callbacks come and go without a token. */
  lemma CallbackSlotKeeps(s: Sys, slots: map<E.Key, Work<FiberId>>, pending: int)
    requires Good(s) && PlainTable(E.Table(slots, pending))
    requires forall f :: E.Held(slots, Fib(f)) == E.Held(s.table.slots, Fib(f))
    ensures Good(s.(table := E.Table(slots, pending)))
  {
    SameFibers(s, s.(table := E.Table(slots, pending)));
  }

  lemma AddCallbackKeeps(s: Sys, k: E.Key, cb: nat, ok: bool)
    requires Good(s)
    ensures Good(Effect(s, E.Add(s.table, k, Call(User(cb)), ok), AlreadyRegistered))
  {
    if k in s.table.slots || !ok {
      SameTokens(s, Effect(s, E.Add(s.table, k, Call(User(cb)), ok), AlreadyRegistered));
      SameFibers(s, Effect(s, E.Add(s.table, k, Call(User(cb)), ok), AlreadyRegistered));
    } else {
      E.AddConserves(s.table, k, Call(User(cb)), ok);
      forall f
        ensures E.Held(s.table.slots[k := Call(User(cb))], Fib(f)) == E.Held(s.table.slots, Fib(f))
      {
        E.HeldAfterAdd(s.table.slots, k, Call(User(cb)), Fib(f));
      }
      CallbackSlotKeeps(s, s.table.slots[k := Call(User(cb))], s.table.pending + 1);
    }
  }

  lemma DeletedHeld(t: E.Table<FiberId>, k: E.Key, ok: bool, intended: bool, f: FiberId)
    requires k in t.slots ==> t.slots[k].Call?
    ensures E.Held(E.Delete(t, k, ok, intended).table.slots, Fib(f)) == E.Held(t.slots, Fib(f))
  {
    if k in t.slots {
      E.HeldAfterRemoval(t.slots, k, Fib(f));
    } else {
      assert t.slots - {k} == t.slots;
    }
  }

  lemma DeletedPlain(t: E.Table<FiberId>, k: E.Key, ok: bool, intended: bool)
    requires PlainTable(t)
    ensures PlainTable(E.Delete(t, k, ok, intended).table)
  {
  }

  lemma DeleteEventKeeps(s: Sys, k: E.Key, ok: bool)
    requires Good(s) && (k in s.table.slots ==> s.table.slots[k].Call?)
    ensures Good(Effect(s, E.Delete(s.table, k, ok, s.intended), NotRegistered))
  {
    var t := E.Delete(s.table, k, ok, s.intended).table;
    DeletedPlain(s.table, k, ok, s.intended);
    forall f
      ensures E.Held(t.slots, Fib(f)) == E.Held(s.table.slots, Fib(f))
    {
      DeletedHeld(s.table, k, ok, s.intended, f);
    }
    CallbackSlotKeeps(s, t.slots, t.pending);
  }

  lemma ScheduleCallKeeps(s: Sys, cb: nat, thread: int)
    requires Good(s) && Enabled(s, ScheduleCall(cb, thread))
    ensures Good(Step(s, ScheduleCall(cb, thread)))
  {
    var s' := Step(s, ScheduleCall(cb, thread));
    forall f
      ensures Promises(s', f) == Promises(s, f) && Queued(s', f) == Queued(s, f)
    {
      CountScheduled(s.queue, Call(User(cb)), thread, Fib(f));
      CountScheduled(s.queue, Call(User(cb)), thread, Call(Resume(f)));
    }
    SameFibers(s, s');
  }

  lemma ScheduleFiberKeeps(s: Sys, g: FiberId, thread: int)
    requires Inv(s) && Enabled(s, ScheduleFiber(g, thread))
    ensures Good(Step(s, ScheduleFiber(g, thread)))
  {
    var s' := Step(s, ScheduleFiber(g, thread));
    CountNone(s.queue, Fib(g));
    forall f
      ensures Fits(s', f)
    {
      assert Fits(s, f) && StatusOf(s', f) == StatusOf(s, f);
      CountScheduled(s.queue, Fib(g), thread, Fib(f));
      CountScheduled(s.queue, Fib(g), thread, Call(Resume(f)));
    }
  }

  lemma NewFiberKeeps(s: Sys, g: FiberId)
    requires Inv(s) && Enabled(s, NewFiber(g))
    ensures Good(Step(s, NewFiber(g)))
  {
    var s' := Step(s, NewFiber(g));
    forall f
      ensures Fits(s', f)
    {
      assert Fits(s, f);
      StandingMove(s.fibers, g, Fiber(INIT, Body), Resuming(f));
    }
  }

  // ---------- steps of an executing fiber ----------

  /** The fiber executes and is not about to yield for a wake-up. */
  predicate Busy(s: Sys, f: FiberId) {
    f in s.fibers && s.fibers[f].state == EXEC && !s.fibers[f].at.Parked?
  }

  lemma MoveStatus(s: Sys, s': Sys, g: FiberId, p: Point)
    requires Busy(s, g) && s'.fibers == s.fibers[g := Fiber(EXEC, p)] && s'.retained == s.retained
    ensures forall f :: f != g ==> StatusOf(s', f) == StatusOf(s, f)
    ensures StatusOf(s, g) == Out && StatusOf(s', g) == if p.Parked? then Blocked else Out
  {
  }

  /** The fiber goes from one point to another where it neither waits nor resumes a sleeper. */
  lemma MoveKeeps(s: Sys, g: FiberId, p: Point)
    requires Good(s) && Busy(s, g) && !s.fibers[g].at.Resuming? && !p.Parked? && !p.Resuming?
    ensures Good(Moved(s, g, p))
  {
    var s' := Moved(s, g, p);
    MoveStatus(s, s', g, p);
    forall f
      ensures Promises(s', f) == Promises(s, f) && Queued(s', f) == Queued(s, f)
    {
      StandingMove(s.fibers, g, Fiber(EXEC, p), Resuming(f));
    }
    PassingFits(s, s');
  }

  /** A change of the calls alone. */
  lemma CallKeeps(s: Sys, c: nat, call: IoCall)
    requires Good(s)
    requires call.timer.None? || (c in s.calls && call.timer == s.calls[c].timer)
    ensures Good(s.(calls := s.calls[c := call]))
  {
    var s' := s.(calls := s.calls[c := call]);
    CallPlain(s.timers.timers, s.addresses, s.calls, c, call);
    SameTokens(s, s');
    SameFibers(s, s');
  }

  lemma ReturnKeeps(s: Sys, f: FiberId, c: nat, timedOut: bool)
    requires Good(s) && Busy(s, f) && !s.fibers[f].at.Resuming? && c in s.calls
    ensures Good(Returned(s, f, c, timedOut))
  {
    MoveKeeps(s, f, Body);
    CallKeeps(Moved(s, f, Body), c, s.calls[c].(alive := false, timedOut := timedOut));
  }

  lemma UnsetKeeps(s: Sys, c: nat)
    requires Good(s) && c in s.calls
    ensures Good(Unset(s, s.calls[c].timer))
  {
    if s.calls[c].timer.Some? {
      var id, s' := s.calls[c].timer.value, Unset(s, s.calls[c].timer);
      CancelDescends(s.timers, id);
      DescendsPlain(s.timers.timers, s'.timers.timers, s.addresses, s.calls);
      forall f
        ensures TimerCount(s'.timers.timers, Resume(f)) == TimerCount(s.timers.timers, Resume(f))
      {
        CancelCounts(s.timers, id, Resume(f));
      }
      TimersPass(s, s');
      SameFibers(s, s');
    }
  }

  lemma RearmKeeps(s: Sys, f: FiberId, c: nat)
    requires Good(s) && Busy(s, f) && !s.fibers[f].at.Resuming? && c in s.calls
    ensures Good(Rearmed(s, f, c))
  {
    var call := s.calls[c];
    if call.to.None? {
      MoveKeeps(s, f, Armed(c));
      CallKeeps(Moved(s, f, Armed(c)), c, call.(timer := None));
    } else {
      var cb := Some(IoTimeout(c, call.k.0, call.k.1));
      var s1 := NewTimer(s, call.to.value, false, cb);
      NewTimerKeeps(s, call.to.value, false, cb);
      MoveKeeps(s1, f, Armed(c));
      var s2 := Moved(s1, f, Armed(c));
      var call' := call.(timer := Some(s.addresses));
      CallPlain(s2.timers.timers, s2.addresses, s2.calls, c, call');
      SameTokens(s2, s2.(calls := s.calls[c := call']));
      SameFibers(s2, s2.(calls := s.calls[c := call']));
    }
  }

  lemma RegisterKeeps(s: Sys, f: FiberId, c: nat, ok: bool)
    requires Good(s) && Busy(s, f) && s.fibers[f].at == Armed(c) && c in s.calls
    ensures Good(Registered(s, f, c, ok))
  {
    var k, s' := s.calls[c].k, Registered(s, f, c, ok);
    if k in s.table.slots {
      MoveKeeps(s, f, Armed(c));
      SameTokens(Moved(s, f, Armed(c)), s');
      SameFibers(Moved(s, f, Armed(c)), s');
    } else if !ok {
      UnsetKeeps(s, c);
      ReturnKeeps(Unset(s, s.calls[c].timer), f, c, false);
    } else {
      E.AddConserves(s.table, k, Fib(f), true);
      MoveStatus(s, s', f, Parked(Io(c)));
      forall g
        ensures Fits(s', g)
      {
        assert Fits(s, g);
        E.HeldAfterAdd(s.table.slots, k, Fib(f), Fib(g));
        StandingMove(s.fibers, f, Fiber(EXEC, Parked(Io(c))), Resuming(g));
      }
    }
  }

  lemma SleepKeeps(s: Sys, f: FiberId, ms: nat)
    requires Good(s) && At(s, f, Body)
    ensures Good(Slept(s, f, ms))
  {
    var s', p := Slept(s, f, ms), Parked(Sleep(s.now + ms));
    var e := T.Entry(s.addresses, s.now + ms, ms, false, Some(Resume(f)));
    AddPlain(s.timers, e, s.calls);
    MoveStatus(s, s', f, p);
    forall g
      ensures Fits(s', g)
    {
      assert Fits(s, g);
      AddEntryCounts(s.timers, e, Resume(g));
      StandingMove(s.fibers, f, Fiber(EXEC, p), Resuming(g));
    }
  }

  lemma ContinueKeeps(s: Sys, f: FiberId, wait: Wait)
    requires Good(s) && Busy(s, f) && !s.fibers[f].at.Resuming? && (wait.Io? ==> wait.call in s.calls)
    ensures Good(Continued(s, f, wait))
  {
    if wait.Io? {
      UnsetKeeps(s, wait.call);
      MoveKeeps(Unset(s, s.calls[wait.call].timer), f, Judging(wait.call));
    } else {
      MoveKeeps(s, f, Body);
    }
  }

  lemma JudgeKeeps(s: Sys, f: FiberId, c: nat)
    requires Good(s) && Busy(s, f) && !s.fibers[f].at.Resuming? && c in s.calls
    ensures Good(Judged(s, f, c))
  {
    MoveKeeps(s, f, Try(c));
    ReturnKeeps(s, f, c, s.calls[c].cancelled);
  }

  lemma CheckKeeps(s: Sys, g: FiberId, c: nat, k: E.Key)
    requires Good(s) && Busy(s, g) && !s.fibers[g].at.Resuming? && c in s.calls
    ensures Good(Checked(s, g, c, k))
  {
    MoveKeeps(s, g, Finished);
    MoveKeeps(s, g, Cancelling(c, k));
    CallKeeps(Moved(s, g, Cancelling(c, k)), c, s.calls[c].(cancelled := true));
  }

  /** Sleep's callback turns the token it is into a run-queue entry. */
  lemma ResumeKeeps(s: Sys, g: FiberId)
    requires Good(s) && Enabled(s, RunResume(g))
    ensures Good(Step(s, RunResume(g)))
  {
    var s', w := Step(s, RunResume(g)), Fib(s.fibers[g].at.fiber);
    MoveStatus(s, s', g, Finished);
    forall f
      ensures Promises(s', f) <= Promises(s, f) && Promises(s', f) + Queued(s', f) == Promises(s, f) + Queued(s, f)
    {
      StandingMove(s.fibers, g, Fiber(EXEC, Finished), Resuming(f));
      CountScheduled(s.queue, w, ANY, Fib(f));
      CountScheduled(s.queue, w, ANY, Call(Resume(f)));
    }
    PassingFits(s, s');
  }

  lemma NoteKeeps(s: Sys, g: FiberId, c: nat, k: E.Key, ok: bool)
    requires Good(s) && Busy(s, g) && !s.fibers[g].at.Resuming? && c in s.calls
    ensures Good(Noted(s, g, c, k, ok))
  {
    MoveKeeps(s, g, Finished);
    CallKeeps(Moved(s, g, Finished), c, Noted(s, g, c, k, ok).calls[c]);
  }

  lemma CancelJobKeeps(s: Sys, g: FiberId, c: nat, k: E.Key, ok: bool)
    requires Good(s) && Busy(s, g) && !s.fibers[g].at.Resuming? && c in s.calls
    ensures Good(Cancelled(s, g, c, k, ok))
  {
    NoteKeeps(s, g, c, k, ok);
    CancelEventKeeps(Noted(s, g, c, k, ok), k, ok, NotRegistered);
  }

  // ---------- workers ----------

  /** A fiber in the queue may be swapped in: it exists, is not kept by a worker, and is alive. */
  lemma QueuedMayRun(s: Sys, k: nat, f: FiberId)
    requires Inv(s) && k < |s.queue| && s.queue[k].work == Fib(f)
    ensures f in s.fibers && !W.Kept(s, f) && s.fibers[f].state !in {TERM, EXCEPT}
    ensures Promises(s, f) == 0 && Queued(s, f) == 1
  {
    CountNone(s.queue, Fib(f));
    assert Fits(s, f);
  }

  /** A fiber that is swapped in no longer waits, and no other changes its status. */
  lemma TakeFiberStatus(s: Sys, s': Sys, f: FiberId)
    requires f in s.fibers && s.fibers[f].state != EXEC && W.Shape(s.fibers[f]) && !W.Kept(s, f)
    requires s'.fibers == s.fibers[f := Fiber(EXEC, s.fibers[f].at)] && s'.retained == s.retained
    ensures forall g :: g != f ==> StatusOf(s', g) == StatusOf(s, g)
    ensures StatusOf(s', f) == Out
  {
  }

  lemma TakeFiberTokens(s: Sys, s': Sys, k: nat, f: FiberId)
    requires Good(s) && k < |s.queue| && s.queue[k].work == Fib(f) && Promises(s, f) == 0 && Queued(s, f) == 1
    requires f in s.fibers && s'.fibers == s.fibers[f := Fiber(EXEC, s.fibers[f].at)]
    requires s'.table == s.table && s'.timers == s.timers && s'.queue == S.Removed(s.queue, k)
    requires s'.addresses == s.addresses && s'.calls == s.calls
    requires (forall g :: g != f ==> StatusOf(s', g) == StatusOf(s, g)) && StatusOf(s', f) == Out
    ensures Good(s')
  {
    RemovedPlain(s.queue, k);
    forall g
      ensures Fits(s', g)
    {
      assert Fits(s, g);
      CountRemoved(s.queue, k, Fib(g));
      TakenCounts(s, s', k, f, s.fibers[f].at, Resume(g));
    }
  }

  lemma TakeFiberKeeps(s: Sys, w: nat, spare: FiberId)
    requires Inv(s) && Enabled(s, Dequeue(w, spare)) && s.queue[Next(s, w)].work.Fib?
    ensures Inv(Taken(s, w, spare)) && Taken(s, w, spare).failure.None?
  {
    var k, f, s' := Next(s, w), s.queue[Next(s, w)].work.fiber, Taken(s, w, spare);
    QueuedMayRun(s, k, f);
    assert f !in Executing(s);
    W.TakenFiberKeeps(s, w, f, s');
    TakeFiberStatus(s, s', f);
    TakeFiberTokens(s, s', k, f);
  }

  /** Running a callback in a worker's own fiber or a new one makes no fiber wait. */
  lemma TakeCallStatus(s: Sys, w: nat, g: FiberId, p: Point, s': Sys)
    requires W.Inv(s) && w !in s.running && (if w in s.retained then g == s.retained[w] else g !in s.fibers)
    requires s'.fibers == s.fibers[g := Fiber(EXEC, p)] && s'.retained == s.retained[w := g] && !p.Parked?
    ensures forall f :: StatusOf(s', f) == StatusOf(s, f)
    ensures g in s.fibers ==> s.fibers[g].at == Body
  {
    forall f
      ensures W.Among(s'.retained, f) <==> W.Among(s.retained, f) || f == g
    {
      assert s'.retained[w] == g;
      if W.Among(s.retained, f) && f != g {
        var v :| v in s.retained && s.retained[v] == f;
        assert s'.retained[v] == f;
      }
    }
    assert w in s.retained ==> W.Among(s.retained, g) && W.Shape(s.fibers[g]);
  }

  lemma TakeCallTokens(s: Sys, s': Sys, k: nat, cb: Callback, g: FiberId)
    requires Good(s) && k < |s.queue| && s.queue[k].work == Call(cb) && (g in s.fibers ==> s.fibers[g].at == Body)
    requires s'.fibers == s.fibers[g := Fiber(EXEC, Entrance(cb))]
    requires s'.table == s.table && s'.timers == s.timers && s'.queue == S.Removed(s.queue, k)
    requires s'.addresses == s.addresses && s'.calls == s.calls
    requires forall f :: StatusOf(s', f) == StatusOf(s, f)
    ensures Good(s')
  {
    RemovedPlain(s.queue, k);
    forall f
      ensures Promises(s', f) == Promises(s, f) && Queued(s', f) == Queued(s, f)
    {
      CountRemoved(s.queue, k, Fib(f));
      TakenCounts(s, s', k, g, Entrance(cb), Resume(f));
    }
    PassingFits(s, s');
  }

  /** What taking a callback does, when its fiber may be reset. */
  lemma TakenCallIs(s: Sys, w: nat, spare: FiberId, g: FiberId)
    requires Enabled(s, Dequeue(w, spare)) && s.queue[Next(s, w)].work.Call?
    requires g == if w in s.retained then s.retained[w] else spare
    requires g in s.fibers ==> s.fibers[g].state == INIT
    ensures var cb, s' := s.queue[Next(s, w)].work.cb, Taken(s, w, spare);
            && s'.failure.None? && s'.fibers == s.fibers[g := Fiber(EXEC, Entrance(cb))]
            && s'.running == s.running[w := g] && s'.retained == s.retained[w := g] && s'.active == s.active + 1
            && s'.queue == S.Removed(s.queue, Next(s, w))
  {
    CallTakenAt(s, w, Next(s, w), spare, Taken(s, w, spare));
  }

  lemma OwnIsInit(s: Sys, w: nat)
    requires W.Inv(s) && w in s.retained && w !in s.running
    ensures s.retained[w] in s.fibers && s.fibers[s.retained[w]] == Fiber(INIT, Body)
  {
    assert W.Shape(s.fibers[s.retained[w]]);
  }

  lemma TakeCallKeeps(s: Sys, w: nat, spare: FiberId)
    requires Inv(s) && Enabled(s, Dequeue(w, spare)) && s.queue[Next(s, w)].work.Call?
    ensures Inv(Taken(s, w, spare)) && Taken(s, w, spare).failure.None?
  {
    var k, cb := Next(s, w), s.queue[Next(s, w)].work.cb;
    var g := if w in s.retained then s.retained[w] else spare;
    if w in s.retained {
      OwnIsInit(s, w);
    }
    TakenCallIs(s, w, spare, g);
    W.TakenCallKeeps(s, w, g, Taken(s, w, spare), Entrance(cb));
    TakeCallStatus(s, w, g, Entrance(cb), Taken(s, w, spare));
    TakeCallTokens(s, Taken(s, w, spare), k, cb, g);
  }

  /** Only the fiber that leaves changes its status; what it becomes depends on how it leaves. */
  lemma LeaveStatus(s: Sys, w: nat, exit: S.Exit)
    requires Inv(s) && Enabled(s, Leave(w, exit))
    ensures forall g :: g != s.running[w] ==> StatusOf(Left(s, w, exit), g) == StatusOf(s, g)
    ensures StatusOf(Left(s, w, exit), s.running[w])
         == match exit
            case ToReady => Ready
            case ToHold => (if s.fibers[s.running[w]].at.Parked? then Blocked else Free)
            case Return => Out
            case Throw => Out
    ensures StatusOf(s, s.running[w]) == if s.fibers[s.running[w]].at.Parked? then Blocked else Out
  {
    var f, s' := s.running[w], Left(s, w, exit);
    assert W.Among(s.running, f);
    forall g
      ensures W.Among(s'.retained, g) <==> W.Among(s.retained, g) && (g == f ==> s'.retained == s.retained)
    {
      if W.Among(s.retained, g) {
        var v :| v in s.retained && s.retained[v] == g;
        assert v in s'.retained ==> s'.retained[v] == g;
      }
    }
    assert W.Among(s.retained, f) ==> W.Uses(s.retained, w, f);
  }

  lemma LeaveTokens(s: Sys, w: nat, exit: S.Exit, g: FiberId)
    requires Enabled(s, Leave(w, exit)) && W.Shape(s.fibers[s.running[w]])
    ensures Promises(Left(s, w, exit), g) == Promises(s, g)
    ensures Queued(Left(s, w, exit), g) == Queued(s, g) + One(g == s.running[w] && exit == S.ToReady)
  {
    var f := s.running[w];
    CountScheduled(s.queue, Fib(f), ANY, Fib(g));
    CountScheduled(s.queue, Fib(f), ANY, Call(Resume(g)));
    StandingMove(s.fibers, f, Left(s, w, exit).fibers[f], Resuming(g));
  }

  lemma LeaveKeeps(s: Sys, w: nat, exit: S.Exit)
    requires Inv(s) && Enabled(s, Leave(w, exit))
    ensures Inv(Left(s, w, exit))
  {
    var f, s' := s.running[w], Left(s, w, exit);
    W.LeftKeeps(s, w, exit);
    LeaveStatus(s, w, exit);
    assert Fits(s, f);
    forall g
      ensures Fits(s', g)
    {
      assert Fits(s, g);
      LeaveTokens(s, w, exit, g);
    }
    LeavePlain(s, w, exit);
  }

  lemma LeavePlain(s: Sys, w: nat, exit: S.Exit)
    requires Plain(s) && Enabled(s, Leave(w, exit))
    ensures Plain(Left(s, w, exit))
  {
  }
}
