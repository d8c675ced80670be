/** What is not registered, timed or queued anywhere is never run: a deleted registration is gone. */
module Silence {
  import opened Basics
  import opened Tasks
  import E = EventSpec
  import T = TimerSpec
  import opened Protocol
  import opened Tokens
  import opened PlainSteps
  import opened Timing
  import opened Runs
  import opened Ledger

  ghost predicate NotQueued(q: Queue, cb: nat) {
    forall t :: t in q ==> t.work != Call(User(cb))
  }

  ghost predicate NotTimed(ts: seq<T.Entry>, cb: nat) {
    forall e :: e in ts ==> e.cb != Some(User(cb))
  }

  ghost predicate NotSlotted(slots: map<E.Key, Work<FiberId>>, cb: nat) {
    forall k :: k in slots ==> slots[k] != Call(User(cb))
  }

  /** No task, timer or event slot has the callback `cb` of user code. */
  ghost predicate Silent(s: Sys, cb: nat) {
    NotQueued(s.queue, cb) && NotTimed(s.timers.timers, cb) && NotSlotted(s.table.slots, cb)
  }

  /** The step has user code hand over `cb`. */
  predicate Introduces(a: Action, cb: nat) {
    match a
    case ScheduleCall(n, _) => n == cb
    case AddTimer(_, _, user) => user == Some(cb)
    case AddCallback(_, n, _) => n == cb
    case _ => false
  }

  // ---------- slots ----------

  lemma ConsumedSilent(s: Sys, r: E.Result<FiberId>, why: Failure, cb: nat)
    requires NotSlotted(s.table.slots, cb) && (r.Done? ==> E.Consumes(s.table, r.table, r.woken))
    ensures NotSlotted(Effect(s, r, why).table.slots, cb)
  {
  }

  lemma WakeSlots(s: Sys, a: Action, cb: nat)
    requires E.Sound(s.table) && OutsideEnabled(s, a) && (a.CancelEvent? || a.CancelAll? || a.Deliver?)
    requires NotSlotted(s.table.slots, cb)
    ensures NotSlotted(OutsideStep(s, a).table.slots, cb)
  {
    match a {
      case CancelEvent(k, ok) =>
        E.CancelConsumes(s.table, k, ok, s.intended);
        ConsumedSilent(s, E.Cancel(s.table, k, ok, s.intended), NotRegistered, cb);
      case CancelAll(fd, ok) =>
        E.CancelAllConsumes(s.table, fd, ok);
        ConsumedSilent(s, E.CancelAll(s.table, fd, ok), NotRegistered, cb);
      case Deliver(fd, reported, failed, ok) =>
        E.DeliverConsumes(s.table, fd, reported, failed, ok);
        ConsumedSilent(s, E.Deliver(s.table, fd, reported, failed, ok), NotRegistered, cb);
    }
  }

  lemma OutsideSlots(s: Sys, a: Action, cb: nat)
    requires Plain(s) && Enabled(s, a) && Mover(a).None? && !a.Dequeue? && !a.Leave?
    requires NotSlotted(s.table.slots, cb) && !Introduces(a, cb)
    ensures NotSlotted(OutsideStep(s, a).table.slots, cb)
  {
    if a.CancelEvent? || a.CancelAll? || a.Deliver? {
      WakeSlots(s, a, cb);
    } else if a.AddCallback? || a.DeleteEvent? {
      EventSlots(s, a, cb);
    }
  }

  lemma EventSlots(s: Sys, a: Action, cb: nat)
    requires (a.AddCallback? || a.DeleteEvent?) && NotSlotted(s.table.slots, cb) && !Introduces(a, cb)
    ensures OutsideEnabled(s, a) ==> NotSlotted(OutsideStep(s, a).table.slots, cb)
  {
  }

  lemma FiberSlots(s: Sys, f: FiberId, a: Action, cb: nat)
    requires Plain(s) && FiberEnabled(s, f, a) && NotSlotted(s.table.slots, cb)
    ensures NotSlotted(FiberStep(s, f, a).table.slots, cb)
  {
    if a.RunCancel? {
      var k := s.fibers[f].at.k;
      E.CancelConsumes(s.table, k, a.ok, s.intended);
      ConsumedSilent(Noted(s, f, s.fibers[f].at.call, k, a.ok), E.Cancel(s.table, k, a.ok, s.intended),
                     NotRegistered, cb);
    }
  }

  // ---------- timers ----------

  lemma DescendsSilent(ts: seq<T.Entry>, ts': seq<T.Entry>, cb: nat)
    requires Descends(ts, ts') && NotTimed(ts, cb)
    ensures NotTimed(ts', cb)
  {
  }

  lemma OutsideTimers(s: Sys, a: Action, cb: nat)
    requires Plain(s) && Enabled(s, a) && Mover(a).None? && !a.Dequeue? && !a.Leave?
    requires NotTimed(s.timers.timers, cb) && !Introduces(a, cb)
    ensures NotTimed(OutsideStep(s, a).timers.timers, cb)
  {
    var ts' := OutsideStep(s, a).timers.timers;
    match a {
      case CancelTimer(id) =>
        CancelDescends(s.timers, id);
        DescendsSilent(s.timers.timers, ts', cb);
      case RefreshTimer(id) =>
        RefreshDescends(s.timers, id, s.now);
        DescendsSilent(s.timers.timers, ts', cb);
      case ResetTimer(id, ms, fromNow) =>
        ResetDescends(s.timers, id, ms, fromNow, s.now);
        DescendsSilent(s.timers.timers, ts', cb);
      case Expire =>
        ExpireDescends(s.timers, s.now);
        DescendsSilent(s.timers.timers, ts', cb);
      case AddTimer(ms, recurring, user) =>
        AddPlain(s.timers, T.Entry(s.addresses, s.now + ms, ms, recurring,
                                   if user.Some? then Some(User(user.value)) else None), s.calls);
      case _ =>
    }
  }

  lemma NewTimerSilent(s: Sys, ms: nat, callback: Callback, cb: nat)
    requires Plain(s) && NotTimed(s.timers.timers, cb) && !callback.User?
    ensures NotTimed(NewTimer(s, ms, false, Some(callback)).timers.timers, cb)
  {
    AddPlain(s.timers, T.Entry(s.addresses, s.now + ms, ms, false, Some(callback)), s.calls);
  }

  lemma AgainTimers(s: Sys, f: FiberId, c: nat, cb: nat)
    requires Plain(s) && f in s.fibers && c in s.calls && NotTimed(s.timers.timers, cb)
    ensures NotTimed(Rearmed(s, f, c).timers.timers, cb)
  {
    var call := s.calls[c];
    if call.to.Some? {
      NewTimerSilent(s, call.to.value, IoTimeout(c, call.k.0, call.k.1), cb);
    }
  }

  lemma FiberTimers(s: Sys, f: FiberId, a: Action, cb: nat)
    requires Plain(s) && FiberEnabled(s, f, a) && NotTimed(s.timers.timers, cb)
    ensures NotTimed(FiberStep(s, f, a).timers.timers, cb)
  {
    if !Job(a) {
      if a.GoToSleep? {
        NewTimerSilent(s, a.ms, Resume(f), cb);
      } else if a.Again? {
        AgainTimers(s, f, s.fibers[f].at.call, cb);
      } else {
        FewerTimers(s, f, a, cb);
      }
    }
  }

  lemma FewerTimers(s: Sys, f: FiberId, a: Action, cb: nat)
    requires Plain(s) && FiberEnabled(s, f, a) && !Job(a) && !a.GoToSleep? && !a.Again? && NotTimed(s.timers.timers, cb)
    ensures NotTimed(CallStep(s, f, a).timers.timers, cb)
  {
    if a.Awake? && s.fibers[f].at.wait.Io? {
      UnsetMembers(s, s.fibers[f].at.wait.call);
    } else if a.Register? {
      UnsetMembers(s, s.fibers[f].at.call);
    }
  }

  // ---------- the queue ----------

  lemma {:induction false} AnyThreadMembers(works: seq<Work<FiberId>>)
    ensures forall t :: t in AnyThread(works) ==> t.work in works
  {
    if works != [] {
      AnyThreadMembers(works[1..]);
    }
  }

  lemma DueSilent(s: Sys, cb: nat)
    requires Plain(s) && NotTimed(s.timers.timers, cb)
    ensures NotQueued(AnyThread(Works(T.Callbacks(T.Due(s.timers, s.now)))), cb)
  {
    var due := T.Due(s.timers, s.now);
    T.ExpirePartition(s.timers, s.now);
    assert forall i :: 0 <= i < |due| ==> due[i] == s.timers.timers[i];
    AnyThreadMembers(Works(T.Callbacks(due)));
  }

  lemma SubmitsSilent(s: Sys, a: Action, cb: nat)
    requires Plain(s) && Enabled(s, a) && Silent(s, cb) && !Introduces(a, cb)
    ensures NotQueued(Submitted(s, a), cb)
  {
    match a {
      case Expire => DueSilent(s, cb);
      case CancelEvent(k, ok) => AnyThreadMembers(SlotWork(s, k, ok));
      case RunCancel(g, ok) => AnyThreadMembers(SlotWork(s, s.fibers[g].at.k, ok));
      case CancelAll(fd, ok) => AnyThreadMembers(SlotWork(s, (fd, READ), ok) + SlotWork(s, (fd, WRITE), ok));
      case Deliver(fd, reported, failed, ok) =>
        var fires := Fires(s, fd, reported, ok);
        AnyThreadMembers(SlotWork(s, (fd, READ), fires && (reported.read || failed))
                         + SlotWork(s, (fd, WRITE), fires && (reported.write || failed)));
      case _ =>
    }
  }

  lemma StepSilent(s: Sys, a: Action, cb: nat)
    requires Inv(s) && Enabled(s, a) && Silent(s, cb) && !Introduces(a, cb)
    ensures Silent(Step(s, a), cb)
  {
    QueueStep(s, a);
    SubmitsSilent(s, a, cb);
    if Mover(a).Some? {
      FiberSlots(s, Mover(a).value, a, cb);
      FiberTimers(s, Mover(a).value, a, cb);
    } else if !a.Dequeue? && !a.Leave? {
      OutsideSlots(s, a, cb);
      OutsideTimers(s, a, cb);
    }
  }

  lemma {:induction false} RunSilent(s: Sys, actions: seq<Action>, s': Sys, cb: nat)
    requires Inv(s) && Leads(s, actions, s') && Silent(s, cb) && forall a :: a in actions ==> !Introduces(a, cb)
    ensures Silent(s', cb)
    decreases |actions|
  {
    if actions != [] {
      StepSilent(s, actions[0], cb);
      StepKeepsTokens(s, actions[0]);
      RunSilent(Step(s, actions[0]), actions[1..], s', cb);
    }
  }

  /** A registration that has been deleted is never handed over: over any run afterwards its callback is not
      queued, unless user code hands it over anew or had done so elsewhere before. */
  lemma DeletedNeverRuns(s: Sys, k: E.Key, cb: nat, actions: seq<Action>, s': Sys)
    requires Reachable(s) && Enabled(s, DeleteEvent(k, true)) && k in s.table.slots
    requires s.table.slots[k] == Call(User(cb)) && NotQueued(s.queue, cb) && NotTimed(s.timers.timers, cb)
    requires forall j :: j in s.table.slots && j != k ==> s.table.slots[j] != Call(User(cb))
    requires Leads(Step(s, DeleteEvent(k, true)), actions, s') && forall a :: a in actions ==> !Introduces(a, cb)
    ensures k !in Step(s, DeleteEvent(k, true)).table.slots
    ensures NotQueued(s'.queue, cb) && NotTimed(s'.timers.timers, cb) && NotSlotted(s'.table.slots, cb)
  {
    ReachableGood(s);
    StepKeepsTokens(s, DeleteEvent(k, true));
    DeletedSilent(s, k, cb, Step(s, DeleteEvent(k, true)));
    RunSilent(Step(s, DeleteEvent(k, true)), actions, s', cb);
  }

  lemma DeletedSilent(s: Sys, k: E.Key, cb: nat, s': Sys)
    requires k in s.table.slots && E.Watching(s.table, k.0, true)
    requires NotQueued(s.queue, cb) && NotTimed(s.timers.timers, cb)
    requires forall j :: j in s.table.slots && j != k ==> s.table.slots[j] != Call(User(cb))
    requires s' == Effect(s, E.Delete(s.table, k, true, s.intended), NotRegistered)
    ensures k !in s'.table.slots && Silent(s', cb)
  {
    E.DeleteRemoves(s.table, k, true, s.intended);
  }
}
