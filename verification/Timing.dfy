/** Timing: no sleep and no time limit ends early, and a call that has returned is never touched. */
module Timing {
  import opened Basics
  import opened Tasks
  import S = SchedulerSpec
  import E = EventSpec
  import T = TimerSpec
  import W = Workers
  import opened Protocol
  import opened Tokens
  import opened PlainSteps

  /** When the sleep the fiber is in will be over; 0 if it is in none. */
  function SleepEnd(at: Point): nat {
    match at
    case Parked(Sleep(u)) => u
    case Woken(Sleep(u)) => u
    case _ => 0
  }

  type Fibers = map<FiberId, Fiber>
  type Calls = map<nat, IoCall>

  /** If `f` sleeps, its sleep is over at `t`. */
  predicate Rested(fibers: Fibers, f: FiberId, t: nat) {
    f in fibers && SleepEnd(fibers[f].at) <= t
  }

  /** Call `c` has a time limit and it has passed at `t`. */
  predicate Limit(calls: Calls, c: nat, t: nat) {
    c in calls && calls[c].to.Some? && calls[c].begin + calls[c].to.value <= t
  }

  predicate CallbackSound(fibers: Fibers, calls: Calls, cb: Callback, t: nat) {
    match cb
    case Resume(f) => Rested(fibers, f, t)
    case IoTimeout(c, fd, event) => Limit(calls, c, t) && calls[c].k == (fd, event)
    case User(_) => true
  }

  predicate WorkSound(fibers: Fibers, calls: Calls, w: Work<FiberId>, t: nat) {
    match w
    case Nothing => true
    case Fib(f) => Rested(fibers, f, t)
    case Call(cb) => CallbackSound(fibers, calls, cb, t)
  }

  predicate TimerSound(fibers: Fibers, calls: Calls, e: T.Entry) {
    e.cb.Some? ==> CallbackSound(fibers, calls, e.cb.value, e.next)
  }

  /** No sleeper is held by an event slot. */
  predicate SlotSound(fibers: Fibers, w: Work<FiberId>) {
    w.Fib? ==> Rested(fibers, w.fiber, 0)
  }

  /** The call a fiber is in. */
  function CallOf(at: Point): Option<nat> {
    match at
    case Try(c) => Some(c)
    case Armed(c) => Some(c)
    case Judging(c) => Some(c)
    case Parked(Io(c)) => Some(c)
    case Woken(Io(c)) => Some(c)
    case _ => None
  }

  predicate FiberSound(fibers: Fibers, calls: Calls, g: FiberId, fb: Fiber, now: nat) {
    && (fb.at.Resuming? ==> Rested(fibers, fb.at.fiber, now))
    && (fb.at.Checking? || fb.at.Cancelling? ==> Limit(calls, fb.at.call, now) && calls[fb.at.call].k == fb.at.k)
    && (fb.state == EXEC && fb.at.Woken? && fb.at.wait.Sleep? ==> fb.at.wait.until <= now)
    && (CallOf(fb.at).Some? ==>
          CallOf(fb.at).value in calls && calls[CallOf(fb.at).value].fiber == g && calls[CallOf(fb.at).value].alive)
  }

  predicate CallSound(calls: Calls, c: nat, call: IoCall, now: nat) {
    call.begin <= now && (call.cancelled || call.timedOut ==> Limit(calls, c, now))
  }

  ghost predicate TimersSound(fibers: Fibers, calls: Calls, ts: seq<T.Entry>) {
    forall e :: e in ts ==> TimerSound(fibers, calls, e)
  }

  ghost predicate QueueSound(fibers: Fibers, calls: Calls, q: Queue, now: nat) {
    forall t :: t in q ==> WorkSound(fibers, calls, t.work, now)
  }

  ghost predicate SlotsSound(fibers: Fibers, slots: map<E.Key, Work<FiberId>>) {
    forall k :: k in slots ==> SlotSound(fibers, slots[k])
  }

  ghost predicate FibersSound(fibers: Fibers, calls: Calls, now: nat) {
    forall g :: g in fibers ==> FiberSound(fibers, calls, g, fibers[g], now)
  }

  ghost predicate CallsSound(calls: Calls, now: nat) {
    forall c :: c in calls ==> CallSound(calls, c, calls[c], now)
  }

  ghost predicate Timely(s: Sys) {
    && s.timers.previousTime <= s.now
    && TimersSound(s.fibers, s.calls, s.timers.timers)
    && QueueSound(s.fibers, s.calls, s.queue, s.now)
    && SlotsSound(s.fibers, s.table.slots)
    && FibersSound(s.fibers, s.calls, s.now)
    && CallsSound(s.calls, s.now)
  }

  /** The call as it began. */
  predicate SameTerms(a: IoCall, b: IoCall) {
    a.begin == b.begin && a.to == b.to && a.k == b.k
  }

  /** Time goes on, calls keep their terms, and no sleep gets longer. */
  ghost predicate Evolves(s: Sys, s': Sys) {
    && s.now <= s'.now
    && (forall f :: f in s.fibers ==> f in s'.fibers && SleepEnd(s'.fibers[f].at) <= SleepEnd(s.fibers[f].at))
    && (forall c :: c in s.calls ==> c in s'.calls && SameTerms(s'.calls[c], s.calls[c]))
  }

  /** What is new in `s'` is as it should be. */
  ghost predicate SoundNews(s: Sys, s': Sys) {
    && (forall e :: e in s'.timers.timers ==> e in s.timers.timers || TimerSound(s'.fibers, s'.calls, e))
    && (forall t :: t in s'.queue ==> t in s.queue || WorkSound(s'.fibers, s'.calls, t.work, s'.now))
    && (forall k :: k in s'.table.slots ==>
                      (k in s.table.slots && s'.table.slots[k] == s.table.slots[k])
                      || SlotSound(s'.fibers, s'.table.slots[k]))
    && (forall c :: c in s'.calls ==>
                      (c in s.calls && s'.calls[c] == s.calls[c]) || CallSound(s'.calls, c, s'.calls[c], s'.now))
  }

  predicate SameCall(s: Sys, s': Sys, c: nat) {
    c in s.calls && c in s'.calls && s'.calls[c] == s.calls[c]
  }

  /** The fibers of `s'` are old, and so are the calls they are in, or as they should be. */
  ghost predicate SoundFibers(s: Sys, s': Sys) {
    forall g :: g in s'.fibers ==>
                  || (g in s.fibers && s'.fibers[g] == s.fibers[g]
                      && (CallOf(s.fibers[g].at).Some? ==> SameCall(s, s', CallOf(s.fibers[g].at).value)))
                  || FiberSound(s'.fibers, s'.calls, g, s'.fibers[g], s'.now)
  }

  lemma NewsTimely(s: Sys, s': Sys)
    requires Timely(s) && Evolves(s, s') && SoundNews(s, s') && SoundFibers(s, s') && s'.timers.previousTime <= s'.now
    ensures Timely(s')
  {
  }

  // ---------- steps outside fibers ----------

  /** Fibers and calls as they were, no earlier time. */
  lemma SameFibersTimely(s: Sys, s': Sys)
    requires Timely(s) && s.now <= s'.now && s'.fibers == s.fibers && s'.calls == s.calls
    requires SoundNews(s, s') && s'.timers.previousTime <= s'.now
    ensures Timely(s')
  {
    NewsTimely(s, s');
  }

  lemma CancelMembers(t: T.State, id: nat)
    requires T.Lawful(t.timers)
    ensures forall x :: x in T.Cancel(t, id).timers ==> x in t.timers
  {
    T.WithoutLawful(t.timers, id);
  }

  lemma ReplaceMembers(ts: seq<T.Entry>, k: nat, e: T.Entry)
    requires T.Lawful(ts) && k < |ts| && e.id == ts[k].id && e.ms <= e.next
    ensures forall x :: x in T.Insert(T.Without(ts, e.id), e) ==> x in ts || x == e
  {
    T.WithoutLawful(ts, e.id);
    T.InsertLawful(T.Without(ts, e.id), e);
  }

  /** A timer that user code moves was not the library's. */
  lemma OwnTimerTimely(s: Sys, a: Action)
    requires Timely(s) && Plain(s) && Enabled(s, a) && (a.CancelTimer? || a.RefreshTimer? || a.ResetTimer?)
    ensures Timely(Step(s, a))
  {
    var s', k := Step(s, a), T.IndexOf(s.timers.timers, a.id);
    forall e | e in s'.timers.timers
      ensures e in s.timers.timers || TimerSound(s'.fibers, s'.calls, e)
    {
      match a {
        case CancelTimer(id) => CancelMembers(s.timers, id);
        case RefreshTimer(id) =>
          if k < |s.timers.timers| {
            ReplaceMembers(s.timers.timers, k, T.Again(s.timers.timers[k], s.now));
          }
        case ResetTimer(id, ms, fromNow) =>
          if k < |s.timers.timers| {
            ReplaceMembers(s.timers.timers, k, T.Rekeyed(s.timers.timers[k], ms, fromNow, s.now));
          }
      }
    }
    SameFibersTimely(s, s');
  }

  lemma NewTimerTimely(s: Sys, ms: nat, recurring: bool, cb: Option<Callback>)
    requires Timely(s) && Plain(s)
    requires (cb.Some? && !cb.value.User? ==> !recurring && CallbackSound(s.fibers, s.calls, cb.value, s.now + ms))
    ensures Timely(NewTimer(s, ms, recurring, cb))
  {
    AddPlain(s.timers, T.Entry(s.addresses, s.now + ms, ms, recurring, cb), s.calls);
    SameFibersTimely(s, NewTimer(s, ms, recurring, cb));
  }

  /** Under a clock that does not go back there is no rollover, and what is due has reached its deadline. */
  lemma DueNow(s: Sys, e: T.Entry)
    requires Timely(s) && Plain(s) && e in T.Due(s.timers, s.now)
    ensures e in s.timers.timers && e.next <= s.now
  {
    T.ExpirePartition(s.timers, s.now);
  }

  /** A timer of the set after an expiry. */
  lemma LeftTimely(s: Sys, x: T.Entry)
    requires Timely(s) && Plain(s) && x in T.Expire(s.timers, s.now).timers
    ensures x in s.timers.timers || TimerSound(s.fibers, s.calls, x)
  {
    var due := T.Due(s.timers, s.now);
    T.ExpirePartition(s.timers, s.now);
    if T.Returned(due, s.now, x) {
      var i :| 0 <= i < |due| && due[i].recurring && x == due[i].(next := s.now + due[i].ms);
      DueNow(s, due[i]);
    }
  }

  lemma ExpireTimely(s: Sys)
    requires Timely(s) && Plain(s)
    ensures Timely(Expired(s))
  {
    var s', due := Expired(s), T.Due(s.timers, s.now);
    var works := Works(T.Callbacks(due));
    T.ExpirePartition(s.timers, s.now);
    forall t | t in s'.queue && t !in s.queue
      ensures WorkSound(s'.fibers, s'.calls, t.work, s'.now)
    {
      S.ScheduledAllMembers(s.queue, works, t);
      var i :| 0 <= i < |works| && works[i] == t.work;
      DueNow(s, due[i]);
      assert TimerSound(s.fibers, s.calls, due[i]);
    }
    forall x | x in s'.timers.timers
      ensures x in s.timers.timers || TimerSound(s'.fibers, s'.calls, x)
    {
      LeftTimely(s, x);
    }
    SameFibersTimely(s, s');
  }

  /** Work that leaves the event table comes from its slots. */
  lemma WokenFromSlots(t: E.Table<FiberId>, t1: E.Table<FiberId>, woken: seq<Work<FiberId>>, w: Work<FiberId>)
    requires E.Consumes(t, t1, woken) && w in woken
    ensures exists k :: k in t.slots && t.slots[k] == w
  {
    assert multiset(woken)[w] > 0;
    assert E.KeysOf(t.slots, w) != {};
    var k :| k in E.KeysOf(t.slots, w);
  }

  lemma ConsumingTimely(s: Sys, r: E.Result<FiberId>, why: Failure)
    requires Timely(s) && Plain(s) && (r.Done? ==> E.Consumes(s.table, r.table, r.woken))
    ensures Timely(Effect(s, r, why))
  {
    var s' := Effect(s, r, why);
    if r.Done? {
      forall t | t in s'.queue && t !in s.queue
        ensures WorkSound(s'.fibers, s'.calls, t.work, s'.now)
      {
        S.ScheduledAllMembers(s.queue, r.woken, t);
        WokenFromSlots(s.table, r.table, r.woken, t.work);
        var k :| k in s.table.slots && s.table.slots[k] == t.work;
        assert SlotSound(s.fibers, s.table.slots[k]);
      }
    }
    SameFibersTimely(s, s');
  }

  lemma CancelEventTimely(s: Sys, k: E.Key, ok: bool)
    requires Timely(s) && Plain(s)
    ensures Timely(Effect(s, E.Cancel(s.table, k, ok, s.intended), NotRegistered))
  {
    E.CancelConsumes(s.table, k, ok, s.intended);
    ConsumingTimely(s, E.Cancel(s.table, k, ok, s.intended), NotRegistered);
  }

  lemma CancelAllTimely(s: Sys, fd: nat, ok: bool)
    requires Timely(s) && Plain(s)
    ensures Timely(Effect(s, E.CancelAll(s.table, fd, ok), NotRegistered))
  {
    E.CancelAllConsumes(s.table, fd, ok);
    ConsumingTimely(s, E.CancelAll(s.table, fd, ok), NotRegistered);
  }

  lemma DeliverTimely(s: Sys, fd: nat, reported: E.Mask, failed: bool, ok: bool)
    requires Timely(s) && Plain(s)
    ensures Timely(Effect(s, E.Deliver(s.table, fd, reported, failed, ok), NotRegistered))
  {
    E.DeliverConsumes(s.table, fd, reported, failed, ok);
    ConsumingTimely(s, E.Deliver(s.table, fd, reported, failed, ok), NotRegistered);
  }

  lemma ScheduleTimely(s: Sys, w: Work<FiberId>, thread: int)
    requires Timely(s) && WorkSound(s.fibers, s.calls, w, s.now)
    ensures Timely(s.(queue := S.Scheduled(s.queue, w, thread)))
  {
    SameFibersTimely(s, s.(queue := S.Scheduled(s.queue, w, thread)));
  }

  /** Slots go, and user callbacks come. */
  lemma TableTimely(s: Sys, table: E.Table<FiberId>)
    requires Timely(s)
    requires forall k :: k in table.slots ==>
                           (k in s.table.slots && table.slots[k] == s.table.slots[k]) || table.slots[k].Call?
    ensures Timely(s.(table := table))
  {
    SameFibersTimely(s, s.(table := table));
  }

  lemma AddCallbackTimely(s: Sys, k: E.Key, cb: nat, ok: bool)
    requires Timely(s) && Enabled(s, AddCallback(k, cb, ok))
    ensures Timely(Step(s, AddCallback(k, cb, ok)))
  {
    if k in s.table.slots {
      SameFibersTimely(s, Step(s, AddCallback(k, cb, ok)));
    } else {
      TableTimely(s, E.Add(s.table, k, Call(User(cb)), ok).table);
    }
  }

  lemma DeleteTimely(s: Sys, k: E.Key, ok: bool)
    requires Timely(s)
    ensures Timely(Effect(s, E.Delete(s.table, k, ok, s.intended), NotRegistered))
  {
    TableTimely(s, E.Delete(s.table, k, ok, s.intended).table);
  }

  lemma TimeTimely(s: Sys, a: Action)
    requires Timely(s) && Enabled(s, a) && (a.Tick? || a.Stop? || a.NewFiber?)
    ensures Timely(Step(s, a))
  {
    NewsTimely(s, Step(s, a));
  }

  lemma OutsideTimely(s: Sys, a: Action)
    requires Timely(s) && Plain(s) && Enabled(s, a) && Mover(a).None? && !a.Dequeue? && !a.Leave?
    ensures Timely(OutsideStep(s, a))
  {
    match a
    case Tick(_) => TimeTimely(s, a);
    case Stop => TimeTimely(s, a);
    case NewFiber(_) => TimeTimely(s, a);
    case ScheduleFiber(f, thread) => ScheduleTimely(s, Fib(f), thread);
    case ScheduleCall(cb, thread) => ScheduleTimely(s, Call(User(cb)), thread);
    case AddTimer(ms, recurring, user) =>
      NewTimerTimely(s, ms, recurring, if user.Some? then Some(User(user.value)) else None);
    case CancelTimer(_) => OwnTimerTimely(s, a);
    case RefreshTimer(_) => OwnTimerTimely(s, a);
    case ResetTimer(_, _, _) => OwnTimerTimely(s, a);
    case AddCallback(k, cb, ok) => AddCallbackTimely(s, k, cb, ok);
    case DeleteEvent(k, ok) => DeleteTimely(s, k, ok);
    case CancelEvent(k, ok) => CancelEventTimely(s, k, ok);
    case CancelAll(fd, ok) => CancelAllTimely(s, fd, ok);
    case Deliver(fd, reported, failed, ok) => DeliverTimely(s, fd, reported, failed, ok);
    case Expire => ExpireTimely(s);
    case _ =>
  }

  // ---------- steps of a fiber ----------

  /** Fiber `g` moves on, the calls stay. */
  lemma MoveTimely(s: Sys, s': Sys, g: FiberId)
    requires Timely(s) && g in s.fibers && g in s'.fibers && s'.fibers == s.fibers[g := s'.fibers[g]]
    requires SleepEnd(s'.fibers[g].at) <= SleepEnd(s.fibers[g].at)
    requires FiberSound(s'.fibers, s'.calls, g, s'.fibers[g], s'.now)
    requires s'.now == s.now && s'.calls == s.calls && SoundNews(s, s') && s'.timers.previousTime <= s'.now
    ensures Timely(s')
  {
    NewsTimely(s, s');
  }

  /** Fiber `g` moves on and changes its own call, or a new one, or the one it checks. */
  lemma CallTimely(s: Sys, s': Sys, g: FiberId, c: nat)
    requires Timely(s) && g in s.fibers && g in s'.fibers && s'.fibers == s.fibers[g := s'.fibers[g]]
    requires SleepEnd(s'.fibers[g].at) <= SleepEnd(s.fibers[g].at)
    requires FiberSound(s'.fibers, s'.calls, g, s'.fibers[g], s'.now)
    requires s'.now == s.now && c in s'.calls && s'.calls == s.calls[c := s'.calls[c]]
    requires CallSound(s'.calls, c, s'.calls[c], s'.now)
    requires c in s.calls ==> SameTerms(s'.calls[c], s.calls[c]) && s'.calls[c].fiber == s.calls[c].fiber
    requires c in s.calls && s.calls[c].fiber != g ==> s'.calls[c].alive == s.calls[c].alive
    requires SoundNews(s, s') && s'.timers.previousTime <= s'.now
    ensures Timely(s')
  {
    forall h | h in s'.fibers
      ensures || (h in s.fibers && s'.fibers[h] == s.fibers[h]
                  && (CallOf(s.fibers[h].at).Some? ==> SameCall(s, s', CallOf(s.fibers[h].at).value)))
              || FiberSound(s'.fibers, s'.calls, h, s'.fibers[h], s'.now)
    {
      assert h in s.fibers && FiberSound(s.fibers, s.calls, h, s.fibers[h], s.now);
    }
    NewsTimely(s, s');
  }

  /** `f` is in call `c`. */
  predicate InCall(s: Sys, f: FiberId, c: nat) {
    f in s.fibers && c in s.calls && s.fibers[f].state == EXEC && CallOf(s.fibers[f].at) == Some(c)
  }

  lemma InCallSound(s: Sys, f: FiberId, c: nat)
    requires Timely(s) && InCall(s, f, c)
    ensures s.calls[c].fiber == f && s.calls[c].alive && CallSound(s.calls, c, s.calls[c], s.now)
  {
    assert FiberSound(s.fibers, s.calls, f, s.fibers[f], s.now);
  }

  lemma RearmLimited(s: Sys, f: FiberId, c: nat)
    requires Timely(s) && InCall(s, f, c) && s.calls[c].to.Some?
    requires Timely(NewTimer(s, s.calls[c].to.value, false, Some(IoTimeout(c, s.calls[c].k.0, s.calls[c].k.1))))
    ensures Timely(Rearmed(s, f, c))
  {
    InCallSound(s, f, c);
    CallTimely(NewTimer(s, s.calls[c].to.value, false, Some(IoTimeout(c, s.calls[c].k.0, s.calls[c].k.1))),
               Rearmed(s, f, c), f, c);
  }

  lemma RearmTimely(s: Sys, f: FiberId, c: nat)
    requires Timely(s) && Plain(s) && InCall(s, f, c)
    ensures Timely(Rearmed(s, f, c))
  {
    InCallSound(s, f, c);
    var call := s.calls[c];
    if call.to.Some? {
      NewTimerTimely(s, call.to.value, false, Some(IoTimeout(c, call.k.0, call.k.1)));
      RearmLimited(s, f, c);
    } else {
      CallTimely(s, Rearmed(s, f, c), f, c);
    }
  }

  lemma UnsetMembers(s: Sys, c: nat)
    requires Plain(s) && c in s.calls
    ensures forall x :: x in Unset(s, s.calls[c].timer).timers.timers ==> x in s.timers.timers
    ensures Unset(s, s.calls[c].timer).timers.previousTime == s.timers.previousTime
  {
    if s.calls[c].timer.Some? {
      CancelMembers(s.timers, s.calls[c].timer.value);
    }
  }

  lemma UnsetTimely(s: Sys, c: nat)
    requires Timely(s) && Plain(s) && c in s.calls
    ensures Timely(Unset(s, s.calls[c].timer))
  {
    UnsetMembers(s, c);
    SameFibersTimely(s, Unset(s, s.calls[c].timer));
  }

  lemma ReturnTimely(s: Sys, f: FiberId, c: nat, timedOut: bool)
    requires Timely(s) && InCall(s, f, c) && (timedOut ==> s.calls[c].cancelled)
    ensures Timely(Returned(s, f, c, timedOut))
  {
    InCallSound(s, f, c);
    CallTimely(s, Returned(s, f, c, timedOut), f, c);
  }

  lemma ParkTimely(s: Sys, f: FiberId, c: nat)
    requires Timely(s) && InCall(s, f, c) && s.calls[c].k !in s.table.slots
    ensures Timely(Registered(s, f, c, true))
  {
    InCallSound(s, f, c);
    MoveTimely(s, Registered(s, f, c, true), f);
  }

  lemma RegisterTimely(s: Sys, f: FiberId, c: nat, ok: bool)
    requires Timely(s) && Plain(s) && InCall(s, f, c)
    ensures Timely(Registered(s, f, c, ok))
  {
    InCallSound(s, f, c);
    if s.calls[c].k in s.table.slots {
      MoveTimely(s, Registered(s, f, c, ok), f);
    } else if ok {
      ParkTimely(s, f, c);
    } else {
      UnsetTimely(s, c);
      ReturnTimely(Unset(s, s.calls[c].timer), f, c, false);
    }
  }

  lemma ContinueTimely(s: Sys, f: FiberId, wait: Wait)
    requires Timely(s) && Plain(s) && f in s.fibers && s.fibers[f] == Fiber(EXEC, Woken(wait))
    requires wait.Io? ==> wait.call in s.calls
    ensures Timely(Continued(s, f, wait))
  {
    assert FiberSound(s.fibers, s.calls, f, s.fibers[f], s.now);
    if wait.Io? {
      UnsetTimely(s, wait.call);
      MoveTimely(Unset(s, s.calls[wait.call].timer), Continued(s, f, wait), f);
    } else {
      MoveTimely(s, Continued(s, f, wait), f);
    }
  }

  lemma JudgeTimely(s: Sys, f: FiberId, c: nat)
    requires Timely(s) && InCall(s, f, c)
    ensures Timely(Judged(s, f, c))
  {
    InCallSound(s, f, c);
    if !s.calls[c].cancelled && s.calls[c].retries {
      MoveTimely(s, Judged(s, f, c), f);
    } else {
      ReturnTimely(s, f, c, s.calls[c].cancelled);
    }
  }

  lemma MarkTimely(s: Sys, g: FiberId, c: nat, k: E.Key)
    requires Timely(s) && g in s.fibers && s.fibers[g] == Fiber(EXEC, Checking(c, k)) && c in s.calls
    requires s.calls[c].alive && !s.calls[c].cancelled
    ensures Timely(Checked(s, g, c, k))
  {
    assert FiberSound(s.fibers, s.calls, g, s.fibers[g], s.now) && CallSound(s.calls, c, s.calls[c], s.now);
    CallTimely(s, Checked(s, g, c, k), g, c);
  }

  lemma CheckTimely(s: Sys, g: FiberId, c: nat, k: E.Key)
    requires Timely(s) && g in s.fibers && s.fibers[g] == Fiber(EXEC, Checking(c, k)) && c in s.calls
    ensures Timely(Checked(s, g, c, k))
  {
    if !s.calls[c].alive || s.calls[c].cancelled {
      MoveTimely(s, Checked(s, g, c, k), g);
    } else {
      MarkTimely(s, g, c, k);
    }
  }

  lemma ResumeTimely(s: Sys, g: FiberId)
    requires Timely(s) && Enabled(s, RunResume(g))
    ensures Timely(Step(s, RunResume(g)))
  {
    assert FiberSound(s.fibers, s.calls, g, s.fibers[g], s.now);
    MoveTimely(s, Step(s, RunResume(g)), g);
  }

  lemma NoteTimely(s: Sys, g: FiberId, c: nat, k: E.Key, ok: bool)
    requires Timely(s) && g in s.fibers && s.fibers[g] == Fiber(EXEC, Cancelling(c, k)) && c in s.calls
    ensures Timely(Noted(s, g, c, k, ok))
  {
    assert CallSound(s.calls, c, s.calls[c], s.now);
    CallTimely(s, Noted(s, g, c, k, ok), g, c);
  }

  lemma CancelJobTimely(s: Sys, g: FiberId, c: nat, k: E.Key, ok: bool)
    requires Timely(s) && Plain(s) && g in s.fibers && s.fibers[g] == Fiber(EXEC, Cancelling(c, k)) && c in s.calls
    ensures Timely(Cancelled(s, g, c, k, ok))
  {
    NoteTimely(s, g, c, k, ok);
    NotePlain(s, g, c, k, ok);
    CancelEventTimely(Noted(s, g, c, k, ok), k, ok);
  }

  lemma NotePlain(s: Sys, g: FiberId, c: nat, k: E.Key, ok: bool)
    requires Plain(s) && g in s.fibers && c in s.calls
    ensures Plain(Noted(s, g, c, k, ok))
  {
    CallPlain(s.timers.timers, s.addresses, s.calls, c, Noted(s, g, c, k, ok).calls[c]);
  }

  lemma BeginTimely(s: Sys, f: FiberId, c: nat, k: E.Key, to: Option<nat>, retries: bool)
    requires Timely(s) && Enabled(s, BeginIo(f, c, k, to, retries))
    ensures Timely(Step(s, BeginIo(f, c, k, to, retries)))
  {
    CallTimely(s, Step(s, BeginIo(f, c, k, to, retries)), f, c);
  }

  /** No timer, task, slot or callback leads to `f`. */
  ghost predicate Unheld(s: Sys, f: FiberId) {
    && (forall e :: e in s.timers.timers ==> e.cb != Some(Resume(f)))
    && (forall t :: t in s.queue ==> t.work != Fib(f) && t.work != Call(Resume(f)))
    && (forall k :: k in s.table.slots ==> s.table.slots[k] != Fib(f))
    && (forall g :: g in s.fibers ==> s.fibers[g].at != Resuming(f))
  }

  /** A fiber about to sleep is held by nothing, so nothing can wake it too early. */
  lemma NobodyHolds(s: Sys, f: FiberId)
    requires Good(s) && At(s, f, Body)
    ensures Unheld(s, f)
  {
    assert Fits(s, f);
    TimerNone(s.timers.timers, Resume(f));
    CountNone(s.queue, Fib(f));
    CountNone(s.queue, Call(Resume(f)));
    assert forall k :: k in s.table.slots && s.table.slots[k] == Fib(f) ==> k in E.KeysOf(s.table.slots, Fib(f));
    assert forall g :: g in s.fibers && s.fibers[g].at == Resuming(f) ==> g in Standing(s.fibers, Resuming(f));
  }

  lemma {:induction false} TimerNone(ts: seq<T.Entry>, cb: Callback)
    requires TimerCount(ts, cb) == 0
    ensures forall i :: 0 <= i < |ts| ==> ts[i].cb != Some(cb)
  {
    if ts != [] {
      TimerNone(ts[1..], cb);
      assert forall i :: 0 < i < |ts| ==> ts[i] == ts[1..][i - 1];
    }
  }

  /** A fiber falls asleep, held by no more than timers that are late enough. */
  lemma FallAsleep(s: Sys, f: FiberId, u: nat, s': Sys)
    requires Timely(s) && f in s.fibers && s.fibers[f].state == EXEC && s' == Moved(s, f, Parked(Sleep(u)))
    requires forall e :: e in s.timers.timers && e.cb == Some(Resume(f)) ==> e.next >= u
    requires forall t :: t in s.queue ==> t.work != Fib(f) && t.work != Call(Resume(f))
    requires forall k :: k in s.table.slots ==> s.table.slots[k] != Fib(f)
    requires forall g :: g in s.fibers ==> s.fibers[g].at != Resuming(f)
    ensures Timely(s')
  {
    assert forall g, t: nat :: g != f && Rested(s.fibers, g, t) ==> Rested(s'.fibers, g, t);
    forall g | g in s'.fibers
      ensures FiberSound(s'.fibers, s'.calls, g, s'.fibers[g], s'.now)
    {
      assert FiberSound(s.fibers, s.calls, g, s.fibers[g], s.now);
    }
  }

  lemma SleepTimely(s: Sys, f: FiberId, ms: nat)
    requires Timely(s) && Plain(s) && At(s, f, Body) && Unheld(s, f)
    ensures Timely(Slept(s, f, ms))
  {
    var s1 := NewTimer(s, ms, false, Some(Resume(f)));
    AddPlain(s.timers, T.Entry(s.addresses, s.now + ms, ms, false, Some(Resume(f))), s.calls);
    NewTimerTimely(s, ms, false, Some(Resume(f)));
    FallAsleep(s1, f, s.now + ms, Slept(s, f, ms));
  }

  lemma FiberTimely(s: Sys, a: Action)
    requires Timely(s) && Plain(s) && Enabled(s, a) && Mover(a).Some? && !a.GoToSleep?
    ensures Timely(Step(s, a))
  {
    match a
    case BeginIo(f, c, k, to, retries) => BeginTimely(s, f, c, k, to, retries);
    case Complete(f) => ReturnTimely(s, f, s.fibers[f].at.call, false);
    case Again(f) => RearmTimely(s, f, s.fibers[f].at.call);
    case Register(f, ok) => RegisterTimely(s, f, s.fibers[f].at.call, ok);
    case Awake(f) => ContinueTimely(s, f, s.fibers[f].at.wait);
    case Judge(f) => JudgeTimely(s, f, s.fibers[f].at.call);
    case RunResume(g) => ResumeTimely(s, g);
    case RunCheck(g) => CheckTimely(s, g, s.fibers[g].at.call, s.fibers[g].at.k);
    case RunCancel(g, ok) => CancelJobTimely(s, g, s.fibers[g].at.call, s.fibers[g].at.k, ok);
    case _ =>
  }

  // ---------- workers ----------

  lemma TakeFiberTimely(s: Sys, s': Sys, k: nat, f: FiberId)
    requires Timely(s) && k < |s.queue| && s.queue[k].work == Fib(f)
    requires f in s.fibers && s'.fibers == s.fibers[f := Fiber(EXEC, s.fibers[f].at)]
    requires s'.now == s.now && s'.calls == s.calls && s'.timers == s.timers && s'.table == s.table
    requires s'.queue == S.Removed(s.queue, k)
    ensures Timely(s')
  {
    assert s.queue[k] in s.queue && WorkSound(s.fibers, s.calls, Fib(f), s.now)
           && FiberSound(s.fibers, s.calls, f, s.fibers[f], s.now);
    MoveTimely(s, s', f);
  }

  lemma TakeCallTimely(s: Sys, s': Sys, k: nat, cb: Callback, g: FiberId)
    requires Timely(s) && k < |s.queue| && s.queue[k].work == Call(cb)
    requires s'.fibers == s.fibers[g := Fiber(EXEC, Entrance(cb))] && (g in s.fibers ==> s.fibers[g].at == Body)
    requires s'.now == s.now && s'.calls == s.calls && s'.timers == s.timers && s'.table == s.table
    requires s'.queue == S.Removed(s.queue, k)
    ensures Timely(s')
  {
    assert s.queue[k] in s.queue && CallbackSound(s.fibers, s.calls, cb, s.now);
    assert Evolves(s, s');
    assert CallbackSound(s'.fibers, s'.calls, cb, s'.now);
    NewsTimely(s, s');
  }

  /** A worker's own fiber, like a new one, is in no call and does not sleep. */
  lemma KeptBody(s: Sys, w: nat)
    requires W.Inv(s) && w in s.retained && w !in s.running
    ensures s.retained[w] in s.fibers && s.fibers[s.retained[w]].at == Body
  {
    assert W.Shape(s.fibers[s.retained[w]]);
  }

  lemma DequeueFiberTimely(s: Sys, w: nat, spare: FiberId)
    requires Timely(s) && Enabled(s, Dequeue(w, spare)) && Taken(s, w, spare).failure.None?
    requires s.queue[Next(s, w)].work.Fib?
    ensures Timely(Taken(s, w, spare))
  {
    TakeFiberTimely(s, Taken(s, w, spare), Next(s, w), s.queue[Next(s, w)].work.fiber);
  }

  lemma DequeueCallTimely(s: Sys, w: nat, spare: FiberId)
    requires Timely(s) && Enabled(s, Dequeue(w, spare)) && Taken(s, w, spare).failure.None?
    requires s.queue[Next(s, w)].work.Call?
    requires w in s.retained && s.retained[w] in s.fibers ==> s.fibers[s.retained[w]].at == Body
    ensures Timely(Taken(s, w, spare))
  {
    var g := if w in s.retained then s.retained[w] else spare;
    TakeCallTimely(s, Taken(s, w, spare), Next(s, w), s.queue[Next(s, w)].work.cb, g);
  }

  lemma LeaveTimely(s: Sys, w: nat, exit: S.Exit)
    requires Timely(s) && Enabled(s, Leave(w, exit))
    ensures Timely(Left(s, w, exit))
  {
    assert FiberSound(s.fibers, s.calls, s.running[w], s.fibers[s.running[w]], s.now);
    NewsTimely(s, Left(s, w, exit));
  }
}
