/** The library's own timers: when they are set, for which deadline, and when they go. */
module Deadlines {
  import opened Basics
  import opened Tasks
  import T = TimerSpec
  import opened Protocol
  import opened Tokens
  import opened PlainSteps
  import opened Timing
  import opened Runs
  import opened Limits
  import opened Outcomes

  /** The step sets the timer `e`: a sleep for the time from now on that was asked for, or a call with a
      time limit that would block, for the whole limit from now on. */
  predicate SetBy(s: Sys, a: Action, e: T.Entry) {
    match a
    case GoToSleep(f, ms) => e == T.Entry(s.addresses, s.now + ms, ms, false, Some(Resume(f)))
    case Again(f) =>
      f in s.fibers && s.fibers[f].at.Try? && s.fibers[f].at.call in s.calls &&
      var c := s.fibers[f].at.call;
      var call := s.calls[c];
      call.to.Some?
      && e == T.Entry(s.addresses, s.now + call.to.value, call.to.value, false, Some(IoTimeout(c, call.k.0, call.k.1)))
    case _ => false
  }

  /** The step takes the timer `e` out of the set: it is due, or its call goes on after it has been woken,
      or ends because its event cannot be registered. */
  predicate GoneBy(s: Sys, a: Action, e: T.Entry) {
    match a
    case Expire => e.next <= s.now
    case Awake(f) =>
      f in s.fibers && s.fibers[f].at.Woken? && s.fibers[f].at.wait.Io? && s.fibers[f].at.wait.call in s.calls
      && s.calls[s.fibers[f].at.wait.call].timer == Some(e.id)
    case Register(f, ok) =>
      f in s.fibers && s.fibers[f].at.Armed? && s.fibers[f].at.call in s.calls && !ok
      && s.calls[s.fibers[f].at.call].k !in s.table.slots && s.calls[s.fibers[f].at.call].timer == Some(e.id)
    case _ => false
  }

  /** The library's timers of `ts'` are those of `ts`, with those set and without those gone. */
  ghost predicate Changes(s: Sys, a: Action, ts': seq<T.Entry>) {
    forall e: T.Entry :: Library(e.cb) ==> (e in ts' <==> (e in s.timers.timers && !GoneBy(s, a, e)) || SetBy(s, a, e))
  }

  lemma CancelTakes(t: T.State, id: nat, addresses: nat, calls: Calls)
    requires PlainTimers(t.timers, addresses, calls)
    ensures forall e: T.Entry :: Library(e.cb) ==> (e in T.Cancel(t, id).timers <==> e in t.timers && e.id != id)
  {
    T.WithoutLawful(t.timers, id);
    forall e | e in t.timers && e.id == id
      ensures T.IndexOf(t.timers, id) < |t.timers| && t.timers[T.IndexOf(t.timers, id)] == e
    {
      IndexOfMember(t.timers, e);
    }
  }

  lemma IndexOfMember(ts: seq<T.Entry>, e: T.Entry)
    requires T.Lawful(ts) && e in ts
    ensures T.IndexOf(ts, e.id) < |ts| && ts[T.IndexOf(ts, e.id)] == e
  {
    var i :| 0 <= i < |ts| && ts[i] == e;
    assert T.IndexOf(ts, e.id) <= i;
  }

  lemma UnsetTakes(s: Sys, timer: Option<nat>)
    requires Plain(s)
    ensures forall e: T.Entry :: Library(e.cb) ==>
                                   (e in Unset(s, timer).timers.timers <==> e in s.timers.timers && timer != Some(e.id))
  {
    if timer.Some? {
      CancelTakes(s.timers, timer.value, s.addresses, s.calls);
    }
  }

  /** User code moves only its own timers. */
  lemma ReplaceKeeps(ts: seq<T.Entry>, k: nat, e: T.Entry)
    requires T.Lawful(ts) && k < |ts| && e.id == ts[k].id && e.cb == ts[k].cb && e.ms <= e.next && !Library(e.cb)
    ensures forall x: T.Entry :: Library(x.cb) ==> (x in T.Insert(T.Without(ts, e.id), e) <==> x in ts)
  {
    T.WithoutLawful(ts, e.id);
    T.InsertLawful(T.Without(ts, e.id), e);
    forall x | x in ts && x.id == e.id
      ensures x == ts[k]
    {
      IndexOfMember(ts, x);
      assert ts[k] in ts;
      IndexOfMember(ts, ts[k]);
    }
  }

  /** A timer that user code may move is not the library's. */
  lemma NotTheLibrarys(s: Sys, id: nat)
    requires Plain(s) && OwnTimer(s, id)
    ensures var ts, k := s.timers.timers, T.IndexOf(s.timers.timers, id);
            k < |ts| ==> !Library(ts[k].cb) && ts[k].ms <= ts[k].next
    ensures forall e: T.Entry :: Library(e.cb) && e in s.timers.timers ==> e.id != id
  {
    var ts, k := s.timers.timers, T.IndexOf(s.timers.timers, id);
    if k < |ts| {
      assert ts[k] in ts;
    }
  }

  lemma RefreshLeaves(t: T.State, id: nat, now: nat)
    requires T.Lawful(t.timers) && var k := T.IndexOf(t.timers, id); k < |t.timers| ==> !Library(t.timers[k].cb)
    ensures forall x: T.Entry :: Library(x.cb) ==> (x in T.Refresh(t, id, now).timers <==> x in t.timers)
  {
    var k := T.IndexOf(t.timers, id);
    if k < |t.timers| {
      ReplaceKeeps(t.timers, k, T.Again(t.timers[k], now));
    }
  }

  lemma ResetLeaves(t: T.State, id: nat, ms: nat, fromNow: bool, now: nat)
    requires T.Lawful(t.timers) && var k := T.IndexOf(t.timers, id); k < |t.timers| ==> !Library(t.timers[k].cb)
    ensures forall x: T.Entry :: Library(x.cb) ==> (x in T.Reset(t, id, ms, fromNow, now).0.timers <==> x in t.timers)
  {
    var k := T.IndexOf(t.timers, id);
    if k < |t.timers| {
      ReplaceKeeps(t.timers, k, T.Rekeyed(t.timers[k], ms, fromNow, now));
    }
  }

  lemma OwnTimerChanges(s: Sys, a: Action)
    requires Plain(s) && Enabled(s, a) && (a.CancelTimer? || a.RefreshTimer? || a.ResetTimer?)
    ensures Changes(s, a, OutsideStep(s, a).timers.timers)
  {
    NotTheLibrarys(s, a.id);
    match a {
      case CancelTimer(id) => CancelTakes(s.timers, id, s.addresses, s.calls);
      case RefreshTimer(id) => RefreshLeaves(s.timers, id, s.now);
      case ResetTimer(id, ms, fromNow) => ResetLeaves(s.timers, id, ms, fromNow, s.now);
    }
  }

  lemma ExpireChanges(s: Sys)
    requires Plain(s) && s.timers.previousTime <= s.now
    ensures Changes(s, Expire, Expired(s).timers.timers)
  {
    var t, due := s.timers, T.Due(s.timers, s.now);
    T.ExpirePartition(t, s.now);
    forall e: T.Entry | Library(e.cb)
      ensures e in T.Expire(t, s.now).timers <==> e in t.timers && e.next > s.now
    {
      DueOrLeft(t, s.now, e);
    }
  }

  lemma DueOrLeft(t: T.State, now: nat, e: T.Entry)
    requires T.Lawful(t.timers)
    ensures e in t.timers[|T.Due(t, now)|..] <==> e in t.timers && e !in T.Due(t, now)
  {
    T.ExpirePartition(t, now);
    var n := |T.Due(t, now)|;
    assert t.timers == t.timers[..n] + t.timers[n..];
  }

  lemma NewTimerChanges(s: Sys, ms: nat, recurring: bool, cb: Option<Callback>)
    requires Plain(s) && (Library(cb) ==> !recurring)
    ensures var e := T.Entry(s.addresses, s.now + ms, ms, recurring, cb);
            forall x :: x in NewTimer(s, ms, recurring, cb).timers.timers <==> x == e || x in s.timers.timers
  {
    AddPlain(s.timers, T.Entry(s.addresses, s.now + ms, ms, recurring, cb), s.calls);
  }

  lemma OutsideChanges(s: Sys, a: Action)
    requires Plain(s) && s.timers.previousTime <= s.now && Enabled(s, a) && Mover(a).None? && !a.Dequeue? && !a.Leave?
    ensures Changes(s, a, OutsideStep(s, a).timers.timers)
  {
    if a.CancelTimer? || a.RefreshTimer? || a.ResetTimer? {
      OwnTimerChanges(s, a);
    } else if a.Expire? {
      ExpireChanges(s);
    } else if a.AddTimer? {
      NewTimerChanges(s, a.ms, a.recurring, if a.user.Some? then Some(User(a.user.value)) else None);
    }
  }

  lemma AgainChanges(s: Sys, f: FiberId)
    requires Plain(s) && FiberEnabled(s, f, Again(f))
    ensures Changes(s, Again(f), Rearmed(s, f, s.fibers[f].at.call).timers.timers)
  {
    var c := s.fibers[f].at.call;
    var call := s.calls[c];
    if call.to.Some? {
      NewTimerChanges(s, call.to.value, false, Some(IoTimeout(c, call.k.0, call.k.1)));
    }
  }

  lemma AwakeChanges(s: Sys, f: FiberId)
    requires Plain(s) && FiberEnabled(s, f, Awake(f))
    ensures Changes(s, Awake(f), Continued(s, f, s.fibers[f].at.wait).timers.timers)
  {
    if s.fibers[f].at.wait.Io? {
      UnsetTakes(s, s.calls[s.fibers[f].at.wait.call].timer);
    }
  }

  lemma RegisterChanges(s: Sys, f: FiberId, ok: bool)
    requires Plain(s) && FiberEnabled(s, f, Register(f, ok))
    ensures Changes(s, Register(f, ok), Registered(s, f, s.fibers[f].at.call, ok).timers.timers)
  {
    UnsetTakes(s, s.calls[s.fibers[f].at.call].timer);
  }

  lemma CallChanges(s: Sys, f: FiberId, a: Action)
    requires Plain(s) && Enabled(s, a) && Mover(a) == Some(f) && !Job(a)
    ensures Changes(s, a, CallStep(s, f, a).timers.timers)
  {
    if a.GoToSleep? {
      NewTimerChanges(s, a.ms, false, Some(Resume(f)));
    } else if a.Again? {
      AgainChanges(s, f);
    } else if a.Awake? {
      AwakeChanges(s, f);
    } else if a.Register? {
      RegisterChanges(s, f, a.ok);
    }
  }

  lemma StepChanges(s: Sys, a: Action)
    requires Plain(s) && Timely(s) && Enabled(s, a)
    ensures Changes(s, a, Step(s, a).timers.timers)
  {
    if Mover(a).Some? {
      if !Job(a) {
        CallChanges(s, Mover(a).value, a);
      }
    } else if !a.Dequeue? && !a.Leave? {
      OutsideChanges(s, a);
    }
  }

  /** In every reachable state: a timer of the library is set by a sleep or a blocking call, and by nothing
      else, for exactly the time asked for; it keeps its deadline; and it goes when it is due, or its call
      no longer waits, and not otherwise. */
  lemma TimersExactly(s: Sys, a: Action, e: T.Entry)
    requires Reachable(s) && Enabled(s, a) && Library(e.cb)
    ensures e in Step(s, a).timers.timers <==> (e in s.timers.timers && !GoneBy(s, a, e)) || SetBy(s, a, e)
  {
    ReachableGood(s);
    StepChanges(s, a);
  }

  /** A sleep parks the fiber until the time asked for is over, and sets a timer for then. */
  lemma SleepBegins(s: Sys, f: FiberId, ms: nat, e: T.Entry)
    requires Reachable(s) && Enabled(s, GoToSleep(f, ms))
    requires e == T.Entry(s.addresses, s.now + ms, ms, false, Some(Resume(f)))
    ensures Step(s, GoToSleep(f, ms)).fibers[f] == Fiber(EXEC, Parked(Sleep(s.now + ms)))
    ensures e in Step(s, GoToSleep(f, ms)).timers.timers
  {
    TimersExactly(s, GoToSleep(f, ms), e);
    SleptFiber(s, f, ms);
  }

  lemma SleptFiber(s: Sys, f: FiberId, ms: nat)
    requires FiberEnabled(s, f, GoToSleep(f, ms))
    ensures FiberStep(s, f, GoToSleep(f, ms)).fibers[f] == Fiber(EXEC, Parked(Sleep(s.now + ms)))
  {
  }

  // ---------- whose timer it is ----------

  /** A call's timer is that of a call in progress with a time limit, whose fiber is between its attempt
      and its wake-up, and is due at the latest when a whole limit has passed from now on. */
  predicate InUse(s: Sys, e: T.Entry) {
    e.cb.Some? && e.cb.value.IoTimeout? ==>
      && e.cb.value.call in s.calls &&
         var c := e.cb.value.call;
         var call := s.calls[c];
         && call.alive && call.timer == Some(e.id) && call.k == (e.cb.value.fd, e.cb.value.event)
         && call.to == Some(e.ms) && e.next <= s.now + e.ms
         && call.fiber in s.fibers && LimitedBy(s.fibers[call.fiber].at) == Some(c)
  }

  ghost predicate AllInUse(s: Sys) {
    forall e :: e in s.timers.timers ==> InUse(s, e)
  }

  /** The call of the timer and its fiber are as they were, but for marks, and the fiber has yielded at most. */
  lemma StaysInUse(s: Sys, s': Sys, e: T.Entry, c: nat)
    requires InUse(s, e) && e.cb.Some? && e.cb.value.IoTimeout? && e.cb.value.call == c && s.now <= s'.now
    requires c in s'.calls && s'.calls[c].alive && s'.calls[c].timer == s.calls[c].timer
    requires s'.calls[c].k == s.calls[c].k && s'.calls[c].to == s.calls[c].to && s'.calls[c].fiber == s.calls[c].fiber
    requires s.calls[c].fiber in s'.fibers
    requires LimitedBy(s'.fibers[s.calls[c].fiber].at) == Some(c)
    ensures InUse(s', e)
  {
  }

  /** Only a call that would block changes the timer it keeps. */
  lemma TimerFields(s: Sys, a: Action, c: nat)
    requires Enabled(s, a) && c in s.calls && c in Step(s, a).calls && !(a.Again? && Comes(s, a.f, Try(c)))
    ensures Step(s, a).calls[c].timer == s.calls[c].timer
  {
    if Mover(a).Some? {
      if Job(a) {
        JobFields(s, Mover(a).value, a, c);
      } else {
        CallFields(s, Mover(a).value, a, c);
      }
    }
  }

  lemma CallFields(s: Sys, f: FiberId, a: Action, c: nat)
    requires Enabled(s, a) && Mover(a) == Some(f) && !Job(a) && c in s.calls && !(a.Again? && Comes(s, a.f, Try(c)))
    ensures c in CallStep(s, f, a).calls && CallStep(s, f, a).calls[c].timer == s.calls[c].timer
  {
    if a.Register? {
      RegisteredCalls(s, f, s.fibers[f].at.call, a.ok);
    }
  }

  lemma JobFields(s: Sys, g: FiberId, a: Action, c: nat)
    requires Enabled(s, a) && Mover(a) == Some(g) && Job(a) && c in s.calls
    ensures c in JobStep(s, g, a).calls && JobStep(s, g, a).calls[c].timer == s.calls[c].timer
  {
  }

  /** A timer that has just been set. */
  lemma NewInUse(s: Sys, f: FiberId, e: T.Entry)
    requires Timely(s) && Enabled(s, Again(f)) && SetBy(s, Again(f), e)
    ensures InUse(Rearmed(s, f, s.fibers[f].at.call), e)
  {
    assert FiberSound(s.fibers, s.calls, f, s.fibers[f], s.now);
  }

  /** A step of the call's own fiber that leaves the timer in the set. */
  lemma OwnInUse(s: Sys, f: FiberId, a: Action, e: T.Entry)
    requires InUse(s, e) && Enabled(s, a) && !GoneBy(s, a, e) && e.cb.Some? && e.cb.value.IoTimeout?
    requires Mover(a) == Some(f) && s.calls[e.cb.value.call].fiber == f
    ensures InUse(Step(s, a), e)
  {
    assert a.Register? && Step(s, a) == Registered(s, f, s.fibers[f].at.call, a.ok);
    RegisteredInUse(s, f, s.fibers[f].at.call, a.ok, e, Step(s, a));
  }

  lemma RegisteredInUse(s: Sys, f: FiberId, c: nat, ok: bool, e: T.Entry, s': Sys)
    requires InUse(s, e) && e.cb.Some? && e.cb.value.IoTimeout? && e.cb.value.call == c && At(s, f, Armed(c))
    requires s.calls[c].fiber == f && (ok || s.calls[c].k in s.table.slots) && s' == Registered(s, f, c, ok)
    ensures InUse(s', e)
  {
    RegisteredCalls(s, f, c, ok);
  }

  /** Nobody else ends the call or takes another timer for it. */
  lemma OthersLeave(s: Sys, a: Action, c: nat)
    requires Timely(s) && Enabled(s, a) && c in s.calls && Mover(a) != Some(s.calls[c].fiber)
    ensures !EndsCall(s, a, c) && !(a.Again? && Comes(s, a.f, Try(c)))
  {
    if Mover(a).Some? {
      var g := Mover(a).value;
      assert FiberSound(s.fibers, s.calls, g, s.fibers[g], s.now);
    }
  }

  /** Of a call that has not returned others change only the mark and the note of a miss. */
  lemma CallKept(s: Sys, a: Action, c: nat)
    requires Timely(s) && NoneReported(s) && Enabled(s, a)
    requires c in s.calls && s.calls[c].alive && Mover(a) != Some(s.calls[c].fiber)
    ensures c in Step(s, a).calls
    ensures var b, b' := s.calls[c], Step(s, a).calls[c];
            b' == b.(cancelled := b'.cancelled, missed := b'.missed)
  {
    assert Unreported(s.calls, c);
    OthersLeave(s, a, c);
    StepRecords(s, a, c);
    TimerFields(s, a, c);
  }

  lemma OtherInUse(s: Sys, a: Action, e: T.Entry, c: nat)
    requires Inv(s) && Timely(s) && NoneReported(s) && Enabled(s, a) && InUse(s, e)
    requires e.cb.Some? && e.cb.value.IoTimeout? && e.cb.value.call == c && Mover(a) != Some(s.calls[c].fiber)
    ensures InUse(Step(s, a), e)
  {
    CallKept(s, a, c);
    Whereabouts(s, a, s.calls[c].fiber);
    ClockGoesOn(s, a);
    StaysInUse(s, Step(s, a), e, c);
  }

  lemma ClockGoesOn(s: Sys, a: Action)
    requires Enabled(s, a)
    ensures s.now <= Step(s, a).now
  {
    if Mover(a).Some? {
      assert FiberStep(s, Mover(a).value, a).now == s.now;
    } else if !a.Dequeue? && !a.Leave? {
      OutsideClock(s, a);
    }
  }

  lemma OutsideClock(s: Sys, a: Action)
    requires OutsideEnabled(s, a) && Mover(a).None? && !a.Dequeue? && !a.Leave?
    ensures s.now <= OutsideStep(s, a).now
  {
  }

  lemma StepInUse(s: Sys, a: Action)
    requires Inv(s) && Timely(s) && NoneReported(s) && Enabled(s, a) && AllInUse(s)
    ensures AllInUse(Step(s, a))
  {
    StepChanges(s, a);
    forall e | e in Step(s, a).timers.timers && e.cb.Some? && e.cb.value.IoTimeout?
      ensures InUse(Step(s, a), e)
    {
      assert Library(e.cb);
      if SetBy(s, a, e) {
        NewInUse(s, a.f, e);
      } else {
        EntryInUse(s, a, e);
      }
    }
  }

  lemma EntryInUse(s: Sys, a: Action, e: T.Entry)
    requires Inv(s) && Timely(s) && NoneReported(s) && Enabled(s, a)
    requires InUse(s, e) && !GoneBy(s, a, e) && e.cb.Some? && e.cb.value.IoTimeout?
    ensures InUse(Step(s, a), e)
  {
    var f := s.calls[e.cb.value.call].fiber;
    if Mover(a) == Some(f) {
      OwnInUse(s, f, a, e);
    } else {
      OtherInUse(s, a, e, e.cb.value.call);
    }
  }

  lemma {:induction false} RunInUse(s: Sys, actions: seq<Action>, s': Sys)
    requires Inv(s) && Timely(s) && NoneReported(s) && AllInUse(s) && Leads(s, actions, s')
    ensures AllInUse(s')
    decreases |actions|
  {
    if actions != [] {
      StepInUse(s, actions[0]);
      StepReports(s, actions[0]);
      StepKeepsTokens(s, actions[0]);
      StepKeepsTime(s, actions[0]);
      RunInUse(Step(s, actions[0]), actions[1..], s');
    }
  }

  /** In every reachable state a timer of a call belongs to a call that has not returned, has a time limit
      and is between its attempt and its wake-up, and is the one that call keeps; so each call has at most
      one, none while it is tried again or after it, and it is not set for longer than the limit. */
  lemma TimerInUse(s: Sys, e: T.Entry, c: nat)
    requires Reachable(s) && e in s.timers.timers && e.cb.Some? && e.cb.value.IoTimeout? && e.cb.value.call == c
    ensures c in s.calls && s.calls[c].alive && s.calls[c].to == Some(e.ms) && e.next <= s.now + e.ms
    ensures s.calls[c].fiber in s.fibers
    ensures s.fibers[s.calls[c].fiber].at in {Armed(c), Parked(Io(c)), Woken(Io(c))}
    ensures forall x :: x in s.timers.timers && x.cb.Some? && x.cb.value.IoTimeout? && x.cb.value.call == c ==> x == e
  {
    ReachableInUse(s);
    forall x | x in s.timers.timers && x.cb.Some? && x.cb.value.IoTimeout? && x.cb.value.call == c
      ensures x == e
    {
      assert InUse(s, x) && InUse(s, e);
      IndexOfMember(s.timers.timers, x);
      IndexOfMember(s.timers.timers, e);
    }
  }

  lemma ReachableInUse(s: Sys)
    requires Reachable(s)
    ensures T.Lawful(s.timers.timers) && AllInUse(s)
  {
    var s0: Sys, actions: seq<Action> :| Initial(s0) && Leads(s0, actions, s);
    InitialGood(s0);
    RunInUse(s0, actions, s);
    ReachableGood(s);
  }
}
