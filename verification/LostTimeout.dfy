/** A run in which a time limit is lost: the timer of a call expires after it is set and before the
    event is registered. */
module LostTimeout {
  import opened Basics
  import opened Tasks
  import S = SchedulerSpec
  import E = EventSpec
  import T = TimerSpec
  import opened Protocol
  import opened Tokens
  import opened Runs

  lemma {:induction false} LeadsOn(s0: Sys, actions: seq<Action>, s: Sys, a: Action)
    requires Leads(s0, actions, s) && Enabled(s, a)
    ensures Leads(s0, actions + [a], Step(s, a))
    decreases |actions|
  {
    if actions == [] {
      assert actions + [a] == [a];
    } else {
      assert (actions + [a])[0] == actions[0] && (actions + [a])[1..] == actions[1..] + [a];
      LeadsOn(Step(s0, actions[0]), actions[1..], s, a);
    }
  }

  lemma ReachableOn(s: Sys, a: Action, s': Sys)
    requires Reachable(s) && Enabled(s, a) && s' == Step(s, a)
    ensures Reachable(s')
  {
    var s0: Sys, actions: seq<Action> :| Initial(s0) && Leads(s0, actions, s);
    LeadsOn(s0, actions, s, a);
  }

  // ---------- the actions the runs are made of ----------

  lemma AgainOn(s: Sys, f: FiberId, c: nat, s': Sys)
    requires Reachable(s) && s.failure.None? && At(s, f, Try(c)) && c in s.calls && s' == Rearmed(s, f, c)
    ensures Reachable(s')
  {
    ReachableOn(s, Again(f), s');
  }

  lemma RegisterOn(s: Sys, f: FiberId, c: nat, s': Sys)
    requires Reachable(s) && s.failure.None? && At(s, f, Armed(c)) && c in s.calls && s' == Registered(s, f, c, true)
    ensures Reachable(s')
  {
    ReachableOn(s, Register(f, true), s');
  }

  lemma BeginOn(s: Sys, f: FiberId, c: nat, call: IoCall, s': Sys)
    requires Reachable(s) && s.failure.None? && At(s, f, Body) && c !in s.calls && s' == Begun(s, f, c, call)
    requires call == IoCall(f, call.k, call.to, s.now, call.retries, None, false, true, false, false)
    ensures Reachable(s')
  {
    ReachableOn(s, BeginIo(f, c, call.k, call.to, call.retries), s');
  }

  lemma AwakeOn(s: Sys, f: FiberId, c: nat, s': Sys)
    requires Reachable(s) && s.failure.None? && At(s, f, Woken(Io(c))) && c in s.calls && s' == Continued(s, f, Io(c))
    ensures Reachable(s')
  {
    ReachableOn(s, Awake(f), s');
  }

  lemma JudgeOn(s: Sys, f: FiberId, c: nat, s': Sys)
    requires Reachable(s) && s.failure.None? && At(s, f, Judging(c)) && c in s.calls && s' == Judged(s, f, c)
    ensures Reachable(s')
  {
    ReachableOn(s, Judge(f), s');
  }

  lemma CheckOn(s: Sys, g: FiberId, c: nat, k: E.Key, s': Sys)
    requires Reachable(s) && s.failure.None? && At(s, g, Checking(c, k)) && c in s.calls && s' == Checked(s, g, c, k)
    ensures Reachable(s')
  {
    ReachableOn(s, RunCheck(g), s');
  }

  /** epoll_ctl fails, or is not called. */
  lemma CancelOn(s: Sys, g: FiberId, c: nat, k: E.Key, s': Sys)
    requires Reachable(s) && s.failure.None? && At(s, g, Cancelling(c, k)) && c in s.calls
    requires s' == Noted(s, g, c, k, false)
    ensures Reachable(s')
  {
    ReachableOn(s, RunCancel(g, false), s');
  }

  /** Worker `w` takes the one task there is, a fiber. */
  lemma FiberOn(s: Sys, w: nat, f: FiberId, spare: FiberId, s': Sys)
    requires Reachable(s) && s.failure.None? && w !in s.running && spare !in s.fibers
    requires s.queue == [Task(Fib(f), ANY)] && f in s.fibers && s.fibers[f].state != EXEC
    requires s' == s.(queue := [], active := s.active + 1, running := s.running[w := f],
                   fibers := s.fibers[f := Fiber(EXEC, s.fibers[f].at)])
    ensures Reachable(s')
  {
    assert Next(s, w) == 0 && S.Removed(s.queue, 0) == [];
    ReachableOn(s, Dequeue(w, spare), s');
  }

  /** Worker `w` takes the one task there is, a callback, into a new fiber. */
  lemma CallbackOn(s: Sys, w: nat, cb: Callback, g: FiberId, s': Sys)
    requires Reachable(s) && s.failure.None? && w !in s.running && w !in s.retained && g !in s.fibers
    requires s.queue == [Task(Call(cb), ANY)]
    requires s' == s.(queue := [], active := s.active + 1, running := s.running[w := g],
                   retained := s.retained[w := g], fibers := s.fibers[g := Fiber(EXEC, Entrance(cb))])
    ensures Reachable(s')
  {
    assert Next(s, w) == 0 && S.Removed(s.queue, 0) == [];
    ReachableOn(s, Dequeue(w, g), s');
  }

  /** The fiber of worker `w` yields and waits. */
  lemma HoldOn(s: Sys, w: nat, f: FiberId, wait: Wait, s': Sys)
    requires Reachable(s) && s.failure.None? && w in s.running && s.running[w] == f && At(s, f, Parked(wait))
    requires w !in s.retained
    requires s' ==
             s.(running := s.running - {w}, active := s.active - 1, fibers := s.fibers[f := Fiber(HOLD, Woken(wait))])
    ensures Reachable(s')
  {
    ReachableOn(s, Leave(w, S.ToHold), s');
  }

  lemma LeaveOn(s: Sys, w: nat, exit: S.Exit, s': Sys)
    requires Reachable(s) && s.failure.None? && w in s.running && s.running[w] in s.fibers
    requires Leaves(s.fibers[s.running[w]].at, exit) && s' == Left(s, w, exit)
    ensures Reachable(s')
  {
    ReachableOn(s, Leave(w, exit), s');
  }

  lemma ExpireOn(s: Sys, s': Sys)
    requires Reachable(s) && s.failure.None? && s' == Expired(s)
    ensures Reachable(s')
  {
    ReachableOn(s, Expire, s');
  }

  lemma TickOn(s: Sys, ms: nat, s': Sys)
    requires Reachable(s) && s.failure.None? && s' == s.(now := s.now + ms)
    ensures Reachable(s')
  {
    ReachableOn(s, Tick(ms), s');
  }

  lemma CreateOn(s: Sys, f: FiberId, s': Sys)
    requires Reachable(s) && s.failure.None? && f !in s.fibers && s' == s.(fibers := s.fibers[f := Fiber(INIT, Body)])
    ensures Reachable(s')
  {
    ReachableOn(s, NewFiber(f), s');
  }

  lemma ScheduleOn(s: Sys, f: FiberId, s': Sys)
    requires Reachable(s) && s.failure.None? && s.queue == [] && f !in s.retained.Values
    requires f in s.fibers && s.fibers[f] == Fiber(INIT, Body) && s' == s.(queue := [Task(Fib(f), ANY)])
    ensures Reachable(s')
  {
    ReachableOn(s, ScheduleFiber(f, ANY), s');
  }

  const K: E.Key := (5, READ)
  const TIMEOUT := IoTimeout(0, 5, READ)

  function New(intended: bool): Sys {
    Sys(0, T.State([], false, 0), 0, E.Table(map[], 0), [], map[], map[], 0, map[], map[], false, false, None, intended)
  }

  function Entry(): T.Entry {
    T.Entry(0, 7, 7, false, Some(TIMEOUT))
  }

  /** The call of fiber 0, as far as its timer, its mark and the miss of its callback go. */
  function Call0(timer: Option<nat>, cancelled: bool, missed: bool): IoCall {
    IoCall(0, K, Some(7), 0, true, timer, cancelled, true, false, missed)
  }

  /** Thread 0 runs fiber 0, which is at `p`. */
  function Running0(intended: bool, p: Point): Sys {
    New(intended).(running := map[0 := 0], active := 1, fibers := map[0 := Fiber(EXEC, p)])
  }

  lemma CreatedReachable(intended: bool)
    ensures Reachable(New(intended).(fibers := map[0 := Fiber(INIT, Body)]))
  {
    var s := New(intended);
    assert Leads(s, [], s);
    CreateOn(s, 0, s.(fibers := map[0 := Fiber(INIT, Body)]));
  }

  lemma ScheduledReachable(intended: bool)
    ensures Reachable(New(intended).(fibers := map[0 := Fiber(INIT, Body)], queue := [Task(Fib(0), ANY)]))
  {
    CreatedReachable(intended);
    var s := New(intended).(fibers := map[0 := Fiber(INIT, Body)]);
    ScheduleOn(s, 0, s.(queue := [Task(Fib(0), ANY)]));
  }

  lemma RunningReachable(intended: bool)
    ensures Reachable(Running0(intended, Body))
  {
    ScheduledReachable(intended);
    var s := New(intended).(fibers := map[0 := Fiber(INIT, Body)], queue := [Task(Fib(0), ANY)]);
    FiberOn(s, 0, 0, 1, Running0(intended, Body));
  }

  /** Fiber 0 is about to try its call. */
  function Trying0(intended: bool): Sys {
    Running0(intended, Try(0)).(calls := map[0 := Call0(None, false, false)])
  }

  lemma TryingReachable(intended: bool)
    ensures Reachable(Trying0(intended))
  {
    RunningReachable(intended);
    BeginOn(Running0(intended, Body), 0, 0, Call0(None, false, false), Trying0(intended));
  }

  /** Fiber 0 has just set the timer of its call. */
  function Armed0(intended: bool): Sys {
    Running0(intended, Armed(0)).(timers := T.State([Entry()], true, 0), addresses := 1,
    calls := map[0 := Call0(Some(0), false, false)])
  }

  lemma FirstTimer()
    ensures T.AddEntry(T.State([], false, 0), Entry()).0 == T.State([Entry()], true, 0)
  {
    assert T.Insert([], Entry()) == [Entry()];
  }

  lemma OneCall(call: IoCall, call': IoCall)
    ensures (map[0 := call])[0 := call'] == map[0 := call']
  {
  }

  lemma OneFiber(fb: Fiber, fb': Fiber)
    ensures (map[0 := fb])[0 := fb'] == map[0 := fb']
  {
  }

  lemma ArmedReachable(intended: bool)
    ensures Reachable(Armed0(intended))
  {
    TryingReachable(intended);
    FirstTimer();
    OneCall(Call0(None, false, false), Call0(Some(0), false, false));
    OneFiber(Fiber(EXEC, Try(0)), Fiber(EXEC, Armed(0)));
    AgainOn(Trying0(intended), 0, 0, Armed0(intended));
  }

  /** The limit passes. */
  lemma LateReachable(intended: bool)
    ensures Reachable(Armed0(intended).(now := 7))
  {
    ArmedReachable(intended);
    TickOn(Armed0(intended), 7, Armed0(intended).(now := 7));
  }

  lemma ExpiryOfOne()
    ensures T.Due(T.State([Entry()], true, 0), 7) == [Entry()]
    ensures T.Expire(T.State([Entry()], true, 0), 7) == T.State([], true, 7)
    ensures Works(T.Callbacks([Entry()])) == [Call(TIMEOUT)]
    ensures S.ScheduledAll<FiberId>([], [Call(TIMEOUT)]) == [Task(Call(TIMEOUT), ANY)]
  {
    var ts := [Entry()];
    assert ts[1..] == [];
    assert T.DueCount(ts, 7) == 1;
    assert T.Reinsert([], ts, 7) == [];
    var works: seq<Work<FiberId>> := [Call(TIMEOUT)];
    assert works[1..] == [];
  }

  /** The timer has expired; `queue` is what is left of the queue. */
  function Expired0(intended: bool, queue: Queue): Sys {
    Armed0(intended).(now := 7, timers := T.State([], true, 7), queue := queue)
  }

  lemma QueuedReachable(intended: bool)
    ensures Reachable(Expired0(intended, [Task(Call(TIMEOUT), ANY)]))
  {
    LateReachable(intended);
    ExpiryOfOne();
    ExpireOn(Armed0(intended).(now := 7), Expired0(intended, [Task(Call(TIMEOUT), ANY)]));
  }

  lemma TwoFibers(a: Fiber, b: Fiber, b': Fiber)
    ensures (map[0 := a, 7 := b])[7 := b'] == map[0 := a, 7 := b']
  {
  }

  lemma FirstOfTwo(a: Fiber, b: Fiber, a': Fiber)
    ensures (map[0 := a, 7 := b])[0 := a'] == map[0 := a', 7 := b]
  {
  }

  lemma OneLeft(w: nat, f: FiberId, v: nat, g: FiberId)
    requires v != w
    ensures map[w := f] - {w} == map[] && map[w := f, v := g] - {v} == map[w := f]
  {
  }

  /** Thread 1 runs the callback, which is at `p`. */
  function OnThread1(intended: bool, p: Point, cancelled: bool, missed: bool): Sys {
    Expired0(intended, []).(running := map[0 := 0, 1 := 7], retained := map[1 := 7], active := 2,
    fibers := map[0 := Fiber(EXEC, Armed(0)), 7 := Fiber(EXEC, p)],
    calls := map[0 := Call0(Some(0), cancelled, missed)])
  }

  lemma CheckingReachable(intended: bool)
    ensures Reachable(OnThread1(intended, Checking(0, K), false, false))
  {
    QueuedReachable(intended);
    var s := Expired0(intended, [Task(Call(TIMEOUT), ANY)]);
    CallbackOn(s, 1, TIMEOUT, 7, OnThread1(intended, Checking(0, K), false, false));
  }

  lemma CancellingReachable(intended: bool)
    ensures Reachable(OnThread1(intended, Cancelling(0, K), true, false))
  {
    CheckingReachable(intended);
    OneCall(Call0(Some(0), false, false), Call0(Some(0), true, false));
    TwoFibers(Fiber(EXEC, Armed(0)), Fiber(EXEC, Checking(0, K)), Fiber(EXEC, Cancelling(0, K)));
    CheckOn(OnThread1(intended, Checking(0, K), false, false), 7, 0, K,
            OnThread1(intended, Cancelling(0, K), true, false));
  }

  /** The event is not registered yet, so there is nothing to cancel. */
  lemma FinishedReachable(intended: bool)
    ensures Reachable(OnThread1(intended, Finished, true, true))
  {
    CancellingReachable(intended);
    OneCall(Call0(Some(0), true, false), Call0(Some(0), true, true));
    TwoFibers(Fiber(EXEC, Armed(0)), Fiber(EXEC, Cancelling(0, K)), Fiber(EXEC, Finished));
    CancelOn(OnThread1(intended, Cancelling(0, K), true, false), 7, 0, K, OnThread1(intended, Finished, true, true));
  }

  /** The callback has run to its end while fiber 0 got no further; `p` is where fiber 0 is. */
  function Marked0(intended: bool, p: Point, table: E.Table<FiberId>): Sys {
    Expired0(intended, []).(retained := map[1 := 7], fibers := map[0 := Fiber(EXEC, p), 7 := Fiber(INIT, Body)],
    calls := map[0 := Call0(Some(0), true, true)], table := table)
  }

  lemma MarkedReachable(intended: bool)
    ensures Reachable(Marked0(intended, Armed(0), E.Table(map[], 0)))
  {
    FinishedReachable(intended);
    var s := OnThread1(intended, Finished, true, true);
    OneLeft(0, 0, 1, 7);
    TwoFibers(Fiber(EXEC, Armed(0)), Fiber(EXEC, Finished), Fiber(INIT, Body));
    LeaveOn(s, 1, S.Return, Marked0(intended, Armed(0), E.Table(map[], 0)));
  }

  lemma RegisteredReachable(intended: bool)
    ensures Reachable(Marked0(intended, Parked(Io(0)), E.Table(map[K := Fib(0)], 1)))
  {
    MarkedReachable(intended);
    FirstOfTwo(Fiber(EXEC, Armed(0)), Fiber(INIT, Body), Fiber(EXEC, Parked(Io(0))));
    RegisterOn(Marked0(intended, Armed(0), E.Table(map[], 0)), 0, 0,
               Marked0(intended, Parked(Io(0)), E.Table(map[K := Fib(0)], 1)));
  }

  /** Fiber 0 has yielded, and nothing runs. */
  function Lost0(intended: bool): Sys {
    Marked0(intended, Body, E.Table(map[K := Fib(0)], 1)).(running := map[], active := 0,
    fibers := map[0 := Fiber(HOLD, Woken(Io(0))), 7 := Fiber(INIT, Body)])
  }

  lemma LostReachable(intended: bool)
    ensures Reachable(Lost0(intended))
  {
    RegisteredReachable(intended);
    OneLeft(0, 0, 1, 7);
    FirstOfTwo(Fiber(EXEC, Parked(Io(0))), Fiber(INIT, Body), Fiber(HOLD, Woken(Io(0))));
    HoldOn(Marked0(intended, Parked(Io(0)), E.Table(map[K := Fib(0)], 1)), 0, 0, Io(0), Lost0(intended));
  }

  /** A time limit can be lost: in this reachable state fiber 0 is blocked in a call with a limit of
      7 ms, which has passed, and held by its event slot alone; the callback has missed it, no timer
      is set, no task is queued and nothing runs, so only the event itself, or user code, can wake
      the fiber. */
  lemma LimitLost(intended: bool)
    ensures var s := Lost0(intended);
            && Reachable(s) && s.failure.None?
            && s.fibers[0] == Fiber(HOLD, Woken(Io(0))) && s.calls[0].to == Some(7)
            && s.calls[0].missed && s.now >= s.calls[0].begin + 7
            && s.timers.timers == [] && s.queue == [] && s.running == map[] && s.table.slots == map[K := Fib(0)]
  {
    LostReachable(intended);
  }
}
