/** Runs in which a race goes wrong: a timeout callback that is late, one that epoll_ctl stops, and a
    delete of an event that is not registered. */
module Races {
  import opened Basics
  import opened Tasks
  import S = SchedulerSpec
  import E = EventSpec
  import T = TimerSpec
  import opened Protocol
  import opened Tokens
  import opened Runs
  import opened LostTimeout

  const HELD: E.Table<FiberId> := E.Table(map[K := Fib(0)], 1)
  const EMPTIED: E.Table<FiberId> := E.Table(map[], 0)

  // ---------- fiber 0 waits in call 0 and thread 1 runs its timeout callback ----------

  lemma ParkedReachable(intended: bool)
    ensures Reachable(Armed0(intended).(table := HELD, fibers := map[0 := Fiber(EXEC, Parked(Io(0)))]))
  {
    ArmedReachable(intended);
    var s, s' := Armed0(intended), Armed0(intended).(table := HELD, fibers := map[0 := Fiber(EXEC, Parked(Io(0)))]);
    RegisterOn(s, 0, 0, s');
  }

  /** Nothing runs; fiber 0 waits in its call. */
  function Waiting0(intended: bool, now: nat, timers: T.State, queue: Queue): Sys {
    New(intended).(now := now, timers := timers, addresses := 1, queue := queue, table := HELD,
    fibers := map[0 := Fiber(HOLD, Woken(Io(0)))], calls := map[0 := Call0(Some(0), false, false)])
  }

  lemma WaitingReachable(intended: bool)
    ensures Reachable(Waiting0(intended, 0, T.State([Entry()], true, 0), []))
  {
    ParkedReachable(intended);
    var s := Armed0(intended).(table := HELD, fibers := map[0 := Fiber(EXEC, Parked(Io(0)))]);
    OneLeft(0, 0, 1, 7);
    HoldOn(s, 0, 0, Io(0), Waiting0(intended, 0, T.State([Entry()], true, 0), []));
  }

  lemma LateWaiting(intended: bool)
    ensures Reachable(Waiting0(intended, 7, T.State([Entry()], true, 0), []))
  {
    WaitingReachable(intended);
    var s := Waiting0(intended, 0, T.State([Entry()], true, 0), []);
    var s' := Waiting0(intended, 7, T.State([Entry()], true, 0), []);
    TickOn(s, 7, s');
  }

  lemma QueuedWaiting(intended: bool)
    ensures Reachable(Waiting0(intended, 7, T.State([], true, 7), [Task(Call(TIMEOUT), ANY)]))
  {
    LateWaiting(intended);
    ExpiryOfOne();
    var s := Waiting0(intended, 7, T.State([Entry()], true, 0), []);
    var s' := Waiting0(intended, 7, T.State([], true, 7), [Task(Call(TIMEOUT), ANY)]);
    ExpireOn(s, s');
  }

  /** Thread 1 runs the timeout callback in fiber 7, which is at `p`; fiber 0 waits. */
  function Late0(intended: bool, p: Point, call: IoCall, table: E.Table<FiberId>, queue: Queue): Sys {
    New(intended).(now := 7, timers := T.State([], true, 7), addresses := 1, queue := queue, table := table,
    running := map[1 := 7], retained := map[1 := 7], active := 1,
    fibers := map[0 := Fiber(HOLD, Woken(Io(0))), 7 := Fiber(EXEC, p)], calls := map[0 := call])
  }

  lemma LateChecking(intended: bool)
    ensures Reachable(Late0(intended, Checking(0, K), Call0(Some(0), false, false), HELD, []))
  {
    QueuedWaiting(intended);
    var s := Waiting0(intended, 7, T.State([], true, 7), [Task(Call(TIMEOUT), ANY)]);
    CallbackOn(s, 1, TIMEOUT, 7, Late0(intended, Checking(0, K), Call0(Some(0), false, false), HELD, []));
  }

  lemma LateCancelling(intended: bool)
    ensures Reachable(Late0(intended, Cancelling(0, K), Call0(Some(0), true, false), HELD, []))
  {
    LateChecking(intended);
    OneCall(Call0(Some(0), false, false), Call0(Some(0), true, false));
    TwoFibers(Fiber(HOLD, Woken(Io(0))), Fiber(EXEC, Checking(0, K)), Fiber(EXEC, Cancelling(0, K)));
    var s := Late0(intended, Checking(0, K), Call0(Some(0), false, false), HELD, []);
    var s' := Late0(intended, Cancelling(0, K), Call0(Some(0), true, false), HELD, []);
    CheckOn(s, 7, 0, K, s');
  }

  /** epoll_ctl fails when the callback cancels the event: the limit is lost although the fiber had
      registered and yielded before it passed. */
  lemma CancelStopped(intended: bool)
    ensures var s := Late0(intended, Finished, Call0(Some(0), true, true), HELD, []);
            && Reachable(s) && s.fibers[0] == Fiber(HOLD, Woken(Io(0))) && s.calls[0].missed
            && s.table.slots == map[K := Fib(0)] && s.timers.timers == [] && s.queue == []
  {
    LateCancelling(intended);
    OneCall(Call0(Some(0), true, false), Call0(Some(0), true, true));
    TwoFibers(Fiber(HOLD, Woken(Io(0))), Fiber(EXEC, Cancelling(0, K)), Fiber(EXEC, Finished));
    var s := Late0(intended, Cancelling(0, K), Call0(Some(0), true, false), HELD, []);
    var s' := Late0(intended, Finished, Call0(Some(0), true, true), HELD, []);
    CancelOn(s, 7, 0, K, s');
  }

  // ---------- the event fires first, and the callback is late ----------

  lemma FiredReachable(intended: bool)
    ensures Reachable(Late0(intended, Cancelling(0, K), Call0(Some(0), true, false), EMPTIED, [Task(Fib(0), ANY)]))
  {
    LateCancelling(intended);
    var s := Late0(intended, Cancelling(0, K), Call0(Some(0), true, false), HELD, []);
    var works: seq<Work<FiberId>> := [Fib(0)];
    assert works[1..] == [] && s.table.slots - {K} == map[];
    assert works + [] == works;
    assert S.ScheduledAll<FiberId>([], works) == [Task(Fib(0), ANY)];
    var s' := Late0(intended, Cancelling(0, K), Call0(Some(0), true, false), EMPTIED, [Task(Fib(0), ANY)]);
    ReachableOn(s, Deliver(5, E.Mask(true, false), false, true), s');
  }

  /** Thread 0 runs fiber 0, which is at `p`; thread 1 is about to cancel the event of call 0. */
  function Both(intended: bool, p: Point, calls: map<nat, IoCall>, table: E.Table<FiberId>): Sys {
    New(intended).(now := 7, timers := T.State([], true, 7), addresses := 1, table := table,
    running := map[1 := 7, 0 := 0], retained := map[1 := 7], active := 2,
    fibers := map[0 := Fiber(EXEC, p), 7 := Fiber(EXEC, Cancelling(0, K))], calls := calls)
  }

  lemma WokenReachable(intended: bool)
    ensures Reachable(Both(intended, Woken(Io(0)), map[0 := Call0(Some(0), true, false)], EMPTIED))
  {
    FiredReachable(intended);
    var s := Late0(intended, Cancelling(0, K), Call0(Some(0), true, false), EMPTIED, [Task(Fib(0), ANY)]);
    FiberOn(s, 0, 0, 8, Both(intended, Woken(Io(0)), map[0 := Call0(Some(0), true, false)], EMPTIED));
  }

  /** Beside that, thread 2 runs fiber 2, which is at `p`; call 0 has not returned yet. */
  function Three(intended: bool, p: Point, calls: map<nat, IoCall>, table: E.Table<FiberId>): Sys {
    Both(intended, Woken(Io(0)), calls, table).(
    running := map[1 := 7, 0 := 0, 2 := 2], active := 3,
    fibers := map[0 := Fiber(EXEC, Woken(Io(0))), 7 := Fiber(EXEC, Cancelling(0, K)), 2 := Fiber(EXEC, p)])
  }

  /** Fiber 2 is new; `queue` is the queue. */
  function Second(intended: bool, queue: Queue): Sys {
    Both(intended, Woken(Io(0)), map[0 := Call0(Some(0), true, false)], EMPTIED).(
    queue := queue,
    fibers := map[0 := Fiber(EXEC, Woken(Io(0))), 7 := Fiber(EXEC, Cancelling(0, K)), 2 := Fiber(INIT, Body)])
  }

  lemma SecondCreated(intended: bool)
    ensures Reachable(Second(intended, []))
  {
    WokenReachable(intended);
    var s, s' := Both(intended, Woken(Io(0)), map[0 := Call0(Some(0), true, false)], EMPTIED), Second(intended, []);
    CreateOn(s, 2, s');
  }

  lemma SecondScheduled(intended: bool)
    ensures Reachable(Second(intended, [Task(Fib(2), ANY)]))
  {
    SecondCreated(intended);
    ScheduleOn(Second(intended, []), 2, Second(intended, [Task(Fib(2), ANY)]));
  }

  lemma ThreeRunning(intended: bool)
    ensures Reachable(Three(intended, Body, map[0 := Call0(Some(0), true, false)], EMPTIED))
  {
    SecondScheduled(intended);
    var s := Second(intended, [Task(Fib(2), ANY)]);
    FiberOn(s, 2, 2, 9, Three(intended, Body, map[0 := Call0(Some(0), true, false)], EMPTIED));
  }

  /** Call 1 of fiber 2 is a connect without a time limit. */
  function Call2(): IoCall {
    IoCall(2, K, None, 7, false, None, false, true, false, false)
  }

  function Calls2(): map<nat, IoCall> {
    map[0 := Call0(Some(0), true, false), 1 := Call2()]
  }

  lemma ThreeTrying(intended: bool)
    ensures Reachable(Three(intended, Try(1), Calls2(), EMPTIED))
  {
    ThreeRunning(intended);
    var s := Three(intended, Body, map[0 := Call0(Some(0), true, false)], EMPTIED);
    var s' := Three(intended, Try(1), Calls2(), EMPTIED);
    BeginOn(s, 2, 1, s'.calls[1], s');
  }

  lemma ThreeArmed(intended: bool)
    ensures Reachable(Three(intended, Armed(1), Calls2(), EMPTIED))
  {
    ThreeTrying(intended);
    AgainOn(Three(intended, Try(1), Calls2(), EMPTIED), 2, 1, Three(intended, Armed(1), Calls2(), EMPTIED));
  }

  const HELD2: E.Table<FiberId> := E.Table(map[K := Fib(2)], 1)

  lemma ThreeParked(intended: bool)
    ensures Reachable(Three(intended, Parked(Io(1)), Calls2(), HELD2))
  {
    ThreeArmed(intended);
    var s, s' := Three(intended, Armed(1), Calls2(), EMPTIED), Three(intended, Parked(Io(1)), Calls2(), HELD2);
    RegisterOn(s, 2, 1, s');
  }

  /** A callback that cancels the one event there is wakes the fiber in its slot. */
  lemma CancelWakes(s: Sys, g: FiberId, c: nat, f: FiberId)
    requires s.failure.None? && At(s, g, Cancelling(c, K)) && c in s.calls
    requires s.table == E.Table(map[K := Fib(f)], 1) && s.queue == []
    ensures Enabled(s, RunCancel(g, true))
    ensures Step(s, RunCancel(g, true)).table == EMPTIED && Step(s, RunCancel(g, true)).queue == [Task(Fib(f), ANY)]
  {
    var works: seq<Work<FiberId>> := [Fib(f)];
    assert works[1..] == [] && s.table.slots - {K} == map[];
    assert S.ScheduledAll<FiberId>([], works) == [Task(Fib(f), ANY)];
  }

  /** The callback need not even be late: in this reachable state call 0 has not returned, its event
      has fired and its fiber runs again, and its callback is about to cancel the event, for which
      fiber 2 is parked in a connect without a time limit; the cancel wakes that fiber. */
  lemma ForeignCancel(intended: bool)
    ensures var s := Three(intended, Parked(Io(1)), Calls2(), HELD2);
            && Reachable(s) && s.calls[0].alive && At(s, 0, Woken(Io(0))) && At(s, 7, Cancelling(0, K))
            && s.calls[1].to.None? && At(s, 2, Parked(Io(1))) && Enabled(s, RunCancel(7, true))
            && Step(s, RunCancel(7, true)).table == EMPTIED
            && Step(s, RunCancel(7, true)).queue == [Task(Fib(2), ANY)]
  {
    ThreeParked(intended);
    var s := Three(intended, Parked(Io(1)), Calls2(), HELD2);
    CancelWakes(s, 7, 0, 2);
  }

  lemma JudgingReachable(intended: bool)
    ensures Reachable(Both(intended, Judging(0), map[0 := Call0(Some(0), true, false)], EMPTIED))
  {
    WokenReachable(intended);
    var s := Both(intended, Woken(Io(0)), map[0 := Call0(Some(0), true, false)], EMPTIED);
    var s' := Both(intended, Judging(0), map[0 := Call0(Some(0), true, false)], EMPTIED);
    AwakeOn(s, 0, 0, s');
  }

  /** Call 0 has returned ETIMEDOUT. */
  function Dead0(): IoCall {
    Call0(Some(0), true, false).(alive := false, timedOut := true)
  }

  /** Call 1 is a connect without a time limit. */
  function Call1(): IoCall {
    IoCall(0, K, None, 7, false, None, false, true, false, false)
  }

  lemma DeadReachable(intended: bool)
    ensures Reachable(Both(intended, Body, map[0 := Dead0()], EMPTIED))
  {
    JudgingReachable(intended);
    var s := Both(intended, Judging(0), map[0 := Call0(Some(0), true, false)], EMPTIED);
    var s' := Both(intended, Body, map[0 := Dead0()], EMPTIED);
    JudgeOn(s, 0, 0, s');
  }

  lemma SecondTrying(intended: bool)
    ensures Reachable(Both(intended, Try(1), map[0 := Dead0(), 1 := Call1()], EMPTIED))
  {
    DeadReachable(intended);
    var s := Both(intended, Body, map[0 := Dead0()], EMPTIED);
    var s' := Both(intended, Try(1), map[0 := Dead0(), 1 := Call1()], EMPTIED);
    BeginOn(s, 0, 1, s'.calls[1], s');
  }

  lemma SecondArmed(intended: bool)
    ensures Reachable(Both(intended, Armed(1), map[0 := Dead0(), 1 := Call1()], EMPTIED))
  {
    SecondTrying(intended);
    var s := Both(intended, Try(1), map[0 := Dead0(), 1 := Call1()], EMPTIED);
    var s' := Both(intended, Armed(1), map[0 := Dead0(), 1 := Call1()], EMPTIED);
    AgainOn(s, 0, 1, s');
  }

  lemma SecondParked(intended: bool)
    ensures Reachable(Both(intended, Parked(Io(1)), map[0 := Dead0(), 1 := Call1()], HELD))
  {
    SecondArmed(intended);
    var s := Both(intended, Armed(1), map[0 := Dead0(), 1 := Call1()], EMPTIED);
    var s' := Both(intended, Parked(Io(1)), map[0 := Dead0(), 1 := Call1()], HELD);
    RegisterOn(s, 0, 1, s');
  }

  /** A callback that is late cancels the event of another call: in this reachable state call 0 has
      returned, its callback is about to cancel the event, and fiber 0 is parked for it in call 1, a
      connect without a time limit; the cancel takes the event and wakes the fiber, whose connect
      goes on although nothing has happened to it. */
  lemma StaleCancel(intended: bool)
    ensures var s := Both(intended, Parked(Io(1)), map[0 := Dead0(), 1 := Call1()], HELD);
            && Reachable(s) && !s.calls[0].alive && s.calls[1].alive && s.calls[1].to.None?
            && At(s, 7, Cancelling(0, K)) && At(s, 0, Parked(Io(1)))
            && Enabled(s, RunCancel(7, true))
            && Step(s, RunCancel(7, true)).table == EMPTIED && Step(s, RunCancel(7, true)).queue == [Task(Fib(0), ANY)]
  {
    SecondParked(intended);
    var s := Both(intended, Parked(Io(1)), map[0 := Dead0(), 1 := Call1()], HELD);
    CancelWakes(s, 7, 0, 0);
  }

  // ---------- a delete of an unregistered event ----------

  /** The call of fiber 0, without a time limit. */
  function Endless(): IoCall {
    IoCall(0, K, None, 0, true, None, false, true, false, false)
  }

  function Calling(p: Point, table: E.Table<FiberId>): Sys {
    Running0(false, p).(calls := map[0 := Endless()], table := table)
  }

  lemma CallingReachable()
    ensures Reachable(Calling(Try(0), EMPTIED))
  {
    RunningReachable(false);
    BeginOn(Running0(false, Body), 0, 0, Calling(Try(0), EMPTIED).calls[0], Calling(Try(0), EMPTIED));
  }

  lemma CallingArmed()
    ensures Reachable(Calling(Armed(0), EMPTIED))
  {
    CallingReachable();
    AgainOn(Calling(Try(0), EMPTIED), 0, 0, Calling(Armed(0), EMPTIED));
  }

  lemma CallingParked()
    ensures Reachable(Calling(Parked(Io(0)), HELD))
  {
    CallingArmed();
    RegisterOn(Calling(Armed(0), EMPTIED), 0, 0, Calling(Parked(Io(0)), HELD));
  }

  /** Nothing runs, and fiber 0 waits in its call. */
  function Deaf(pending: int, stop: bool): Sys {
    New(false).(calls := map[0 := Endless()], fibers := map[0 := Fiber(HOLD, Woken(Io(0)))],
    table := E.Table(map[K := Fib(0)], pending), autoStop := stop, stopping := stop)
  }

  lemma DeafReachable()
    ensures Reachable(Deaf(1, false))
  {
    CallingParked();
    var s := Calling(Parked(Io(0)), HELD);
    OneLeft(0, 0, 1, 7);
    HoldOn(s, 0, 0, Io(0), Deaf(1, false));
  }

  lemma ShortReachable()
    ensures Reachable(Deaf(0, false))
  {
    DeafReachable();
    var s := Deaf(1, false);
    assert s.table.slots - {(5, WRITE)} == s.table.slots;
    ReachableOn(s, DeleteEvent((5, WRITE), true), Deaf(0, false));
  }

  /** After the delete of an event that is not registered stopping() can be true while a fiber waits. */
  lemma StopsTooSoon()
    ensures Reachable(Deaf(0, true)) && Stopping(Deaf(0, true)) && Waiting(Deaf(0, true).fibers[0])
  {
    ShortReachable();
    ReachableOn(Deaf(0, false), Stop, Deaf(0, true));
  }
}
