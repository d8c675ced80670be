/** The wait/wake protocol as a step system: blocking calls of fibers, the timer set, the table of
    registered events, the run queue and the workers. One step is one action of one thread:
      - taking a task and swapping its fiber in is one step; so is swapping out together with what
        the worker does about it;
      - an expiry and the scheduling of its callbacks is one step, as are one operation of the event
        table and one test for stopping;
      - a blocking call, and the callback of its timer, take a step for each thing they do to
        shared state. */
module Protocol {
  import opened Basics
  import opened Tasks
  import T = TimerSpec
  import S = SchedulerSpec
  import E = EventSpec

  /** What a blocked fiber waits for. */
  datatype Wait = Sleep(until: nat) | Io(call: nat)

  /** Where a fiber is. */
  datatype Point =
    | Body                                  // user code
    | Try(call: nat)                        // about to try the system call
    | Armed(call: nat)                      // EAGAIN: the timer is set, the event is not registered yet
    | Parked(wait: Wait)                    // armed for the wake-up, about to yield
    | Woken(wait: Wait)                     // yielded; goes on here
    | Judging(call: nat)                    // timer cancelled, about to look at `cancelled`
    | Resuming(fiber: FiberId)              // sleep's callback: about to schedule the fiber
    | Checking(call: nat, k: E.Key)         // timeout callback: about to test and set `cancelled`
    | Cancelling(call: nat, k: E.Key)       // timeout callback: about to cancel the event
    | Finished                              // callback at its end

  datatype Fiber = Fiber(state: FiberState, at: Point)

  /** A call of do_io (which retries) or connect_with_timeout (which does not). `alive`: it has not
      returned yet, so the timeout callback's weak pointer can be locked. `timedOut` and `missed`
      record what happened: it returned ETIMEDOUT; its timeout callback marked it and then did not
      find its fiber in the slot, or epoll_ctl failed. */
  datatype IoCall = IoCall(fiber: FiberId, k: E.Key, to: Option<nat>, begin: nat, retries: bool, timer: Option<nat>,
                           cancelled: bool, alive: bool, timedOut: bool, missed: bool)

  /** The assertions that can fail, each of which ends the process. */
  datatype Failure =
    | SwapIn | ResetState | EmptyTask             // the scheduler's own
    | AlreadyRegistered | NotRegistered           // of the event table

  /** `running` maps a thread to the fiber it has swapped in, `retained` to the fiber it keeps for
      callbacks; `addresses` bounds the timers created so far; `intended` selects the guard of
      delEvent and cancelEvent. */
  datatype Sys = Sys(
    now: nat, timers: T.State, addresses: nat,
    table: E.Table<FiberId>, queue: seq<Task<FiberId>>,
    running: map<nat, FiberId>, retained: map<nat, FiberId>, active: int,
    fibers: map<FiberId, Fiber>, calls: map<nat, IoCall>,
    autoStop: bool, stopping: bool, failure: Option<Failure>, intended: bool)

  datatype Action =
      // the clock, and code outside the library
    | Tick(ms: nat)
    | NewFiber(f: FiberId)
    | ScheduleFiber(f: FiberId, thread: int)
    | ScheduleCall(cb: nat, thread: int)
    | AddTimer(ms: nat, recurring: bool, user: Option<nat>)
    | CancelTimer(id: nat)
    | RefreshTimer(id: nat)
    | ResetTimer(id: nat, ms: nat, fromNow: bool)
    | AddCallback(k: E.Key, cb: nat, ok: bool)
    | DeleteEvent(k: E.Key, ok: bool)
    | CancelEvent(k: E.Key, ok: bool)
    | CancelAll(fd: nat, ok: bool)
    | Stop
      // idle threads
    | Expire
    | Deliver(fd: nat, reported: E.Mask, failed: bool, ok: bool)
      // workers
    | Dequeue(w: nat, spare: FiberId)
    | Leave(w: nat, exit: S.Exit)
      // blocking calls
    | GoToSleep(f: FiberId, ms: nat)
    | BeginIo(f: FiberId, c: nat, k: E.Key, to: Option<nat>, retries: bool)
    | Complete(f: FiberId)
    | Again(f: FiberId)
    | Register(f: FiberId, ok: bool)
    | Awake(f: FiberId)
    | Judge(f: FiberId)
      // the library's callbacks
    | RunResume(g: FiberId)
    | RunCheck(g: FiberId)
    | RunCancel(g: FiberId, ok: bool)

  function Executing(s: Sys): set<FiberId> {
    set f | f in s.fibers && s.fibers[f].state == EXEC
  }

  function Next(s: Sys, w: nat): nat {
    S.FirstFor(s.queue, w, Executing(s))
  }

  predicate At(s: Sys, f: FiberId, p: Point) {
    f in s.fibers && s.fibers[f] == Fiber(EXEC, p)
  }

  /** The fiber executes somewhere. */
  predicate Runs(s: Sys, f: FiberId) {
    f in s.fibers && s.fibers[f].state == EXEC
  }

  predicate Library(cb: Option<Callback>) {
    cb.Some? && !cb.value.User?
  }

  /** A timer that the code outside the library has made itself, or none. */
  predicate OwnTimer(s: Sys, id: nat) {
    forall i :: 0 <= i < |s.timers.timers| && s.timers.timers[i].id == id ==> !Library(s.timers.timers[i].cb)
  }

  predicate Leaves(at: Point, exit: S.Exit) {
    match at
    case Body => true
    case Parked(_) => exit == S.ToHold
    case Finished => exit == S.Return
    case _ => false
  }

  /** The executing fiber whose step it is. */
  function Mover(a: Action): Option<FiberId> {
    match a
    case GoToSleep(f, _) => Some(f)
    case BeginIo(f, _, _, _, _) => Some(f)
    case Complete(f) => Some(f)
    case Again(f) => Some(f)
    case Register(f, _) => Some(f)
    case Awake(f) => Some(f)
    case Judge(f) => Some(f)
    case RunResume(g) => Some(g)
    case RunCheck(g) => Some(g)
    case RunCancel(g, _) => Some(g)
    case _ => None
  }

  /** Fiber `f` executes and is where the action starts. */
  predicate FiberEnabled(s: Sys, f: FiberId, a: Action) {
    Runs(s, f) &&
    var at := s.fibers[f].at;
    match a
    case GoToSleep(_, _) => at == Body
    case BeginIo(_, c, _, _, _) => at == Body && c !in s.calls
    case Complete(_) => at.Try? && at.call in s.calls
    case Again(_) => at.Try? && at.call in s.calls
    case Register(_, _) => at.Armed? && at.call in s.calls
    case Awake(_) => at.Woken? && (at.wait.Io? ==> at.wait.call in s.calls)
    case Judge(_) => at.Judging? && at.call in s.calls
    case RunResume(_) => at.Resuming?
    case RunCheck(_) => at.Checking? && at.call in s.calls
    case RunCancel(_, ok) => at.Cancelling? && at.call in s.calls && E.Watching(s.table, at.k.0, ok)
    case _ => false
  }

  predicate OutsideEnabled(s: Sys, a: Action) {
    match a
    case NewFiber(f) => f !in s.fibers
    // neither queued nor waiting nor finished, and not a worker's own
    case ScheduleFiber(f, _) =>
      f in s.fibers && s.fibers[f].state in {INIT, HOLD} && s.fibers[f].at == Body && f !in s.retained.Values
      && forall i :: 0 <= i < |s.queue| ==> s.queue[i].work != Fib(f)
    case CancelTimer(id) => OwnTimer(s, id)
    case RefreshTimer(id) => OwnTimer(s, id)
    case ResetTimer(id, _, _) => OwnTimer(s, id)
    case DeleteEvent(k, ok) => (k in s.table.slots ==> s.table.slots[k].Call?) && E.Watching(s.table, k.0, ok)
    case CancelEvent(k, ok) => E.Watching(s.table, k.0, ok)
    case Dequeue(w, spare) => w !in s.running && Next(s, w) < |s.queue| && spare !in s.fibers
    case Leave(w, exit) => w in s.running && s.running[w] in s.fibers && Leaves(s.fibers[s.running[w]].at, exit)
    case _ => true
  }

  predicate Enabled(s: Sys, a: Action) {
    s.failure.None? && if Mover(a).Some? then FiberEnabled(s, Mover(a).value, a) else OutsideEnabled(s, a)
  }

  function Moved(s: Sys, f: FiberId, p: Point): Sys
    requires f in s.fibers
  {
    s.(fibers := s.fibers[f := Fiber(s.fibers[f].state, p)])
  }

  function Fail(s: Sys, why: Failure): Sys {
    s.(failure := Some(why))
  }

  /** The effect of an operation of the event table. */
  function Effect(s: Sys, r: E.Result<FiberId>, why: Failure): (s': Sys)
    ensures s' == s.(table := s'.table, queue := s'.queue, failure := if r.Abort? then Some(why) else s.failure)
    ensures s.queue <= s'.queue
  {
    match r
    case Abort => Fail(s, why)
    case Done(table, woken, _) => s.(table := table, queue := S.ScheduledAll(s.queue, woken))
  }

  function NewTimer(s: Sys, ms: nat, recurring: bool, cb: Option<Callback>): (s': Sys)
    ensures s' == s.(timers := s'.timers, addresses := s.addresses + 1)
  {
    s.(timers := T.AddEntry(s.timers, T.Entry(s.addresses, s.now + ms, ms, recurring, cb)).0,
    addresses := s.addresses + 1)
  }

  /** timer->cancel(), if there is a timer. */
  function Unset(s: Sys, timer: Option<nat>): (s': Sys)
    ensures s' == s.(timers := s'.timers)
  {
    if timer.Some? then s.(timers := T.Cancel(s.timers, timer.value)) else s
  }

  function Works(cbs: seq<Option<Callback>>): (r: seq<Work<FiberId>>)
    ensures |r| == |cbs|
    ensures forall i :: 0 <= i < |cbs| ==> r[i] == if cbs[i].Some? then Call(cbs[i].value) else Nothing
  {
    seq(|cbs|, i requires 0 <= i < |cbs| => if cbs[i].Some? then Call(cbs[i].value) else Nothing)
  }

  function Expired(s: Sys): (s': Sys)
    ensures s' == s.(timers := s'.timers, queue := s'.queue) && s.queue <= s'.queue
  {
    s.(timers := T.Expire(s.timers, s.now),
    queue := S.ScheduledAll(s.queue, Works(T.Callbacks(T.Due(s.timers, s.now)))))
  }

  /** What running a callback begins with. */
  function Entrance(cb: Callback): Point {
    match cb
    case Resume(f) => Resuming(f)
    case IoTimeout(c, fd, event) => Checking(c, (fd, event))
    case User(_) => Body
  }

  /** The fiber of task `k` is swapped in. */
  function FiberTaken(s: Sys, w: nat, k: nat, f: FiberId): Sys
    requires k < |s.queue| && f in s.fibers
  {
    s.(queue := S.Removed(s.queue, k), active := s.active + 1, running := s.running[w := f],
    fibers := s.fibers[f := s.fibers[f].(state := EXEC)])
  }

  /** Fiber `g` is swapped in to run the callback of task `k`. */
  function CallTaken(s: Sys, w: nat, k: nat, g: FiberId, cb: Callback): Sys
    requires k < |s.queue|
  {
    s.(queue := S.Removed(s.queue, k), active := s.active + 1, running := s.running[w := g],
    retained := s.retained[w := g], fibers := s.fibers[g := Fiber(EXEC, Entrance(cb))])
  }

  /** The fiber in which task `k` runs: a callback runs in the worker's retained fiber or in a new one. */
  function Runner(s: Sys, w: nat, k: nat, spare: FiberId): FiberId
    requires k < |s.queue|
  {
    if s.queue[k].work.Fib? then s.queue[k].work.fiber else if w in s.retained then s.retained[w] else spare
  }

  /** Task `k` is taken: its fiber is swapped in, a retained one after a reset. */
  function TakenAt(s: Sys, w: nat, k: nat, spare: FiberId): (s': Sys)
    requires k < |s.queue|
    ensures s' == s.(queue := s'.queue, active := s'.active, running := s'.running, retained := s'.retained,
                  fibers := s'.fibers, failure := s'.failure)
    ensures s'.failure.None? ==> s'.queue == S.Removed(s.queue, k)
  {
    var g := Runner(s, w, k, spare);
    match s.queue[k].work
    case Nothing => Fail(s, EmptyTask)
    case Fib(_) =>
      if g !in s.fibers || s.fibers[g].state == EXEC then Fail(s, SwapIn) else FiberTaken(s, w, k, g)
    case Call(cb) =>
      if g in s.fibers && s.fibers[g].state !in {INIT, TERM, EXCEPT} then Fail(s, ResetState)
      else CallTaken(s, w, k, g, cb)
  }

  /** The worker's turn: take the oldest task it may run. */
  function Taken(s: Sys, w: nat, spare: FiberId): Sys
    requires Next(s, w) < |s.queue|
  {
    TakenAt(s, w, Next(s, w), spare)
  }

  /** Task `k` is taken and nothing fails. */
  predicate Starts(s: Sys, w: nat, k: nat, spare: FiberId, s': Sys) {
    k < |s.queue| &&
    var g := Runner(s, w, k, spare);
    match s.queue[k].work
    case Nothing => false
    case Fib(_) => g in s.fibers && s' == FiberTaken(s, w, k, g)
    case Call(cb) => s' == CallTaken(s, w, k, g, cb)
  }

  lemma TakenStarts(s: Sys, w: nat, k: nat, spare: FiberId, s': Sys)
    requires k < |s.queue| && s' == TakenAt(s, w, k, spare) && s'.failure.None?
    ensures Starts(s, w, k, spare, s')
  {
  }

  lemma CallTakenAt(s: Sys, w: nat, k: nat, spare: FiberId, s': Sys)
    requires k < |s.queue| && s.queue[k].work.Call? && s' == TakenAt(s, w, k, spare)
    requires Runner(s, w, k, spare) in s.fibers ==> s.fibers[Runner(s, w, k, spare)].state == INIT
    ensures s' == CallTaken(s, w, k, Runner(s, w, k, spare), s.queue[k].work.cb)
  {
  }

  function After(at: Point): Point {
    if at.Parked? then Woken(at.wait) else at
  }

  /** The fiber of `w` swaps out and the worker looks at its state. */
  function Left(s: Sys, w: nat, exit: S.Exit): (s': Sys)
    requires w in s.running && s.running[w] in s.fibers
    ensures s' == s.(queue := s'.queue, active := s'.active, running := s'.running, retained := s'.retained,
                  fibers := s'.fibers)
  {
    var f := s.running[w];
    var own := w in s.retained && s.retained[w] == f;
    var done := exit in {S.Return, S.Throw};
    s.(running := s.running - {w},
    active := s.active - 1,
    queue := if exit == S.ToReady then S.Scheduled(s.queue, Fib(f), ANY) else s.queue,
    retained := if own && !done then s.retained - {w} else s.retained,
    fibers := s.fibers[f := if own && done then Fiber(INIT, Body)
    else Fiber(S.StateAfter(exit), After(s.fibers[f].at))])
  }

  // ---------- the steps of a blocking call ----------

  /** sleep: a timer whose callback schedules the fiber. */
  function Slept(s: Sys, f: FiberId, ms: nat): (s': Sys)
    requires f in s.fibers
    ensures s' == s.(fibers := s.fibers[f := Fiber(s.fibers[f].state, Parked(Sleep(s.now + ms)))], timers := s'.timers,
                  addresses := s.addresses + 1)
  {
    Moved(NewTimer(s, ms, false, Some(Resume(f))), f, Parked(Sleep(s.now + ms)))
  }

  /** A call begins. */
  function Begun(s: Sys, f: FiberId, c: nat, call: IoCall): (s': Sys)
    requires f in s.fibers
    ensures s' == s.(fibers := s.fibers[f := Fiber(s.fibers[f].state, Try(c))], calls := s.calls[c := call])
  {
    Moved(s, f, Try(c)).(calls := s.calls[c := call])
  }

  /** The call is over and the fiber is back in user code. */
  function Returned(s: Sys, f: FiberId, c: nat, timedOut: bool): (s': Sys)
    requires f in s.fibers && c in s.calls
    ensures s' == s.(fibers := s.fibers[f := Fiber(s.fibers[f].state, Body)], calls := s'.calls)
  {
    Moved(s, f, Body).(calls := s.calls[c := s.calls[c].(alive := false, timedOut := timedOut)])
  }

  /** EAGAIN or EINPROGRESS: a condition timer, if the call has a time limit. */
  function Rearmed(s: Sys, f: FiberId, c: nat): (s': Sys)
    requires f in s.fibers && c in s.calls
    ensures s' == s.(fibers := s.fibers[f := Fiber(s.fibers[f].state, Armed(c))], calls := s'.calls,
                  timers := s'.timers, addresses := s'.addresses)
  {
    var call := s.calls[c];
    if call.to.None? then Moved(s, f, Armed(c)).(calls := s.calls[c := call.(timer := None)])
    else Moved(NewTimer(s, call.to.value, false, Some(IoTimeout(c, call.k.0, call.k.1))), f, Armed(c))
         .(calls := s.calls[c := call.(timer := Some(s.addresses))])
  }

  /** addEvent with the fiber itself to wake; when it fails the call returns. */
  function Registered(s: Sys, f: FiberId, c: nat, ok: bool): (s': Sys)
    requires f in s.fibers && c in s.calls
    ensures f in s'.fibers
    ensures s' == s.(fibers := s.fibers[f := Fiber(s.fibers[f].state, s'.fibers[f].at)], calls := s'.calls,
                  timers := s'.timers, table := s'.table, failure := s'.failure)
  {
    var r := E.Add(s.table, s.calls[c].k, Fib(f), ok);
    if r.Abort? then Moved(Fail(s, AlreadyRegistered), f, Armed(c))
    else if r.value then Moved(s.(table := r.table), f, Parked(Io(c)))
    else Returned(Unset(s, s.calls[c].timer), f, c, false)
  }

  /** After the yield: sleep returns, a call cancels its timer. */
  function Continued(s: Sys, f: FiberId, wait: Wait): (s': Sys)
    requires f in s.fibers && (wait.Io? ==> wait.call in s.calls)
    ensures s' == s.(fibers := s.fibers[f := Fiber(s.fibers[f].state, if wait.Io? then Judging(wait.call) else Body)],
                  timers := s'.timers)
  {
    match wait
    case Sleep(_) => Moved(s, f, Body)
    case Io(c) => Moved(Unset(s, s.calls[c].timer), f, Judging(c))
  }

  /** Timed out, or once more, or (connect) over. */
  function Judged(s: Sys, f: FiberId, c: nat): (s': Sys)
    requires f in s.fibers && c in s.calls
    ensures f in s'.fibers
    ensures s' == s.(fibers := s.fibers[f := Fiber(s.fibers[f].state, s'.fibers[f].at)], calls := s'.calls)
  {
    if !s.calls[c].cancelled && s.calls[c].retries then Moved(s, f, Try(c))
    else Returned(s, f, c, s.calls[c].cancelled)
  }

  /** The timeout callback: nothing if the call has returned or is cancelled already. */
  function Checked(s: Sys, g: FiberId, c: nat, k: E.Key): (s': Sys)
    requires g in s.fibers && c in s.calls
    ensures g in s'.fibers
    ensures s' == s.(fibers := s.fibers[g := Fiber(s.fibers[g].state, s'.fibers[g].at)], calls := s'.calls)
  {
    if !s.calls[c].alive || s.calls[c].cancelled then Moved(s, g, Finished)
    else Moved(s, g, Cancelling(c, k)).(calls := s.calls[c := s.calls[c].(cancelled := true)])
  }

  /** Cancelling wakes the fiber of the call: it is in the slot, and epoll_ctl succeeds. */
  predicate Reaches(s: Sys, c: nat, k: E.Key, ok: bool)
    requires c in s.calls
  {
    ok && k in s.table.slots && s.table.slots[k] == Fib(s.calls[c].fiber)
  }

  /** The callback moves on, and it is noted whether it misses a call that has not returned. */
  function Noted(s: Sys, g: FiberId, c: nat, k: E.Key, ok: bool): (s': Sys)
    requires g in s.fibers && c in s.calls
    ensures s' == s.(fibers := s.fibers[g := Fiber(s.fibers[g].state, Finished)], calls := s'.calls)
  {
    var missed := s.calls[c].missed || (s.calls[c].alive && !Reaches(s, c, k, ok));
    Moved(s, g, Finished).(calls := s.calls[c := s.calls[c].(missed := missed)])
  }

  /** The timeout callback cancels the event, whoever waits for it. */
  function Cancelled(s: Sys, g: FiberId, c: nat, k: E.Key, ok: bool): (s': Sys)
    requires g in s.fibers && c in s.calls
    ensures s' == Noted(s, g, c, k, ok).(table := s'.table, queue := s'.queue, failure := s'.failure)
    ensures s.queue <= s'.queue
  {
    Effect(Noted(s, g, c, k, ok), E.Cancel(s.table, k, ok, s.intended), NotRegistered)
  }

  /** The actions of the library's callbacks. */
  predicate Job(a: Action) {
    a.RunResume? || a.RunCheck? || a.RunCancel?
  }

  function CallStep(s: Sys, f: FiberId, a: Action): (s': Sys)
    requires FiberEnabled(s, f, a) && !Job(a)
    ensures f in s'.fibers && s'.fibers == s.fibers[f := Fiber(EXEC, s'.fibers[f].at)]
    ensures s' == s.(fibers := s'.fibers, calls := s'.calls, timers := s'.timers, addresses := s'.addresses,
                  table := s'.table, failure := s'.failure)
  {
    match a
    case GoToSleep(_, ms) => Slept(s, f, ms)
    case BeginIo(_, c, k, to, retries) =>
      Begun(s, f, c, IoCall(f, k, to, s.now, retries, None, false, true, false, false))
    case Complete(_) => Returned(s, f, s.fibers[f].at.call, false)
    case Again(_) => Rearmed(s, f, s.fibers[f].at.call)
    case Register(_, ok) => Registered(s, f, s.fibers[f].at.call, ok)
    case Awake(_) => Continued(s, f, s.fibers[f].at.wait)
    case Judge(_) => Judged(s, f, s.fibers[f].at.call)
  }

  function JobStep(s: Sys, f: FiberId, a: Action): (s': Sys)
    requires FiberEnabled(s, f, a) && Job(a)
    ensures f in s'.fibers && s'.fibers == s.fibers[f := Fiber(EXEC, s'.fibers[f].at)]
    ensures s' ==
            s.(fibers := s'.fibers, calls := s'.calls, table := s'.table, queue := s'.queue, failure := s'.failure)
    ensures s.queue <= s'.queue
  {
    match a
    case RunResume(_) => Moved(s, f, Finished).(queue := S.Scheduled(s.queue, Fib(s.fibers[f].at.fiber), ANY))
    case RunCheck(_) => Checked(s, f, s.fibers[f].at.call, s.fibers[f].at.k)
    case RunCancel(_, ok) => Cancelled(s, f, s.fibers[f].at.call, s.fibers[f].at.k, ok)
  }

  /** A step of the fiber `f`: it executes on and is somewhere else afterwards. */
  function FiberStep(s: Sys, f: FiberId, a: Action): (s': Sys)
    requires FiberEnabled(s, f, a)
    ensures f in s'.fibers && s'.fibers == s.fibers[f := Fiber(EXEC, s'.fibers[f].at)]
    ensures s' == s.(fibers := s'.fibers, calls := s'.calls, timers := s'.timers, addresses := s'.addresses,
                  table := s'.table, queue := s'.queue, failure := s'.failure)
    ensures s.queue <= s'.queue
  {
    if Job(a) then JobStep(s, f, a) else CallStep(s, f, a)
  }

  /** A step of code outside the library or of an idle thread. */
  function OutsideStep(s: Sys, a: Action): (s': Sys)
    requires OutsideEnabled(s, a) && Mover(a).None? && !a.Dequeue? && !a.Leave?
    ensures s'.fibers == if a.NewFiber? then s.fibers[a.f := Fiber(INIT, Body)] else s.fibers
    ensures s' == s.(fibers := s'.fibers, now := s'.now, timers := s'.timers, addresses := s'.addresses,
                  table := s'.table, queue := s'.queue, autoStop := s'.autoStop, stopping := s'.stopping,
                  failure := s'.failure)
    ensures s.queue <= s'.queue
  {
    match a
    case Tick(ms) => s.(now := s.now + ms)
    case NewFiber(f) => s.(fibers := s.fibers[f := Fiber(INIT, Body)])
    case ScheduleFiber(f, thread) => s.(queue := S.Scheduled(s.queue, Fib(f), thread))
    case ScheduleCall(cb, thread) => s.(queue := S.Scheduled(s.queue, Call(User(cb)), thread))
    case AddTimer(ms, recurring, user) =>
      NewTimer(s, ms, recurring, if user.Some? then Some(User(user.value)) else None)
    case CancelTimer(id) => s.(timers := T.Cancel(s.timers, id))
    case RefreshTimer(id) => s.(timers := T.Refresh(s.timers, id, s.now))
    case ResetTimer(id, ms, fromNow) => s.(timers := T.Reset(s.timers, id, ms, fromNow, s.now).0)
    case AddCallback(k, cb, ok) => Effect(s, E.Add(s.table, k, Call(User(cb)), ok), AlreadyRegistered)
    case DeleteEvent(k, ok) => Effect(s, E.Delete(s.table, k, ok, s.intended), NotRegistered)
    case CancelEvent(k, ok) => Effect(s, E.Cancel(s.table, k, ok, s.intended), NotRegistered)
    case CancelAll(fd, ok) => Effect(s, E.CancelAll(s.table, fd, ok), NotRegistered)
    case Stop => s.(autoStop := true, stopping := true)
    case Expire => Expired(s)
    case Deliver(fd, reported, failed, ok) => Effect(s, E.Deliver(s.table, fd, reported, failed, ok), NotRegistered)
  }

  function Step(s: Sys, a: Action): Sys
    requires Enabled(s, a)
  {
    if a.Dequeue? then Taken(s, a.w, a.spare)
    else if a.Leave? then Left(s, a.w, a.exit)
    else if Mover(a).Some? then FiberStep(s, Mover(a).value, a)
    else OutsideStep(s, a)
  }

  /** IOManager::stopping: no timer, no registered event, and the scheduler's own conditions. */
  predicate Stopping(s: Sys) {
    && T.NextTimeout(s.timers.timers, s.now).None?
    && s.table.pending == 0
    && s.autoStop && s.stopping && s.queue == [] && s.active == 0
  }

  predicate Initial(s: Sys) {
    && s.timers == T.State([], false, s.now) && s.table == E.Table(map[], 0) && s.queue == []
    && s.running == map[] && s.retained == map[] && s.active == 0 && s.fibers == map[] && s.calls == map[]
    && !s.autoStop && s.failure.None?
  }
}
