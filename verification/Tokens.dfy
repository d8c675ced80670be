/** The wake-up token: every fiber that is to run again without further ado from user code is held
    by exactly one event slot, timer, wake callback or run-queue entry. */
module Tokens {
  import opened Basics
  import opened Tasks
  import S = SchedulerSpec
  import E = EventSpec
  import T = TimerSpec
  import opened Protocol
  import W = Workers

  type Queue = seq<Task<FiberId>>

  // ---------- counting ----------

  function One(b: bool): nat {
    if b then 1 else 0
  }

  /** How many tasks of the queue carry `w`. */
  function Count(q: Queue, w: Work<FiberId>): nat {
    if q == [] then 0 else One(q[0].work == w) + Count(q[1..], w)
  }

  /** How many timers carry `cb`. */
  function TimerCount(ts: seq<T.Entry>, cb: Callback): nat {
    if ts == [] then 0 else One(ts[0].cb == Some(cb)) + TimerCount(ts[1..], cb)
  }

  /** The fibers at point `p`. */
  function Standing(fibers: map<FiberId, Fiber>, p: Point): set<FiberId> {
    set g | g in fibers && fibers[g].at == p
  }

  lemma {:induction false} CountConcat(p: Queue, q: Queue, w: Work<FiberId>)
    ensures Count(p + q, w) == Count(p, w) + Count(q, w)
  {
    if p == [] {
      assert p + q == q;
    } else {
      assert (p + q)[0] == p[0] && (p + q)[1..] == p[1..] + q;
      CountConcat(p[1..], q, w);
    }
  }

  lemma {:induction false} CountNone(q: Queue, w: Work<FiberId>)
    ensures Count(q, w) == 0 <==> forall i :: 0 <= i < |q| ==> q[i].work != w
  {
    if q != [] {
      CountNone(q[1..], w);
      assert forall i :: 0 < i < |q| ==> q[i] == q[1..][i - 1];
    }
  }

  lemma CountScheduled(q: Queue, work: Work<FiberId>, thread: int, w: Work<FiberId>)
    requires !w.Nothing?
    ensures Count(S.Scheduled(q, work, thread), w) == Count(q, w) + One(work == w)
  {
    CountConcat(q, [Task(work, thread)], w);
    assert Count([Task(work, thread)], w) == One(work == w);
  }

  lemma {:induction false} CountScheduledAll(q: Queue, works: seq<Work<FiberId>>, w: Work<FiberId>)
    requires !w.Nothing?
    ensures Count(S.ScheduledAll(q, works), w) == Count(q, w) + multiset(works)[w]
    decreases |works|
  {
    if works != [] {
      CountScheduled(q, works[0], ANY, w);
      CountScheduledAll(S.Scheduled(q, works[0], ANY), works[1..], w);
      assert works == [works[0]] + works[1..];
    }
  }

  lemma CountRemoved(q: Queue, k: nat, w: Work<FiberId>)
    requires k < |q|
    ensures Count(q, w) == Count(S.Removed(q, k), w) + One(q[k].work == w)
  {
    CountConcat(q[..k], q[k + 1..], w);
    CountConcat(q[..k], q[k..], w);
    assert q == q[..k] + q[k..];
    assert q[k..][0] == q[k] && q[k..][1..] == q[k + 1..];
  }

  lemma {:induction false} TimerConcat(a: seq<T.Entry>, b: seq<T.Entry>, cb: Callback)
    ensures TimerCount(a + b, cb) == TimerCount(a, cb) + TimerCount(b, cb)
  {
    if a == [] {
      assert a + b == b;
    } else {
      assert (a + b)[0] == a[0] && (a + b)[1..] == a[1..] + b;
      TimerConcat(a[1..], b, cb);
    }
  }

  lemma TimerInsert(ts: seq<T.Entry>, e: T.Entry, cb: Callback)
    ensures TimerCount(T.Insert(ts, e), cb) == TimerCount(ts, cb) + One(e.cb == Some(cb))
  {
    var k := T.Rank(ts, e);
    TimerConcat(ts[..k], ts[k..], cb);
    TimerConcat(ts[..k] + [e], ts[k..], cb);
    TimerConcat(ts[..k], [e], cb);
    assert ts == ts[..k] + ts[k..];
    assert TimerCount([e], cb) == One(e.cb == Some(cb));
  }

  lemma TimerWithout(ts: seq<T.Entry>, id: nat, cb: Callback)
    ensures var k := T.IndexOf(ts, id);
            TimerCount(ts, cb) == TimerCount(T.Without(ts, id), cb) + One(k < |ts| && ts[k].cb == Some(cb))
  {
    var k := T.IndexOf(ts, id);
    if k < |ts| {
      TimerConcat(ts[..k], ts[k..], cb);
      TimerConcat(ts[..k], ts[k + 1..], cb);
      assert ts == ts[..k] + ts[k..];
      assert ts[k..][0] == ts[k] && ts[k..][1..] == ts[k + 1..];
    }
  }

  /** Callbacks of timers that do not recur do not come back. */
  lemma {:induction false} TimerReinsert(ts: seq<T.Entry>, due: seq<T.Entry>, now: nat, cb: Callback)
    requires forall i :: 0 <= i < |due| && due[i].cb == Some(cb) ==> !due[i].recurring
    ensures TimerCount(T.Reinsert(ts, due, now), cb) == TimerCount(ts, cb)
    decreases |due|
  {
    if due != [] {
      assert forall i :: 0 <= i < |due[1..]| ==> due[1..][i] == due[i + 1];
      if due[0].recurring {
        TimerInsert(ts, T.Again(due[0], now), cb);
        TimerReinsert(T.Insert(ts, T.Again(due[0], now)), due[1..], now, cb);
      } else {
        TimerReinsert(ts, due[1..], now, cb);
      }
    }
  }

  lemma {:induction false} TimerWorks(due: seq<T.Entry>, cb: Callback)
    ensures multiset(Works(T.Callbacks(due)))[Call(cb)] == TimerCount(due, cb)
  {
    if due != [] {
      TimerWorks(due[1..], cb);
      assert Works(T.Callbacks(due)) == Works(T.Callbacks([due[0]])) + Works(T.Callbacks(due[1..]));
    }
  }

  lemma TimerExpire(s: T.State, now: nat, cb: Callback)
    requires forall e :: e in s.timers && e.cb == Some(cb) ==> !e.recurring
    ensures TimerCount(s.timers, cb)
         == TimerCount(T.Expire(s, now).timers, cb) + multiset(Works(T.Callbacks(T.Due(s, now))))[Call(cb)]
  {
    var due := T.Due(s, now);
    TimerWorks(due, cb);
    TimerReinsert(s.timers[|due|..], due, now, cb);
    TimerConcat(due, s.timers[|due|..], cb);
    assert due == s.timers[..|due|] && s.timers == due + s.timers[|due|..];
  }

  lemma StandingWithout(fibers: map<FiberId, Fiber>, g: FiberId, p: Point)
    requires g in fibers
    ensures |Standing(fibers, p)| == |Standing(fibers - {g}, p)| + One(fibers[g].at == p)
  {
    assert Standing(fibers - {g}, p) == Standing(fibers, p) - {g};
  }

  lemma StandingMove(fibers: map<FiberId, Fiber>, g: FiberId, fb: Fiber, p: Point)
    ensures |Standing(fibers[g := fb], p)| + One(g in fibers && fibers[g].at == p) ==
            |Standing(fibers, p)| + One(fb.at == p)
  {
    StandingWithout(fibers[g := fb], g, p);
    if g in fibers {
      StandingWithout(fibers, g, p);
      assert fibers[g := fb] - {g} == fibers - {g};
    } else {
      assert fibers[g := fb] - {g} == fibers;
    }
  }

  // ---------- the invariant ----------

  /** The fiber is blocked in sleep, do_io or connect: about to yield, or off the processor. */
  predicate Waiting(fb: Fiber) {
    fb.at.Parked? || (fb.at.Woken? && fb.state != EXEC)
  }

  /** Everything outside the run queue that will put `f` into it: the slots that hold it, its timers,
      and their callbacks, queued or running. */
  function Promises(s: Sys, f: FiberId): nat {
    E.Held(s.table.slots, Fib(f)) + TimerCount(s.timers.timers, Resume(f))
    + Count(s.queue, Call(Resume(f))) + |Standing(s.fibers, Resuming(f))|
  }

  function Queued(s: Sys, f: FiberId): nat {
    Count(s.queue, Fib(f))
  }

  datatype Status = Blocked | Ready | Free | Out

  /** What is known of a fiber. `Free`: new, or put on hold by user code, which may schedule it;
      `Out`: executing, finished, kept by a worker, or no fiber. */
  ghost function StatusOf(s: Sys, f: FiberId): Status {
    if f !in s.fibers then Out
    else if Waiting(s.fibers[f]) then Blocked
    else if s.fibers[f].state == READY then Ready
    else if s.fibers[f].state in {INIT, HOLD} && !W.Kept(s, f) then Free
    else Out
  }

  ghost predicate Fits(s: Sys, f: FiberId) {
    match StatusOf(s, f)
    case Blocked => Promises(s, f) + Queued(s, f) == 1
    case Ready => Promises(s, f) == 0 && Queued(s, f) == 1
    case Free => Promises(s, f) == 0 && Queued(s, f) <= 1
    case Out => Promises(s, f) == 0 && Queued(s, f) == 0
  }

  /** Event slots hold fibers and user callbacks. */
  ghost predicate PlainTable(t: E.Table<FiberId>) {
    E.Sound(t) && forall k :: k in t.slots && t.slots[k].Call? ==> t.slots[k].cb.User?
  }

  ghost predicate PlainQueue(q: Queue) {
    forall t :: t in q ==> !t.work.Nothing?
  }

  /** The library's own timers do not recur, and a call's timer carries a timeout callback. */
  ghost predicate PlainTimers(ts: seq<T.Entry>, addresses: nat, calls: map<nat, IoCall>) {
    && T.Lawful(ts)
    && (forall e :: e in ts ==> e.id < addresses && (Library(e.cb) ==> !e.recurring))
    && (forall c :: c in calls && calls[c].timer.Some? ==> calls[c].timer.value < addresses)
    && (forall c, e :: c in calls && e in ts && calls[c].timer == Some(e.id) ==>
                         e.cb.Some? && e.cb.value.IoTimeout? && e.cb.value.call == c)
  }

  ghost predicate Plain(s: Sys) {
    PlainTable(s.table) && PlainQueue(s.queue) && PlainTimers(s.timers.timers, s.addresses, s.calls)
  }

  ghost predicate Good(s: Sys) {
    Plain(s) && forall f :: Fits(s, f)
  }

  ghost predicate Inv(s: Sys) {
    W.Inv(s) && Good(s)
  }

  /** A step that only passes tokens on, towards the queue. */
  ghost predicate Passes(s: Sys, s': Sys) {
    forall f :: Promises(s', f) <= Promises(s, f) && Promises(s', f) + Queued(s', f) == Promises(s, f) + Queued(s, f)
  }

  lemma PassingFits(s: Sys, s': Sys)
    requires (forall f :: Fits(s, f)) && Passes(s, s') && forall f :: StatusOf(s', f) == StatusOf(s, f)
    ensures forall f :: Fits(s', f)
  {
    forall f
      ensures Fits(s', f)
    {
      assert Fits(s, f);
    }
  }

  // ---------- what the steps do to the tokens ----------

  lemma SameTokens(s: Sys, s': Sys)
    requires s'.table.slots == s.table.slots && s'.timers.timers == s.timers.timers
    requires s'.queue == s.queue && s'.fibers == s.fibers
    ensures Passes(s, s')
  {
  }

  /** Work leaves the event table for the queue. */
  lemma WokenPasses(s: Sys, s': Sys, woken: seq<Work<FiberId>>)
    requires Plain(s) && E.Consumes(s.table, s'.table, woken)
    requires s'.timers.timers == s.timers.timers && s'.fibers == s.fibers && s'.queue == S.ScheduledAll(s.queue, woken)
    ensures Passes(s, s')
  {
    forall f
      ensures Promises(s', f) <= Promises(s, f) && Promises(s', f) + Queued(s', f) == Promises(s, f) + Queued(s, f)
    {
      CountScheduledAll(s.queue, woken, Fib(f));
      CountScheduledAll(s.queue, woken, Call(Resume(f)));
      assert E.KeysOf(s.table.slots, Call(Resume(f))) == {};
    }
  }

  lemma ExpiryPasses(s: Sys)
    requires Plain(s)
    ensures Passes(s, Expired(s))
  {
    var works := Works(T.Callbacks(T.Due(s.timers, s.now)));
    forall f
      ensures Promises(Expired(s), f) <= Promises(s, f)
      ensures Promises(Expired(s), f) + Queued(Expired(s), f) == Promises(s, f) + Queued(s, f)
    {
      CountScheduledAll(s.queue, works, Fib(f));
      CountScheduledAll(s.queue, works, Call(Resume(f)));
      TimerExpire(s.timers, s.now, Resume(f));
    }
  }

  /** A change of timers that are not sleepers'. */
  lemma TimersPass(s: Sys, s': Sys)
    requires s'.table.slots == s.table.slots && s'.queue == s.queue && s'.fibers == s.fibers
    requires forall f :: TimerCount(s'.timers.timers, Resume(f)) == TimerCount(s.timers.timers, Resume(f))
    ensures Passes(s, s')
  {
  }

  lemma AddEntryCounts(t: T.State, e: T.Entry, cb: Callback)
    ensures TimerCount(T.AddEntry(t, e).0.timers, cb) == TimerCount(t.timers, cb) + One(e.cb == Some(cb))
  {
    TimerInsert(t.timers, e, cb);
  }

  /** The timer `id`, if it is in the set, does not carry `cb`. */
  predicate Lacks(ts: seq<T.Entry>, id: nat, cb: Callback) {
    var k := T.IndexOf(ts, id);
    k < |ts| ==> ts[k].cb != Some(cb)
  }

  lemma CancelCounts(t: T.State, id: nat, cb: Callback)
    requires Lacks(t.timers, id, cb)
    ensures TimerCount(T.Cancel(t, id).timers, cb) == TimerCount(t.timers, cb)
  {
    TimerWithout(t.timers, id, cb);
  }

  lemma RefreshCounts(t: T.State, id: nat, now: nat, cb: Callback)
    requires Lacks(t.timers, id, cb)
    ensures TimerCount(T.Refresh(t, id, now).timers, cb) == TimerCount(t.timers, cb)
  {
    var k := T.IndexOf(t.timers, id);
    TimerWithout(t.timers, id, cb);
    if k < |t.timers| {
      TimerInsert(T.Without(t.timers, id), T.Again(t.timers[k], now), cb);
    }
  }

  lemma ResetCounts(t: T.State, id: nat, ms: nat, fromNow: bool, now: nat, cb: Callback)
    requires Lacks(t.timers, id, cb)
    ensures TimerCount(T.Reset(t, id, ms, fromNow, now).0.timers, cb) == TimerCount(t.timers, cb)
  {
    var k := T.IndexOf(t.timers, id);
    TimerWithout(t.timers, id, cb);
    if k < |t.timers| {
      TimerInsert(T.Without(t.timers, id), T.Rekeyed(t.timers[k], ms, fromNow, now), cb);
    }
  }

  /** The timers and tasks that carry `cb` and the fibers that have begun to run it. */
  function Watchers(s: Sys, cb: Callback): nat {
    TimerCount(s.timers.timers, cb) + Count(s.queue, Call(cb)) + |Standing(s.fibers, Entrance(cb))|
  }

  /** A worker takes task `k` and swaps in fiber `g`: as it was, or at the beginning of the callback. */
  lemma TakenCounts(s: Sys, s': Sys, k: nat, g: FiberId, p: Point, cb: Callback)
    requires k < |s.queue| && s'.queue == S.Removed(s.queue, k) && s'.timers == s.timers && !cb.User?
    requires s'.fibers == s.fibers[g := Fiber(EXEC, p)]
    requires match s.queue[k].work
             case Nothing => false
             case Fib(_) => g in s.fibers && s.fibers[g].at == p
             case Call(x) => p == Entrance(x) && (g in s.fibers ==> s.fibers[g].at == Body)
    ensures Watchers(s', cb) == Watchers(s, cb)
  {
    CountRemoved(s.queue, k, Call(cb));
    StandingMove(s.fibers, g, Fiber(EXEC, p), Entrance(cb));
  }
}
