/** How calls end: what changes the record of a call, and that a call marked while its fiber waits ends
    with ETIMEDOUT and no other does; and exactly when the I/O manager may stop. */
module Outcomes {
  import opened Basics
  import opened Tasks
  import S = SchedulerSpec
  import E = EventSpec
  import W = Workers
  import opened Protocol
  import opened Tokens
  import opened Timing
  import opened Runs

  // ---------- what changes a record ----------

  /** The step has the callback of call `c` mark it. */
  predicate MarksCall(s: Sys, a: Action, c: nat)
    requires c in s.calls
  {
    && a.RunCheck? && a.g in s.fibers && s.fibers[a.g].at.Checking? && s.fibers[a.g].at.call == c
    && s.calls[c].alive && !s.calls[c].cancelled
  }

  /** The fiber whose step it is is at `p`. */
  predicate Comes(s: Sys, f: FiberId, p: Point) {
    f in s.fibers && s.fibers[f].at == p
  }

  /** The step ends call `c`: its system call is done, its event cannot be registered, or its fiber has
      been woken and finds the mark or does not try again. */
  predicate EndsCall(s: Sys, a: Action, c: nat)
    requires c in s.calls
  {
    match a
    case Complete(f) => Comes(s, f, Try(c))
    case Register(f, ok) => Comes(s, f, Armed(c)) && !ok && s.calls[c].k !in s.table.slots
    case Judge(f) => Comes(s, f, Judging(c)) && (s.calls[c].cancelled || !s.calls[c].retries)
    case _ => false
  }

  predicate TimesOut(s: Sys, a: Action, c: nat)
    requires c in s.calls
  {
    a.Judge? && Comes(s, a.f, Judging(c)) && s.calls[c].cancelled
  }

  /** A record `b` that becomes `b'`. */
  predicate Becomes(b: IoCall, b': IoCall, marked: bool, ended: bool, timedOut: bool) {
    && b' == b.(timer := b'.timer, missed := b'.missed, cancelled := b'.cancelled, alive := b'.alive,
             timedOut := b'.timedOut)
    && (b'.cancelled <==> b.cancelled || marked) && (b'.alive <==> b.alive && !ended)
    && (b'.timedOut <==> b.timedOut || timedOut)
  }

  /** The record of call `c` in `calls'` is what the step makes of it. */
  predicate Recorded(s: Sys, a: Action, c: nat, calls': Calls)
    requires c in s.calls
  {
    c in calls' && Becomes(s.calls[c], calls'[c], MarksCall(s, a, c), EndsCall(s, a, c), TimesOut(s, a, c))
  }

  predicate Unreported(calls: Calls, c: nat) {
    c in calls && calls[c].alive ==> !calls[c].timedOut
  }

  lemma CompleteRecords(s: Sys, f: FiberId, c: nat)
    requires FiberEnabled(s, f, Complete(f)) && c in s.calls && Unreported(s.calls, c)
    requires CallOf(s.fibers[f].at) == Some(c) ==> s.calls[c].alive
    ensures Recorded(s, Complete(f), c, Returned(s, f, s.fibers[f].at.call, false).calls)
  {
  }

  lemma RegisterRecords(s: Sys, f: FiberId, ok: bool, c: nat)
    requires FiberEnabled(s, f, Register(f, ok)) && c in s.calls && Unreported(s.calls, c)
    requires CallOf(s.fibers[f].at) == Some(c) ==> s.calls[c].alive
    ensures Recorded(s, Register(f, ok), c, Registered(s, f, s.fibers[f].at.call, ok).calls)
  {
    RegisteredCalls(s, f, s.fibers[f].at.call, ok);
  }

  lemma RegisteredCalls(s: Sys, f: FiberId, c: nat, ok: bool)
    requires f in s.fibers && c in s.calls
    ensures Registered(s, f, c, ok).calls ==
            if ok || s.calls[c].k in s.table.slots then s.calls
            else s.calls[c := s.calls[c].(alive := false, timedOut := false)]
  {
  }

  lemma JudgeRecords(s: Sys, f: FiberId, c: nat)
    requires FiberEnabled(s, f, Judge(f)) && c in s.calls && Unreported(s.calls, c)
    requires CallOf(s.fibers[f].at) == Some(c) ==> s.calls[c].alive
    ensures Recorded(s, Judge(f), c, Judged(s, f, s.fibers[f].at.call).calls)
  {
    JudgedCalls(s, f, s.fibers[f].at.call);
  }

  lemma JudgedCalls(s: Sys, f: FiberId, c: nat)
    requires f in s.fibers && c in s.calls
    ensures Judged(s, f, c).calls ==
            if !s.calls[c].cancelled && s.calls[c].retries then s.calls
            else s.calls[c := s.calls[c].(alive := false, timedOut := s.calls[c].cancelled)]
  {
  }

  lemma CallRecords(s: Sys, f: FiberId, a: Action, c: nat)
    requires Enabled(s, a) && Mover(a) == Some(f) && !Job(a) && c in s.calls && Unreported(s.calls, c)
    requires CallOf(s.fibers[f].at) == Some(c) ==> s.calls[c].alive
    ensures Recorded(s, a, c, CallStep(s, f, a).calls)
  {
    if a.Complete? {
      CompleteRecords(s, f, c);
    } else if a.Register? {
      RegisterRecords(s, f, a.ok, c);
    } else if a.Judge? {
      JudgeRecords(s, f, c);
    }
  }

  lemma JobRecords(s: Sys, g: FiberId, a: Action, c: nat)
    requires Enabled(s, a) && Mover(a) == Some(g) && Job(a) && c in s.calls
    ensures Recorded(s, a, c, JobStep(s, g, a).calls)
  {
    if a.RunCheck? {
      CheckRecords(s, g, c);
    }
  }

  lemma CheckRecords(s: Sys, g: FiberId, c: nat)
    requires FiberEnabled(s, g, RunCheck(g)) && c in s.calls
    ensures Recorded(s, RunCheck(g), c, Checked(s, g, s.fibers[g].at.call, s.fibers[g].at.k).calls)
  {
    CheckedCalls(s, g, s.fibers[g].at.call, s.fibers[g].at.k);
  }

  lemma CheckedCalls(s: Sys, g: FiberId, c: nat, k: E.Key)
    requires g in s.fibers && c in s.calls
    ensures Checked(s, g, c, k).calls ==
            if !s.calls[c].alive || s.calls[c].cancelled then s.calls
            else s.calls[c := s.calls[c].(cancelled := true)]
  {
  }

  lemma FiberRecords(s: Sys, f: FiberId, a: Action, c: nat)
    requires Timely(s) && Enabled(s, a) && Mover(a) == Some(f) && c in s.calls && Unreported(s.calls, c)
    ensures Recorded(s, a, c, FiberStep(s, f, a).calls)
  {
    assert FiberSound(s.fibers, s.calls, f, s.fibers[f], s.now);
    if Job(a) {
      JobRecords(s, f, a, c);
    } else {
      CallRecords(s, f, a, c);
    }
  }

  lemma StepRecords(s: Sys, a: Action, c: nat)
    requires Timely(s) && Enabled(s, a) && c in s.calls && Unreported(s.calls, c)
    ensures Recorded(s, a, c, Step(s, a).calls)
  {
    if Mover(a).None? {
      CallsStay(s, a);
    } else {
      FiberRecords(s, Mover(a).value, a, c);
    }
  }

  lemma NewCalls(s: Sys, a: Action, c: nat)
    requires Enabled(s, a) && c !in s.calls
    ensures c in Step(s, a).calls <==> a.BeginIo? && a.c == c
    ensures a.BeginIo? && a.c == c ==>
              Step(s, a).calls[c] == IoCall(a.f, a.k, a.to, s.now, a.retries, None, false, true, false, false)
  {
    if Mover(a).None? {
      CallsStay(s, a);
    }
  }

  ghost predicate NoneReported(s: Sys) {
    forall c :: c in s.calls ==> Unreported(s.calls, c)
  }

  lemma StepReports(s: Sys, a: Action)
    requires Timely(s) && Enabled(s, a) && NoneReported(s)
    ensures NoneReported(Step(s, a))
  {
    forall c | c in Step(s, a).calls
      ensures Unreported(Step(s, a).calls, c)
    {
      if c in s.calls {
        StepRecords(s, a, c);
      } else {
        NewCalls(s, a, c);
      }
    }
  }

  lemma {:induction false} RunReports(s: Sys, actions: seq<Action>, s': Sys)
    requires Inv(s) && Timely(s) && NoneReported(s) && Leads(s, actions, s')
    ensures NoneReported(s')
    decreases |actions|
  {
    if actions != [] {
      StepReports(s, actions[0]);
      StepKeepsTokens(s, actions[0]);
      StepKeepsTime(s, actions[0]);
      RunReports(Step(s, actions[0]), actions[1..], s');
    }
  }

  lemma ReachableReports(s: Sys)
    requires Reachable(s)
    ensures NoneReported(s)
  {
    var s0: Sys, actions: seq<Action> :| Initial(s0) && Leads(s0, actions, s);
    InitialGood(s0);
    RunReports(s0, actions, s);
  }

  /** In every reachable state: a call keeps the terms it began with; only its own callback marks it,
      once, while it has not returned; it ends by one of the three ways; and it is recorded as timed out
      exactly when its fiber is woken and finds the mark. */
  lemma RecordExactly(s: Sys, a: Action, c: nat)
    requires Reachable(s) && Enabled(s, a)
    ensures c in s.calls ==> Recorded(s, a, c, Step(s, a).calls)
    ensures c !in s.calls ==>
              (c in Step(s, a).calls <==> a.BeginIo? && a.c == c)
              && (a.BeginIo? && a.c == c ==>
                    Step(s, a).calls[c] == IoCall(a.f, a.k, a.to, s.now, a.retries, None, false, true, false, false))
    ensures c in s.calls && s.calls[c].alive ==> !s.calls[c].timedOut
  {
    ReachableGood(s);
    ReachableReports(s);
    if c in s.calls {
      assert Unreported(s.calls, c);
      StepRecords(s, a, c);
    } else {
      NewCalls(s, a, c);
    }
  }

  /** A fiber has looked at its call: in a marked one it returns ETIMEDOUT, whether or not the call
      retries; in another it tries once more, or returns without, as the call retries or not. */
  predicate Decided(s: Sys, f: FiberId, c: nat, s': Sys) {
    && c in s.calls && c in s'.calls && f in s'.fibers
    && if s.calls[c].cancelled then
         s'.calls[c].timedOut && !s'.calls[c].alive && s'.fibers[f] == Fiber(EXEC, Body)
       else
         && !s'.calls[c].timedOut && s'.calls[c].alive == s.calls[c].retries
         && s'.fibers[f] == Fiber(EXEC, if s.calls[c].retries then Try(c) else Body)
  }

  lemma JudgedIs(s: Sys, f: FiberId, c: nat, s': Sys)
    requires At(s, f, Judging(c)) && c in s.calls && s.calls[c].alive && !s.calls[c].timedOut && s' == Judged(s, f, c)
    ensures Decided(s, f, c, s')
  {
  }

  lemma InCall(s: Sys, f: FiberId, c: nat)
    requires Reachable(s) && f in s.fibers && CallOf(s.fibers[f].at) == Some(c)
    ensures Inv(s) && Timely(s) && NoneReported(s)
    ensures c in s.calls && s.calls[c].fiber == f && s.calls[c].alive && !s.calls[c].timedOut
  {
    ReachableGood(s);
    ReachableReports(s);
    assert FiberSound(s.fibers, s.calls, f, s.fibers[f], s.now) && Unreported(s.calls, c);
  }

  /** So it is for every woken fiber, in every reachable state, and the call is its own. */
  lemma JudgeExactly(s: Sys, f: FiberId, c: nat)
    requires Reachable(s) && Enabled(s, Judge(f)) && At(s, f, Judging(c))
    ensures c in s.calls && s.calls[c].fiber == f && s.calls[c].alive && Decided(s, f, c, Step(s, Judge(f)))
  {
    InCall(s, f, c);
    JudgedIs(s, f, c, Step(s, Judge(f)));
  }

  // ---------- a marked call times out ----------

  /** Where a fiber goes when it is not its own step. */
  lemma Whereabouts(s: Sys, a: Action, f: FiberId)
    requires Inv(s) && Enabled(s, a) && f in s.fibers && CallOf(s.fibers[f].at).Some? && Mover(a) != Some(f)
    ensures f in Step(s, a).fibers
    ensures Step(s, a).fibers[f].at == if a.Leave? && s.running[a.w] == f then After(s.fibers[f].at) else s.fibers[f].at
  {
    if a.Dequeue? {
      DequeueMoves(s, a.w, a.spare, f);
    } else if a.Leave? {
      LeaveMoves(s, a.w, a.exit, f);
    } else if Mover(a).Some? {
      FiberMoves(s, Mover(a).value, a, f);
    }
  }

  lemma DequeueMoves(s: Sys, w: nat, spare: FiberId, f: FiberId)
    requires Inv(s) && Enabled(s, Dequeue(w, spare)) && f in s.fibers && CallOf(s.fibers[f].at).Some?
    ensures f in Taken(s, w, spare).fibers && Taken(s, w, spare).fibers[f].at == s.fibers[f].at
  {
    DequeueKeeps(s, w, spare);
    TakenStarts(s, w, Next(s, w), spare, Taken(s, w, spare));
    if w in s.retained {
      KeptBody(s, w);
    }
    StartMoves(s, w, Next(s, w), spare, Taken(s, w, spare), f);
  }

  lemma LeaveMoves(s: Sys, w: nat, exit: S.Exit, f: FiberId)
    requires W.Inv(s) && Enabled(s, Leave(w, exit)) && f in s.fibers && CallOf(s.fibers[f].at).Some?
    ensures f in Left(s, w, exit).fibers
    ensures Left(s, w, exit).fibers[f].at == if s.running[w] == f then After(s.fibers[f].at) else s.fibers[f].at
  {
    if w in s.retained && s.retained[w] == f {
      assert W.Shape(s.fibers[f]);
    }
  }

  lemma FiberMoves(s: Sys, g: FiberId, a: Action, f: FiberId)
    requires FiberEnabled(s, g, a) && f in s.fibers && f != g
    ensures f in FiberStep(s, g, a).fibers && FiberStep(s, g, a).fibers[f] == s.fibers[f]
  {
  }

  lemma StartMoves(s: Sys, w: nat, k: nat, spare: FiberId, s': Sys, f: FiberId)
    requires Starts(s, w, k, spare, s') && spare !in s.fibers && f in s.fibers && CallOf(s.fibers[f].at).Some?
    requires w in s.retained ==> s.retained[w] in s.fibers && s.fibers[s.retained[w]].at == Body
    ensures f in s'.fibers && s'.fibers[f].at == s.fibers[f].at
  {
  }

  /** The fiber waits in call `c` or has been woken in it. */
  predicate WaitsIn(at: Point, c: nat) {
    at == Parked(Io(c)) || at == Woken(Io(c)) || at == Judging(c)
  }

  /** The callback has marked the call while its fiber waited, and the fiber has not looked yet. */
  predicate Doomed(s: Sys, f: FiberId, c: nat) {
    && f in s.fibers && WaitsIn(s.fibers[f].at, c)
    && c in s.calls && s.calls[c].fiber == f && s.calls[c].alive && !s.calls[c].timedOut && s.calls[c].cancelled
  }

  predicate TimedOut(s: Sys, c: nat) {
    c in s.calls && !s.calls[c].alive && s.calls[c].timedOut
  }

  lemma OwnStep(s: Sys, f: FiberId, a: Action, c: nat)
    requires Doomed(s, f, c) && Enabled(s, a) && Mover(a) == Some(f)
    ensures Doomed(Step(s, a), f, c) || TimedOut(Step(s, a), c)
  {
  }

  /** Its record is kept, and its fiber has yielded at most. */
  lemma DoomStays(s: Sys, a: Action, f: FiberId, c: nat, s': Sys)
    requires Doomed(s, f, c) && Recorded(s, a, c, s'.calls) && !EndsCall(s, a, c) && !TimesOut(s, a, c)
    requires f in s'.fibers && s'.fibers[f].at in {s.fibers[f].at, After(s.fibers[f].at)}
    ensures Doomed(s', f, c)
  {
  }

  /** Nobody else ends the call. */
  lemma OthersEndNot(s: Sys, a: Action, f: FiberId, c: nat)
    requires Timely(s) && Enabled(s, a) && Doomed(s, f, c) && Mover(a) != Some(f)
    ensures !EndsCall(s, a, c) && !TimesOut(s, a, c)
  {
    if Mover(a).Some? {
      var g := Mover(a).value;
      assert FiberSound(s.fibers, s.calls, g, s.fibers[g], s.now);
    }
  }

  lemma StepDooms(s: Sys, f: FiberId, a: Action, c: nat)
    requires Inv(s) && Timely(s) && NoneReported(s) && Enabled(s, a) && Doomed(s, f, c)
    ensures Doomed(Step(s, a), f, c) || TimedOut(Step(s, a), c)
  {
    if Mover(a) == Some(f) {
      OwnStep(s, f, a, c);
    } else {
      StepRecords(s, a, c);
      OthersEndNot(s, a, f, c);
      Whereabouts(s, a, f);
      DoomStays(s, a, f, c, Step(s, a));
    }
  }

  lemma {:induction false} RunDooms(s: Sys, f: FiberId, c: nat, actions: seq<Action>, s': Sys)
    requires Inv(s) && Timely(s) && NoneReported(s) && Leads(s, actions, s')
    requires Doomed(s, f, c) || TimedOut(s, c)
    ensures Doomed(s', f, c) || TimedOut(s', c)
    decreases |actions|
  {
    if actions != [] {
      var a := actions[0];
      if Doomed(s, f, c) {
        StepDooms(s, f, a, c);
      } else {
        StepRecords(s, a, c);
      }
      StepReports(s, a);
      StepKeepsTokens(s, a);
      StepKeepsTime(s, a);
      RunDooms(Step(s, a), f, c, actions[1..], s');
    }
  }

  /** A call whose callback has marked it while its fiber waits in it ends with ETIMEDOUT if it ends, over
      any run, whatever wakes the fiber. */
  lemma MarkedTimesOut(s: Sys, f: FiberId, c: nat, actions: seq<Action>, s': Sys)
    requires Reachable(s) && Leads(s, actions, s') && f in s.fibers
    requires WaitsIn(s.fibers[f].at, c) && c in s.calls && s.calls[c].cancelled
    ensures c in s'.calls && (!s'.calls[c].alive <==> s'.calls[c].timedOut)
    ensures s'.calls[c].alive ==> f in s'.fibers && WaitsIn(s'.fibers[f].at, c)
  {
    InCall(s, f, c);
    RunDooms(s, f, c, actions, s');
  }

  // ---------- stopping ----------

  /** stopping() is true exactly when stop has been called and no timer is set, no task is queued or
      running, and the registered events are as many as the run has deleted unregistered ones. */
  lemma StopsExactly(s0: Sys, actions: seq<Action>, s: Sys)
    requires Initial(s0) && Leads(s0, actions, s)
    ensures Stopping(s) <==>
            && s.autoStop && s.stopping && s.timers.timers == [] && s.queue == [] && s.running == map[]
            && |s.table.slots| == Unregistered(s0, actions)
  {
    EventsConserved(s0, actions, s);
    ReachableGood(s);
    assert |s.running| == 0 <==> s.running.Keys == {};
  }
}
