/** Where a blocked fiber is registered: in the slot of the event its call waits for, and nowhere else. */
module Waits {
  import opened Basics
  import opened Tasks
  import E = EventSpec
  import opened Protocol
  import opened Tokens
  import opened Timing
  import opened Runs
  import opened Outcomes
  import opened Deadlines

  /** Fiber `f` waits for the event `j`: it is in a call for it, past the registration. */
  predicate WaitsFor(s: Sys, f: FiberId, j: E.Key) {
    && f in s.fibers && (s.fibers[f].at.Parked? || s.fibers[f].at.Woken?) && s.fibers[f].at.wait.Io?
    && s.fibers[f].at.wait.call in s.calls
    && var call := s.calls[s.fibers[f].at.wait.call]; call.k == j && call.fiber == f && call.alive
  }

  ghost predicate AllWait(s: Sys) {
    forall j :: j in s.table.slots && s.table.slots[j].Fib? ==> WaitsFor(s, s.table.slots[j].fiber, j)
  }

  /** The step registers fiber `f` for `j`. */
  predicate Registers(s: Sys, a: Action, f: FiberId, j: E.Key) {
    && a.Register? && a.ok && a.f == f && f in s.fibers && s.fibers[f].at.Armed? && s.fibers[f].at.call in s.calls
    && s.calls[s.fibers[f].at.call].k == j && j !in s.table.slots
  }

  /** What of `slots'` is a fiber was there or is registered by the step. */
  ghost predicate FibersFrom(s: Sys, a: Action, slots': map<E.Key, Work<FiberId>>) {
    forall j :: j in slots' && slots'[j].Fib? ==>
                  (j in s.table.slots && s.table.slots[j] == slots'[j]) || Registers(s, a, slots'[j].fiber, j)
  }

  lemma ConsumedFrom(s: Sys, a: Action, r: E.Result<FiberId>, s0: Sys, why: Failure)
    requires s0.table == s.table && (r.Done? ==> E.Consumes(s.table, r.table, r.woken))
    ensures FibersFrom(s, a, Effect(s0, r, why).table.slots)
  {
  }

  lemma WakeFrom(s: Sys, a: Action)
    requires Plain(s) && Enabled(s, a) && (a.CancelEvent? || a.CancelAll? || a.Deliver?)
    ensures FibersFrom(s, a, OutsideStep(s, a).table.slots)
  {
    match a {
      case CancelEvent(k, ok) =>
        E.CancelConsumes(s.table, k, ok, s.intended);
        ConsumedFrom(s, a, E.Cancel(s.table, k, ok, s.intended), s, NotRegistered);
      case CancelAll(fd, ok) =>
        E.CancelAllConsumes(s.table, fd, ok);
        ConsumedFrom(s, a, E.CancelAll(s.table, fd, ok), s, NotRegistered);
      case Deliver(fd, reported, failed, ok) =>
        E.DeliverConsumes(s.table, fd, reported, failed, ok);
        ConsumedFrom(s, a, E.Deliver(s.table, fd, reported, failed, ok), s, NotRegistered);
    }
  }

  lemma UserFrom(s: Sys, a: Action)
    requires (a.AddCallback? || a.DeleteEvent?) && OutsideEnabled(s, a)
    ensures FibersFrom(s, a, OutsideStep(s, a).table.slots)
  {
  }

  lemma FiberFrom(s: Sys, f: FiberId, a: Action)
    requires Plain(s) && Enabled(s, a) && Mover(a) == Some(f)
    ensures FibersFrom(s, a, FiberStep(s, f, a).table.slots)
  {
    if a.RunCancel? {
      var k := s.fibers[f].at.k;
      E.CancelConsumes(s.table, k, a.ok, s.intended);
      ConsumedFrom(s, a, E.Cancel(s.table, k, a.ok, s.intended), Noted(s, f, s.fibers[f].at.call, k, a.ok),
                   NotRegistered);
    } else if a.Register? {
      RegisterFrom(s, f, a.ok);
    }
  }

  lemma RegisterFrom(s: Sys, f: FiberId, ok: bool)
    requires FiberEnabled(s, f, Register(f, ok))
    ensures FibersFrom(s, Register(f, ok), Registered(s, f, s.fibers[f].at.call, ok).table.slots)
  {
  }

  lemma StepFrom(s: Sys, a: Action)
    requires Plain(s) && Enabled(s, a)
    ensures FibersFrom(s, a, Step(s, a).table.slots)
  {
    if Mover(a).Some? {
      FiberFrom(s, Mover(a).value, a);
    } else if a.CancelEvent? || a.CancelAll? || a.Deliver? {
      WakeFrom(s, a);
    } else if a.AddCallback? || a.DeleteEvent? {
      UserFrom(s, a);
    }
  }

  /** A fiber that a slot holds makes no step of its own. */
  lemma HeldMakesNone(s: Sys, a: Action, j: E.Key, f: FiberId)
    requires Good(s) && Enabled(s, a) && j in s.table.slots && s.table.slots[j] == Fib(f) && WaitsFor(s, f, j)
    ensures Mover(a) != Some(f)
  {
    assert j in E.KeysOf(s.table.slots, Fib(f));
    assert Fits(s, f);
  }

  /** Its call is as it was, and it has yielded at most. */
  lemma WaitsOn(s: Sys, s': Sys, f: FiberId, j: E.Key, c: nat)
    requires WaitsFor(s, f, j) && c == s.fibers[f].at.wait.call && c in s'.calls
    requires s'.calls[c].k == j && s'.calls[c].fiber == f && s'.calls[c].alive
    requires f in s'.fibers && (s'.fibers[f].at == s.fibers[f].at || s'.fibers[f].at == After(s.fibers[f].at))
    ensures WaitsFor(s', f, j)
  {
  }

  /** Its wait is not touched by others. */
  lemma StillWaits(s: Sys, a: Action, f: FiberId, j: E.Key, c: nat)
    requires Inv(s) && Timely(s) && NoneReported(s) && Enabled(s, a) && Mover(a) != Some(f)
    requires WaitsFor(s, f, j) && c == s.fibers[f].at.wait.call
    ensures WaitsFor(Step(s, a), f, j)
  {
    CallKept(s, a, c);
    Whereabouts(s, a, f);
    WaitsOn(s, Step(s, a), f, j, c);
  }

  lemma NewWaits(s: Sys, f: FiberId, j: E.Key)
    requires Timely(s) && Enabled(s, Register(f, true)) && Registers(s, Register(f, true), f, j)
    ensures WaitsFor(Registered(s, f, s.fibers[f].at.call, true), f, j)
  {
    assert FiberSound(s.fibers, s.calls, f, s.fibers[f], s.now);
  }

  lemma StepWaits(s: Sys, a: Action)
    requires Inv(s) && Timely(s) && NoneReported(s) && Enabled(s, a) && AllWait(s)
    ensures AllWait(Step(s, a))
  {
    var s' := Step(s, a);
    StepFrom(s, a);
    forall j | j in s'.table.slots && s'.table.slots[j].Fib?
      ensures WaitsFor(s', s'.table.slots[j].fiber, j)
    {
      var f := s'.table.slots[j].fiber;
      if Registers(s, a, f, j) {
        NewWaits(s, f, j);
      } else {
        HeldMakesNone(s, a, j, f);
        StillWaits(s, a, f, j, s.fibers[f].at.wait.call);
      }
    }
  }

  lemma {:induction false} RunWaits(s: Sys, actions: seq<Action>, s': Sys)
    requires Inv(s) && Timely(s) && NoneReported(s) && AllWait(s) && Leads(s, actions, s')
    ensures AllWait(s')
    decreases |actions|
  {
    if actions != [] {
      StepWaits(s, actions[0]);
      StepReports(s, actions[0]);
      StepKeepsTokens(s, actions[0]);
      StepKeepsTime(s, actions[0]);
      RunWaits(Step(s, actions[0]), actions[1..], s');
    }
  }

  lemma ReachableWaits(s: Sys)
    requires Reachable(s)
    ensures AllWait(s)
  {
    var s0: Sys, actions: seq<Action> :| Initial(s0) && Leads(s0, actions, s);
    InitialGood(s0);
    RunWaits(s0, actions, s);
  }

  /** In every reachable state a fiber in a slot is blocked in a call for just that event, which has not
      returned; and it is in no other slot. */
  lemma SlotIsOwn(s: Sys, j: E.Key, f: FiberId)
    requires Reachable(s) && j in s.table.slots && s.table.slots[j] == Fib(f)
    ensures WaitsFor(s, f, j)
    ensures forall i :: i in s.table.slots && s.table.slots[i] == Fib(f) ==> i == j
  {
    ReachableWaits(s);
    forall i | i in s.table.slots && s.table.slots[i] == Fib(f)
      ensures WaitsFor(s, f, i)
    {
    }
  }
}
