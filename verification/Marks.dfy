/** What becomes of a time limit once its callback has marked the call. */
module Marks {
  import opened Basics
  import opened Tasks
  import S = SchedulerSpec
  import E = EventSpec
  import opened Protocol
  import opened Tokens
  import opened Timing
  import opened Runs
  import opened Limits

  type Slots = map<E.Key, Work<FiberId>>

  /** The callbacks that have marked call `c` and are about to cancel its event. */
  function Cancellers(fibers: Fibers, c: nat, call: IoCall): nat {
    |Standing(fibers, Cancelling(c, call.k))|
  }

  /** The fiber of the call is past its registration and no slot holds it any more. */
  predicate Freed(fibers: Fibers, slots: Slots, c: nat, f: FiberId) {
    f in fibers && fibers[f].at in {Parked(Io(c)), Woken(Io(c)), Judging(c)} && E.Held(slots, Fib(f)) == 0
  }

  /** A call that has not returned: its fiber is in it; nobody cancels before the mark; at most one
      callback cancels, and not after it has missed; if it has not missed, the fiber is free. */
  predicate CallState(fibers: Fibers, slots: Slots, c: nat, call: IoCall) {
    call.alive ==>
      && call.fiber in fibers && CallOf(fibers[call.fiber].at) == Some(c)
      && Cancellers(fibers, c, call) <= 1
      && (!call.cancelled || call.missed ==> Cancellers(fibers, c, call) == 0)
      && (call.missed ==> call.cancelled)
      && (call.cancelled && !call.missed && Cancellers(fibers, c, call) == 0 ==> Freed(fibers, slots, c, call.fiber))
  }

  ghost predicate Marked(s: Sys) {
    forall c :: c in s.calls ==> CallState(s.fibers, s.table.slots, c, s.calls[c])
  }

  /** No slot of `slots'` holds a fiber that it did not hold in `slots`, but perhaps `except`. */
  predicate NoNewFibers(slots: Slots, slots': Slots, except: Option<FiberId>) {
    forall k :: k in slots' ==>
                  (k in slots && slots'[k] == slots[k]) || slots'[k].Call?
                  || (except.Some? && slots'[k] == Fib(except.value))
  }

  lemma StillFree(slots: Slots, slots': Slots, f: FiberId, except: Option<FiberId>)
    requires E.Held(slots, Fib(f)) == 0 && NoNewFibers(slots, slots', except) && except != Some(f)
    ensures E.Held(slots', Fib(f)) == 0
  {
    assert E.KeysOf(slots, Fib(f)) == {};
    assert forall k :: k in slots' && slots'[k] == Fib(f) ==> k in E.KeysOf(slots, Fib(f));
    assert E.KeysOf(slots', Fib(f)) == {};
  }

  /** Only the slots change. */
  lemma SlotsMark(fibers: Fibers, slots: Slots, slots': Slots, c: nat, call: IoCall)
    requires CallState(fibers, slots, c, call) && NoNewFibers(slots, slots', None)
    ensures CallState(fibers, slots', c, call)
  {
    if E.Held(slots, Fib(call.fiber)) == 0 {
      StillFree(slots, slots', call.fiber, None);
    }
  }

  /** A fiber moves that is not in the call and neither was nor is about to cancel it. */
  lemma OtherMark(fibers: Fibers, slots: Slots, slots': Slots, f: FiberId, fb: Fiber, c: nat, call: IoCall)
    requires CallState(fibers, slots, c, call) && NoNewFibers(slots, slots', Some(f))
    requires f in fibers ==> CallOf(fibers[f].at) != Some(c) && fibers[f].at != Cancelling(c, call.k)
    requires fb.at != Cancelling(c, call.k)
    ensures CallState(fibers[f := fb], slots', c, call)
  {
    StandingMove(fibers, f, fb, Cancelling(c, call.k));
    if call.alive && E.Held(slots, Fib(call.fiber)) == 0 {
      StillFree(slots, slots', call.fiber, Some(f));
    }
  }

  /** The fiber of the call moves on in it: along, or, unless it is free, to any of its points. */
  lemma OwnMark(fibers: Fibers, slots: Slots, slots': Slots, f: FiberId, fb: Fiber, c: nat, call: IoCall, call': IoCall)
    requires CallState(fibers, slots, c, call) && f in fibers && call.fiber == f && NoNewFibers(slots, slots', Some(f))
    requires call' == call.(timer := call'.timer) && CallOf(fibers[f].at) == CallOf(fb.at) == Some(c)
    requires call.alive && call.cancelled && !call.missed && Cancellers(fibers, c, call) == 0 ==>
               fb.at in {Parked(Io(c)), Woken(Io(c)), Judging(c)} && NoNewFibers(slots, slots', None)
    ensures CallState(fibers[f := fb], slots', c, call')
  {
    StandingMove(fibers, f, fb, Cancelling(c, call.k));
    if call.alive && E.Held(slots, Fib(f)) == 0 && NoNewFibers(slots, slots', None) {
      StillFree(slots, slots', f, None);
    }
  }

  // ---------- steps of workers and outside ----------

  lemma ConsumedSlots(s: Sys, r: E.Result<FiberId>, why: Failure)
    requires r.Done? ==> E.Consumes(s.table, r.table, r.woken)
    ensures NoNewFibers(s.table.slots, Effect(s, r, why).table.slots, None)
  {
  }

  lemma CancelSlots(s: Sys, k: E.Key, ok: bool)
    requires E.Sound(s.table)
    ensures NoNewFibers(s.table.slots, Effect(s, E.Cancel(s.table, k, ok, s.intended), NotRegistered).table.slots, None)
  {
    E.CancelConsumes(s.table, k, ok, s.intended);
    ConsumedSlots(s, E.Cancel(s.table, k, ok, s.intended), NotRegistered);
  }

  lemma CancelAllSlots(s: Sys, fd: nat, ok: bool)
    requires E.Sound(s.table)
    ensures NoNewFibers(s.table.slots, Effect(s, E.CancelAll(s.table, fd, ok), NotRegistered).table.slots, None)
  {
    E.CancelAllConsumes(s.table, fd, ok);
    ConsumedSlots(s, E.CancelAll(s.table, fd, ok), NotRegistered);
  }

  lemma DeliverSlots(s: Sys, fd: nat, reported: E.Mask, failed: bool, ok: bool)
    requires E.Sound(s.table)
    ensures var r := E.Deliver(s.table, fd, reported, failed, ok);
            NoNewFibers(s.table.slots, Effect(s, r, NotRegistered).table.slots, None)
  {
    E.DeliverConsumes(s.table, fd, reported, failed, ok);
    ConsumedSlots(s, E.Deliver(s.table, fd, reported, failed, ok), NotRegistered);
  }

  lemma EventSlots(s: Sys, a: Action)
    requires E.Sound(s.table) && Enabled(s, a) && (a.CancelEvent? || a.CancelAll? || a.Deliver?)
    ensures NoNewFibers(s.table.slots, OutsideStep(s, a).table.slots, None)
  {
    match a {
      case CancelEvent(k, ok) => CancelSlots(s, k, ok);
      case CancelAll(fd, ok) => CancelAllSlots(s, fd, ok);
      case Deliver(fd, reported, failed, ok) => DeliverSlots(s, fd, reported, failed, ok);
    }
  }

  lemma AddSlots(s: Sys, k: E.Key, cb: nat, ok: bool)
    ensures var r := E.Add(s.table, k, Call(User(cb)), ok);
            NoNewFibers(s.table.slots, Effect(s, r, AlreadyRegistered).table.slots, None)
  {
  }

  lemma DeleteSlots(s: Sys, k: E.Key, ok: bool)
    ensures var r := E.Delete(s.table, k, ok, s.intended);
            NoNewFibers(s.table.slots, Effect(s, r, NotRegistered).table.slots, None)
  {
  }

  lemma OutsideSlots(s: Sys, a: Action)
    requires E.Sound(s.table) && Enabled(s, a) && Mover(a).None? && !a.Dequeue? && !a.Leave?
    ensures NoNewFibers(s.table.slots, OutsideStep(s, a).table.slots, None)
  {
    if a.CancelEvent? || a.CancelAll? || a.Deliver? {
      EventSlots(s, a);
    } else if a.AddCallback? {
      AddSlots(s, a.k, a.cb, a.ok);
    } else if a.DeleteEvent? {
      DeleteSlots(s, a.k, a.ok);
    }
  }

  lemma OutsideMarks(s: Sys, a: Action)
    requires Plain(s) && Marked(s) && Enabled(s, a) && Mover(a).None? && !a.Dequeue? && !a.Leave?
    ensures Marked(OutsideStep(s, a))
  {
    var s' := OutsideStep(s, a);
    OutsideSlots(s, a);
    forall c | c in s'.calls
      ensures CallState(s'.fibers, s'.table.slots, c, s'.calls[c])
    {
      assert CallState(s.fibers, s.table.slots, c, s.calls[c]);
      SlotsMark(s.fibers, s.table.slots, s'.table.slots, c, s.calls[c]);
      if a.NewFiber? {
        OtherMark(s.fibers, s.table.slots, s'.table.slots, a.f, Fiber(INIT, Body), c, s.calls[c]);
      }
    }
  }

  lemma SwapMarks(s: Sys, s': Sys, g: FiberId)
    requires Marked(s) && s'.calls == s.calls && s'.table == s.table && g in s'.fibers
    requires s'.fibers == s.fibers[g := s'.fibers[g]]
    requires
      || (g in s.fibers && s'.fibers[g].at in {s.fibers[g].at, After(s.fibers[g].at)})
      || ((g in s.fibers ==> CallOf(s.fibers[g].at).None? && !s.fibers[g].at.Cancelling?)
          && CallOf(s'.fibers[g].at).None? && !s'.fibers[g].at.Cancelling?)
    ensures Marked(s')
  {
    forall c | c in s'.calls
      ensures CallState(s'.fibers, s'.table.slots, c, s'.calls[c])
    {
      assert CallState(s.fibers, s.table.slots, c, s.calls[c]);
      SwapMark(s.fibers, s.table.slots, g, s'.fibers[g], c, s.calls[c]);
    }
  }

  lemma DequeueFiberMarks(s: Sys, w: nat, spare: FiberId)
    requires Marked(s) && Enabled(s, Dequeue(w, spare)) && Taken(s, w, spare).failure.None?
    requires s.queue[Next(s, w)].work.Fib?
    ensures Marked(Taken(s, w, spare))
  {
    SwapMarks(s, Taken(s, w, spare), s.queue[Next(s, w)].work.fiber);
  }

  lemma DequeueCallMarks(s: Sys, w: nat, spare: FiberId)
    requires Marked(s) && Enabled(s, Dequeue(w, spare)) && Taken(s, w, spare).failure.None?
    requires s.queue[Next(s, w)].work.Call?
    requires w in s.retained && s.retained[w] in s.fibers ==> s.fibers[s.retained[w]].at == Body
    ensures Marked(Taken(s, w, spare))
  {
    SwapMarks(s, Taken(s, w, spare), if w in s.retained then s.retained[w] else spare);
  }

  lemma DequeueMarks(s: Sys, w: nat, spare: FiberId)
    requires Inv(s) && Marked(s) && Enabled(s, Dequeue(w, spare))
    ensures Marked(Taken(s, w, spare))
  {
    assert s.queue[Next(s, w)] in s.queue;
    DequeueKeeps(s, w, spare);
    if s.queue[Next(s, w)].work.Fib? {
      DequeueFiberMarks(s, w, spare);
    } else {
      if w in s.retained {
        KeptBody(s, w);
      }
      DequeueCallMarks(s, w, spare);
    }
  }

  /** A fiber is swapped in or out: it stays where it is, or leaves Parked for Woken, or it was in no
      call and is in none. */
  lemma SwapMark(fibers: Fibers, slots: Slots, g: FiberId, fb: Fiber, c: nat, call: IoCall)
    requires CallState(fibers, slots, c, call)
    requires
      || (g in fibers && (fb.at == fibers[g].at || fb.at == After(fibers[g].at)))
      || ((g in fibers ==> CallOf(fibers[g].at).None? && !fibers[g].at.Cancelling?) && !fb.at.Cancelling?)
    ensures CallState(fibers[g := fb], slots, c, call)
  {
    StandingMove(fibers, g, fb, Cancelling(c, call.k));
  }

  lemma LeaveMarks(s: Sys, w: nat, exit: S.Exit)
    requires Marked(s) && Enabled(s, Leave(w, exit))
    ensures Marked(Left(s, w, exit))
  {
    SwapMarks(s, Left(s, w, exit), s.running[w]);
  }

  // ---------- steps of fibers ----------

  lemma CallSlots(s: Sys, f: FiberId, a: Action)
    requires FiberEnabled(s, f, a) && !Job(a)
    ensures NoNewFibers(s.table.slots, CallStep(s, f, a).table.slots, Some(f))
  {
  }

  lemma JobSlots(s: Sys, g: FiberId, a: Action)
    requires E.Sound(s.table) && FiberEnabled(s, g, a) && Job(a)
    ensures NoNewFibers(s.table.slots, JobStep(s, g, a).table.slots, None)
  {
    if a.RunCancel? {
      E.CancelConsumes(s.table, s.fibers[g].at.k, a.ok, s.intended);
    }
  }

  lemma FiberSlots(s: Sys, f: FiberId, a: Action)
    requires E.Sound(s.table) && FiberEnabled(s, f, a)
    ensures NoNewFibers(s.table.slots, FiberStep(s, f, a).table.slots, Some(f))
  {
    if Job(a) {
      JobSlots(s, f, a);
    } else {
      CallSlots(s, f, a);
    }
  }

  /** The call a step of a fiber at this point may change, if it begins none. */
  function Concerned(at: Point): Option<nat> {
    match at
    case Checking(c, _) => Some(c)
    case Cancelling(c, _) => Some(c)
    case _ => CallOf(at)
  }

  lemma RegisterConcerns(s: Sys, f: FiberId, a: Action, c: nat)
    requires FiberEnabled(s, f, a) && a.Register? && c in s.calls && Concerned(s.fibers[f].at) != Some(c)
    ensures c in CallStep(s, f, a).calls && CallStep(s, f, a).calls[c] == s.calls[c]
    ensures Concerned(CallStep(s, f, a).fibers[f].at) != Some(c)
  {
  }

  lemma WokenConcerns(s: Sys, f: FiberId, a: Action, c: nat)
    requires FiberEnabled(s, f, a) && (a.Awake? || a.Judge?)
    requires c in s.calls && Concerned(s.fibers[f].at) != Some(c)
    ensures c in CallStep(s, f, a).calls && CallStep(s, f, a).calls[c] == s.calls[c]
    ensures Concerned(CallStep(s, f, a).fibers[f].at) != Some(c)
  {
  }

  lemma CallConcerns(s: Sys, f: FiberId, a: Action, c: nat)
    requires FiberEnabled(s, f, a) && !Job(a) && !a.Register? && !a.Awake? && !a.Judge?
    requires c in s.calls && Concerned(s.fibers[f].at) != Some(c)
    ensures c in CallStep(s, f, a).calls && CallStep(s, f, a).calls[c] == s.calls[c]
    ensures Concerned(CallStep(s, f, a).fibers[f].at) != Some(c)
  {
  }

  lemma JobConcerns(s: Sys, g: FiberId, a: Action, c: nat)
    requires FiberEnabled(s, g, a) && Job(a) && c in s.calls && Concerned(s.fibers[g].at) != Some(c)
    ensures c in JobStep(s, g, a).calls && JobStep(s, g, a).calls[c] == s.calls[c]
    ensures Concerned(JobStep(s, g, a).fibers[g].at) != Some(c)
  {
  }

  lemma ConcernsOne(s: Sys, f: FiberId, a: Action, c: nat)
    requires FiberEnabled(s, f, a) && c in s.calls && Concerned(s.fibers[f].at) != Some(c)
    ensures c in FiberStep(s, f, a).calls && FiberStep(s, f, a).calls[c] == s.calls[c]
    ensures Concerned(FiberStep(s, f, a).fibers[f].at) != Some(c)
  {
    if Job(a) {
      JobConcerns(s, f, a, c);
    } else if a.Register? {
      RegisterConcerns(s, f, a, c);
    } else if a.Awake? || a.Judge? {
      WokenConcerns(s, f, a, c);
    } else {
      CallConcerns(s, f, a, c);
    }
  }

  lemma ElsewhereMarks(s: Sys, f: FiberId, a: Action, c: nat)
    requires E.Sound(s.table) && Marked(s) && FiberEnabled(s, f, a) && c in s.calls
    requires Concerned(s.fibers[f].at) != Some(c)
    ensures c in FiberStep(s, f, a).calls
    ensures CallState(FiberStep(s, f, a).fibers, FiberStep(s, f, a).table.slots, c, FiberStep(s, f, a).calls[c])
  {
    var s' := FiberStep(s, f, a);
    ConcernsOne(s, f, a, c);
    FiberSlots(s, f, a);
    OtherMark(s.fibers, s.table.slots, s'.table.slots, f, s'.fibers[f], c, s.calls[c]);
  }

  lemma BeginMarks(s: Sys, f: FiberId, c: nat, call: IoCall)
    requires Timely(s) && f in s.fibers && c !in s.calls && call.fiber == f && !call.cancelled && !call.missed
    ensures CallState(Begun(s, f, c, call).fibers, s.table.slots, c, call)
  {
    forall g | g in Begun(s, f, c, call).fibers
      ensures Begun(s, f, c, call).fibers[g].at != Cancelling(c, call.k)
    {
      assert g in s.fibers && FiberSound(s.fibers, s.calls, g, s.fibers[g], s.now);
    }
    assert Standing(Begun(s, f, c, call).fibers, Cancelling(c, call.k)) == {};
  }

  lemma RearmMarks(s: Sys, f: FiberId, c: nat)
    requires Marked(s) && c in s.calls && f in s.fibers && s.calls[c].fiber == f && s.fibers[f].at == Try(c)
    ensures CallState(Rearmed(s, f, c).fibers, s.table.slots, c, Rearmed(s, f, c).calls[c])
  {
    OwnMark(s.fibers, s.table.slots, s.table.slots, f, Rearmed(s, f, c).fibers[f], c, s.calls[c],
            Rearmed(s, f, c).calls[c]);
  }

  lemma ParkMarks(s: Sys, f: FiberId, c: nat)
    requires Marked(s) && c in s.calls && f in s.fibers && s.calls[c].fiber == f && s.fibers[f].at == Armed(c)
    requires s.calls[c].k !in s.table.slots
    ensures var s' := Registered(s, f, c, true); c in s'.calls && CallState(s'.fibers, s'.table.slots, c, s'.calls[c])
  {
    var s' := Registered(s, f, c, true);
    OwnMark(s.fibers, s.table.slots, s'.table.slots, f, s'.fibers[f], c, s.calls[c], s.calls[c]);
  }

  lemma RefuseMarks(s: Sys, f: FiberId, c: nat, ok: bool)
    requires Marked(s) && c in s.calls && f in s.fibers && s.calls[c].fiber == f && s.fibers[f].at == Armed(c)
    requires s.calls[c].k in s.table.slots
    ensures var s' := Registered(s, f, c, ok); c in s'.calls && CallState(s'.fibers, s'.table.slots, c, s'.calls[c])
  {
    OwnMark(s.fibers, s.table.slots, s.table.slots, f, Fiber(s.fibers[f].state, Armed(c)), c, s.calls[c], s.calls[c]);
  }

  lemma RegisterMarks(s: Sys, f: FiberId, c: nat, ok: bool)
    requires Marked(s) && c in s.calls && f in s.fibers && s.calls[c].fiber == f && s.fibers[f].at == Armed(c)
    ensures var s' := Registered(s, f, c, ok); c in s'.calls && CallState(s'.fibers, s'.table.slots, c, s'.calls[c])
  {
    if s.calls[c].k in s.table.slots {
      RefuseMarks(s, f, c, ok);
    } else if ok {
      ParkMarks(s, f, c);
    }
  }

  lemma ContinueMarks(s: Sys, f: FiberId, c: nat)
    requires Marked(s) && c in s.calls && f in s.fibers && s.calls[c].fiber == f && s.fibers[f].at == Woken(Io(c))
    ensures CallState(Continued(s, f, Io(c)).fibers, s.table.slots, c, s.calls[c])
  {
    OwnMark(s.fibers, s.table.slots, s.table.slots, f, Continued(s, f, Io(c)).fibers[f], c, s.calls[c], s.calls[c]);
  }

  lemma JudgeMarks(s: Sys, f: FiberId, c: nat)
    requires Marked(s) && c in s.calls && f in s.fibers && s.calls[c].fiber == f && s.fibers[f].at == Judging(c)
    ensures c in Judged(s, f, c).calls && CallState(Judged(s, f, c).fibers, s.table.slots, c, Judged(s, f, c).calls[c])
  {
    if !s.calls[c].cancelled && s.calls[c].retries {
      OwnMark(s.fibers, s.table.slots, s.table.slots, f, Judged(s, f, c).fibers[f], c, s.calls[c], s.calls[c]);
    }
  }

  /** Marking the call makes its callback the one canceller. */
  lemma CheckMarks(s: Sys, g: FiberId, c: nat, k: E.Key)
    requires Marked(s) && c in s.calls && g in s.fibers && s.fibers[g].at == Checking(c, k) && s.calls[c].k == k
    ensures CallState(Checked(s, g, c, k).fibers, s.table.slots, c, Checked(s, g, c, k).calls[c])
  {
    StandingMove(s.fibers, g, Checked(s, g, c, k).fibers[g], Cancelling(c, k));
    assert CallState(s.fibers, s.table.slots, c, s.calls[c]);
  }

  /** A fiber in a slot is held by that slot alone, and waits. */
  lemma HeldOnce(s: Sys, k: E.Key, f: FiberId)
    requires Good(s) && k in s.table.slots && s.table.slots[k] == Fib(f)
    ensures E.Held(s.table.slots, Fib(f)) == 1 && f in s.fibers && Waiting(s.fibers[f])
    ensures E.Held(s.table.slots - {k}, Fib(f)) == 0
  {
    assert Fits(s, f);
    E.HeldAfterRemoval(s.table.slots, k, Fib(f));
  }

  /** The canceller either frees the fiber of the call or misses it. */
  lemma CancelMarks(s: Sys, g: FiberId, c: nat, k: E.Key, ok: bool)
    requires Good(s) && Marked(s) && c in s.calls && g in s.fibers && s.fibers[g].at == Cancelling(c, k)
    requires s.calls[c].k == k
    ensures var s' := Cancelled(s, g, c, k, ok); CallState(s'.fibers, s'.table.slots, c, s'.calls[c])
  {
    StandingMove(s.fibers, g, Cancelled(s, g, c, k, ok).fibers[g], Cancelling(c, k));
    assert CallState(s.fibers, s.table.slots, c, s.calls[c]);
    if s.calls[c].alive && Reaches(s, c, k, ok) {
      HeldOnce(s, k, s.calls[c].fiber);
    }
  }

  /** The call a step of its fiber is about. */
  lemma CallConcerned(s: Sys, f: FiberId, a: Action, c: nat)
    requires Timely(s) && Marked(s) && FiberEnabled(s, f, a) && !Job(a) && c in s.calls
    requires Concerned(s.fibers[f].at) == Some(c)
    ensures c in CallStep(s, f, a).calls
    ensures CallState(CallStep(s, f, a).fibers, CallStep(s, f, a).table.slots, c, CallStep(s, f, a).calls[c])
  {
    assert FiberSound(s.fibers, s.calls, f, s.fibers[f], s.now);
    match a
    case Again(_) => RearmMarks(s, f, c);
    case Register(_, ok) => RegisterMarks(s, f, c, ok);
    case Awake(_) => ContinueMarks(s, f, c);
    case Judge(_) => JudgeMarks(s, f, c);
    case _ =>
  }

  /** The call a callback checks or cancels. */
  lemma JobConcerned(s: Sys, g: FiberId, a: Action, c: nat)
    requires Good(s) && Timely(s) && Marked(s) && FiberEnabled(s, g, a) && Job(a) && c in s.calls
    requires Concerned(s.fibers[g].at) == Some(c)
    ensures c in JobStep(s, g, a).calls
    ensures CallState(JobStep(s, g, a).fibers, JobStep(s, g, a).table.slots, c, JobStep(s, g, a).calls[c])
  {
    assert FiberSound(s.fibers, s.calls, g, s.fibers[g], s.now);
    match a
    case RunCheck(_) => CheckMarks(s, g, c, s.fibers[g].at.k);
    case RunCancel(_, ok) => CancelMarks(s, g, c, s.fibers[g].at.k, ok);
    case _ =>
  }

  lemma ConcernedMarks(s: Sys, f: FiberId, a: Action, c: nat)
    requires Good(s) && Timely(s) && Marked(s) && FiberEnabled(s, f, a) && c in s.calls
    requires Concerned(s.fibers[f].at) == Some(c)
    ensures c in FiberStep(s, f, a).calls
    ensures CallState(FiberStep(s, f, a).fibers, FiberStep(s, f, a).table.slots, c, FiberStep(s, f, a).calls[c])
  {
    if Job(a) {
      JobConcerned(s, f, a, c);
    } else {
      CallConcerned(s, f, a, c);
    }
  }

  lemma FiberMarks(s: Sys, f: FiberId, a: Action)
    requires Good(s) && Timely(s) && Marked(s) && FiberEnabled(s, f, a)
    ensures Marked(FiberStep(s, f, a))
  {
    var s' := FiberStep(s, f, a);
    forall c | c in s'.calls
      ensures CallState(s'.fibers, s'.table.slots, c, s'.calls[c])
    {
      if c !in s.calls {
        BegunHere(s, f, a, c);
      } else if Concerned(s.fibers[f].at) == Some(c) {
        ConcernedMarks(s, f, a, c);
      } else {
        ElsewhereMarks(s, f, a, c);
      }
    }
  }

  lemma BegunHere(s: Sys, f: FiberId, a: Action, c: nat)
    requires Timely(s) && FiberEnabled(s, f, a) && c !in s.calls && c in FiberStep(s, f, a).calls
    requires Concerned(s.fibers[f].at).Some? ==> Concerned(s.fibers[f].at).value in s.calls
    ensures CallState(FiberStep(s, f, a).fibers, FiberStep(s, f, a).table.slots, c, FiberStep(s, f, a).calls[c])
  {
    BeginMarks(s, f, c, FiberStep(s, f, a).calls[c]);
  }

  // ---------- runs ----------

  lemma StepMarks(s: Sys, a: Action)
    requires Inv(s) && Timely(s) && Marked(s) && Enabled(s, a)
    ensures Marked(Step(s, a))
  {
    if a.Dequeue? {
      DequeueMarks(s, a.w, a.spare);
    } else if a.Leave? {
      LeaveMarks(s, a.w, a.exit);
    } else if Mover(a).Some? {
      FiberMarks(s, Mover(a).value, a);
    } else {
      OutsideMarks(s, a);
    }
  }

  lemma {:induction false} RunMarks(s: Sys, actions: seq<Action>, s': Sys)
    requires Inv(s) && Timely(s) && Marked(s) && Leads(s, actions, s')
    ensures Marked(s')
    decreases |actions|
  {
    if actions != [] {
      StepMarks(s, actions[0]);
      StepKeepsTokens(s, actions[0]);
      StepKeepsTime(s, actions[0]);
      RunMarks(Step(s, actions[0]), actions[1..], s');
    }
  }

  lemma ReachableMarked(s: Sys)
    requires Reachable(s)
    ensures Marked(s) && Good(s)
  {
    var s0: Sys, actions: seq<Action> :| Initial(s0) && Leads(s0, actions, s);
    InitialGood(s0);
    RunMarks(s0, actions, s);
    ReachableGood(s);
  }

  /** When a time limit is enforced: for a fiber that its event slot holds in a call with a limit, in
      every reachable state. Something is still to end the wait, namely a timer, a queued callback or
      one about to test a call that is not marked yet (one that finds the mark does nothing), or a
      callback that has marked the call and is about to cancel its event, exactly if no callback of
      the call has missed: marked it, and then not found its fiber in the slot or had epoll_ctl fail. */
  lemma LimitExactly(s: Sys, f: FiberId, c: nat)
    requires Reachable(s) && f in s.fibers && s.fibers[f].at in {Parked(Io(c)), Woken(Io(c))}
    requires c in s.calls && s.calls[c].to.Some? && s.calls[c].k in s.table.slots
    requires s.table.slots[s.calls[c].k] == Fib(f)
    ensures var call := s.calls[c];
            !call.missed <==>
            (!call.cancelled && Watchers(s, TimeoutOf(c, call)) > 0) || Cancellers(s.fibers, c, call) > 0
  {
    StateOf(s, f, c);
    LimitWatched(s, f, c);
  }

  lemma StateOf(s: Sys, f: FiberId, c: nat)
    requires Reachable(s) && f in s.fibers && s.fibers[f].at in {Parked(Io(c)), Woken(Io(c))}
    requires c in s.calls && s.calls[c].k in s.table.slots && s.table.slots[s.calls[c].k] == Fib(f)
    ensures s.calls[c].fiber == f && s.calls[c].alive && E.Held(s.table.slots, Fib(f)) == 1
    ensures CallState(s.fibers, s.table.slots, c, s.calls[c])
  {
    ReachableMarked(s);
    HeldOnce(s, s.calls[c].k, f);
    CallerOf(s, f, c);
  }

  lemma CallerOf(s: Sys, f: FiberId, c: nat)
    requires Reachable(s) && f in s.fibers && CallOf(s.fibers[f].at) == Some(c)
    ensures c in s.calls && s.calls[c].fiber == f && s.calls[c].alive
  {
    ReachableGood(s);
    assert FiberSound(s.fibers, s.calls, f, s.fibers[f], s.now);
  }

  // ---------- whose wait a late callback ends ----------

  /** The work is the fiber of call `c`, in that call. */
  predicate OwnWait(s: Sys, c: nat, w: Work<FiberId>)
    requires c in s.calls
  {
    var f := s.calls[c].fiber;
    w == Fib(f) && f in s.fibers && CallOf(s.fibers[f].at) == Some(c)
  }

  /** In a reachable state a call's fiber is in the call exactly until it returns. */
  lemma OwnWaitIs(s: Sys, c: nat, w: Work<FiberId>)
    requires Reachable(s) && c in s.calls
    ensures OwnWait(s, c, w) <==> s.calls[c].alive && w == Fib(s.calls[c].fiber)
  {
    ReachableMarked(s);
    ReachableGood(s);
    var f := s.calls[c].fiber;
    assert CallState(s.fibers, s.table.slots, c, s.calls[c]);
    assert f in s.fibers ==> FiberSound(s.fibers, s.calls, f, s.fibers[f], s.now);
  }

  /** What the last step of a timeout callback takes out of the table is the event of its key, if
      epoll_ctl succeeds, or nothing. */
  lemma CancelTakes(s: Sys, g: FiberId, c: nat, k: E.Key, ok: bool, j: E.Key)
    requires g in s.fibers && c in s.calls && j in s.table.slots
    ensures j !in Cancelled(s, g, c, k, ok).table.slots <==> ok && j == k
  {
  }

  /** A timeout callback cancels whatever is registered when it comes to it: in every reachable state
      it takes something other than its own call's wait exactly if epoll_ctl succeeds and the slot
      holds something else, the fiber of another call or a callback, whether its own call has returned
      or its fiber has just been woken otherwise. */
  lemma LateCancel(s: Sys, g: FiberId, ok: bool)
    requires Reachable(s) && Enabled(s, RunCancel(g, ok))
    ensures var c, k, slots := s.fibers[g].at.call, s.fibers[g].at.k, s.table.slots;
            (exists j :: j in slots && j !in Step(s, RunCancel(g, ok)).table.slots && !OwnWait(s, c, slots[j]))
            <==> ok && k in slots && !(s.calls[c].alive && slots[k] == Fib(s.calls[c].fiber))
  {
    var c, k, slots := s.fibers[g].at.call, s.fibers[g].at.k, s.table.slots;
    forall j | j in slots
      ensures j !in Step(s, RunCancel(g, ok)).table.slots <==> ok && j == k
      ensures OwnWait(s, c, slots[j]) <==> s.calls[c].alive && slots[j] == Fib(s.calls[c].fiber)
    {
      CancelTakes(s, g, c, k, ok, j);
      OwnWaitIs(s, c, slots[j]);
    }
  }

  /** It changes nothing but its own progress and the note of a miss exactly if the guard or epoll_ctl
      stops it. */
  lemma CancelStops(s: Sys, g: FiberId, c: nat, k: E.Key, ok: bool)
    requires g in s.fibers && c in s.calls && s.failure.None?
    ensures Cancelled(s, g, c, k, ok) == Noted(s, g, c, k, ok) <==> !ok || !E.Guard(s.table, k, s.intended)
  {
    if ok && k in s.table.slots {
      CancelTakes(s, g, c, k, ok, k);
    }
  }
}
