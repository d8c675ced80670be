/** The I/O manager's table of descriptors as objects, each operation proved to do what EventSpec
    says. epoll is a map from descriptors to event masks; whether epoll_ctl has any other reason to
    fail is a parameter, `up`. */
module EventTables {
  import opened Basics
  import opened Tasks
  import S = SchedulerSpec
  import opened Fibers
  import opened Schedulers
  import E = EventSpec

  const READ_BIT: bv8 := 1
  const WRITE_BIT: bv8 := 4
  const ERROR_BITS: bv8 := 24   // EPOLLERR | EPOLLHUP

  function Bit(e: Event): bv8 {
    if e.READ? then READ_BIT else WRITE_BIT
  }

  function MaskOf(bits: bv8): E.Mask {
    E.Mask(bits & READ_BIT != 0, bits & WRITE_BIT != 0)
  }

  datatype Op = ADD | MOD | DEL

  /** What an operation returns, unless an assertion fails. */
  datatype Outcome = Returned(value: bool) | Aborted

  class FdContext {
    const fd: nat
    var events: bv8
    var read: Work<Fiber>
    var write: Work<Fiber>

    constructor (fd: nat)
      ensures this.fd == fd && events == 0 && Valid()
    {
      this.fd, events, read, write := fd, 0, Nothing, Nothing;
    }

    predicate Registered(e: Event)
      reads this
    {
      events & Bit(e) != 0
    }

    function Slot(e: Event): Work<Fiber>
      reads this
    {
      if e.READ? then read else write
    }

    /** A slot is in use iff its bit is set, and there are no other bits. */
    ghost predicate Valid()
      reads this
    {
      && (Registered(READ) <==> !read.Nothing?)
      && (Registered(WRITE) <==> !write.Nothing?)
      && events & (READ_BIT | WRITE_BIT) == events
    }

    /** Fill the slot of an event that is not registered. */
    method Set(e: Event, work: Work<Fiber>)
      requires Valid() && !Registered(e) && !work.Nothing?
      modifies this
      ensures Valid() && events == old(events) | Bit(e)
      ensures forall x :: Registered(x) <==> x == e || old(Registered(x))
      ensures forall x :: Slot(x) == if x == e then work else old(Slot(x))
    {
      events := events | Bit(e);
      if e.READ? {
        read := work;
      } else {
        write := work;
      }
      BitsSet(old(events), e);
    }

    /** resetContext, with the event taken out of the mask. */
    method Unset(e: Event)
      requires Valid()
      modifies this
      ensures Valid() && events == old(events) & !Bit(e)
      ensures forall x :: Registered(x) <==> x != e && old(Registered(x))
      ensures forall x :: Slot(x) == if x == e then Nothing else old(Slot(x))
    {
      events := events & !Bit(e);
      if e.READ? {
        read := Nothing;
      } else {
        write := Nothing;
      }
      BitsUnset(old(events), e);
    }

    /** triggerEvent: hand the slot's work to the scheduler; false where the assertion fails. */
    method TriggerEvent(e: Event, scheduler: Scheduler) returns (ok: bool)
      requires Valid() && scheduler.Valid()
      modifies this, scheduler`tasks
      ensures Valid() && scheduler.Valid() && ok == old(Registered(e))
      ensures ok ==> events == old(events) & !Bit(e)
      ensures ok ==> scheduler.tasks == S.Scheduled(old(scheduler.tasks), old(Slot(e)), ANY)
      ensures ok ==> forall x :: Registered(x) <==> x != e && old(Registered(x))
      ensures ok ==> forall x :: Slot(x) == if x == e then Nothing else old(Slot(x))
      ensures !ok ==>
                events == old(events) && scheduler.tasks == old(scheduler.tasks) && forall x :: Slot(x) == old(Slot(x))
    {
      if events & Bit(e) == 0 {
        return false;
      }
      events := events & !Bit(e);
      if e.READ? {
        read := scheduler.ScheduleOut(read, ANY);
      } else {
        write := scheduler.ScheduleOut(write, ANY);
      }
      BitsUnset(old(events), e);
      return true;
    }
  }

  lemma BitsSet(events: bv8, e: Event)
    ensures (events | Bit(e)) & Bit(e) != 0
    ensures forall x :: x != e ==> (events | Bit(e)) & Bit(x) == events & Bit(x)
    ensures events & (READ_BIT | WRITE_BIT) == events ==> (events | Bit(e)) & (READ_BIT | WRITE_BIT) == events | Bit(e)
  {
  }

  lemma BitsUnset(events: bv8, e: Event)
    ensures (events & !Bit(e)) & Bit(e) == 0
    ensures forall x :: x != e ==> (events & !Bit(e)) & Bit(x) == events & Bit(x)
    ensures events & (READ_BIT | WRITE_BIT) == events ==>
              (events & !Bit(e)) & (READ_BIT | WRITE_BIT) == events & !Bit(e)
  {
  }

  class EventTable {
    var contexts: seq<FdContext>
    var pending: int
    var epoll: map<nat, bv8>
    const scheduler: Scheduler
    ghost var slots: map<E.Key, Work<Fiber>>

    ghost function Table(): E.Table<Fiber>
      reads this
    {
      E.Table(slots, pending)
    }

    /** The slots of descriptor `fd` are those of the table. */
    ghost predicate Slotted(fd: nat)
      reads this, contexts
      requires fd < |contexts|
    {
      var ctx := contexts[fd];
      && ctx.Valid()
      && (forall e :: ctx.Registered(e) <==> (fd, e) in slots)
      && (forall e :: (fd, e) in slots ==> slots[(fd, e)] == ctx.Slot(e))
    }

    /** Besides, epoll watches its registered events, and does not know it when there are none. */
    ghost predicate Context(fd: nat)
      reads this, contexts
      requires fd < |contexts|
    {
      && Slotted(fd)
      && (if contexts[fd].events == 0 then fd !in epoll else fd in epoll && epoll[fd] == contexts[fd].events)
    }

    ghost predicate Valid()
      reads this, contexts, scheduler
    {
      && |contexts| >= 32 && scheduler.Valid()
      && (forall fd :: 0 <= fd < |contexts| ==> contexts[fd].fd == fd)
      && (forall fd :: 0 <= fd < |contexts| ==> Context(fd))
      && (forall k :: k in slots ==> k.0 < |contexts|)
      && (forall fd :: fd in epoll ==> fd < |contexts|)
    }

    constructor (scheduler: Scheduler)
      requires scheduler.Valid()
      ensures Valid() && this.scheduler == scheduler && Table() == E.Table(map[], 0) && fresh(contexts)
    {
      this.scheduler := scheduler;
      contexts, pending, epoll, slots := [], 0, map[], map[];
      new;
      ContextResize(32);
    }

    /** contextResize to more descriptors. */
    method ContextResize(size: nat)
      requires size >= |contexts| && size >= 32 && scheduler.Valid()
      requires forall fd :: 0 <= fd < |contexts| ==> contexts[fd].fd == fd && Context(fd)
      requires forall k :: k in slots ==> k.0 < |contexts|
      requires forall fd :: fd in epoll ==> fd < |contexts|
      modifies this`contexts
      ensures Valid() && |contexts| == size && contexts[..|old(contexts)|] == old(contexts)
      ensures forall i :: |old(contexts)| <= i < size ==> fresh(contexts[i])
    {
      while |contexts| < size
        invariant |old(contexts)| <= |contexts| <= size && contexts[..|old(contexts)|] == old(contexts)
        invariant forall fd :: 0 <= fd < |contexts| ==> contexts[fd].fd == fd
        invariant forall fd :: 0 <= fd < |contexts| ==> Context(fd)
        invariant forall i :: |old(contexts)| <= i < |contexts| ==> fresh(contexts[i])
        invariant forall k :: k in slots ==> k.0 < |contexts|
        invariant forall fd :: fd in epoll ==> fd < |contexts|
      {
        var ctx := new FdContext(|contexts|);
        ghost var n := |contexts|;
        assert (n, READ) !in slots && (n, WRITE) !in slots && n !in epoll;
        label Before:
        contexts := contexts + [ctx];
        forall i | 0 <= i < n
          ensures Context(i)
        {
          assert old@Before(Context(i));
        }
        assert contexts[n] == ctx && Context(n);
      }
    }

    /** epoll_ctl: besides any other reason, adding fails for a watched descriptor and changing or
        deleting for another. */
    method EpollCtl(op: Op, fd: nat, mask: bv8, up: bool) returns (ok: bool)
      modifies this`epoll
      ensures ok == (up && (op == ADD <==> fd !in old(epoll)))
      ensures epoll == if !ok then old(epoll) else if op == DEL then old(epoll) - {fd} else old(epoll)[fd := mask]
    {
      if !up || (op == ADD) != (fd !in epoll) {
        return false;
      }
      epoll := if op == DEL then epoll - {fd} else epoll[fd := mask];
      return true;
    }

    lemma EventsAre(fd: nat)
      requires Valid() && fd < |contexts|
      ensures MaskOf(contexts[fd].events) == E.Events(Table(), fd)
      ensures contexts[fd].events == 0 <==> E.Events(Table(), fd) == E.EMPTY
    {
      assert Context(fd);
    }

    lemma OutOfRange(fd: nat)
      requires Valid() && fd >= |contexts|
      ensures (fd, READ) !in slots && (fd, WRITE) !in slots && fd !in epoll
    {
    }

    /** When one descriptor has been changed and is as it should be, all are. */
    twostate lemma OneChanged(fd: nat)
      requires old(Valid()) && contexts == old(contexts) && fd < |contexts| && scheduler.Valid()
      requires forall i :: 0 <= i < |contexts| && i != fd ==>
                             contexts[i].events == old(contexts[i].events) && contexts[i].read == old(contexts[i].read)
                             && contexts[i].write == old(contexts[i].write)
      requires forall k :: k in slots || k in old(slots) ==>
                             k.0 == fd || (k in slots && k in old(slots) && slots[k] == old(slots[k]))
      requires forall i :: i in epoll || i in old(epoll) ==>
                             i == fd || (i in epoll && i in old(epoll) && epoll[i] == old(epoll[i]))
      requires Context(fd)
      ensures Valid()
    {
      forall i | 0 <= i < |contexts| && i != fd
        ensures Context(i)
      {
        assert old(Context(i));
        assert forall e :: (i, e) in slots <==> (i, e) in old(slots);
      }
    }

    /** addEvent. The work is the callback, or without one the running fiber. */
    method AddEvent(fd: nat, e: Event, cb: Option<Callback>, self: Fiber, up: bool) returns (r: Outcome)
      requires Valid() && (cb.None? ==> self.state == EXEC)
      modifies this`contexts, this`pending, this`epoll, this`slots, contexts
      ensures var spec := E.Add(old(Table()), (fd, e), if cb.Some? then Call(cb.value) else Fib(self), up);
              match spec
              case Abort => r == Aborted
              case Done(table, _, value) => r == Returned(value) && Valid() && Table() == table
      ensures r == Aborted <==> (fd, e) in old(slots)
      ensures |contexts| == if |old(contexts)| <= fd then fd * 3 / 2 else |old(contexts)|
      ensures r != Aborted ==>
                && r == Returned(up)
                && (up ==> slots == old(slots)[(fd, e) := if cb.Some? then Call(cb.value) else Fib(self)])
                && (!up ==> slots == old(slots))
    {
      if |contexts| <= fd {
        OutOfRange(fd);
        ContextResize(fd * 3 / 2);
      }
      r := Register(contexts[fd], e, if cb.Some? then Call(cb.value) else Fib(self), up);
    }

    /** The part of addEvent under the descriptor's lock. */
    method Register(ctx: FdContext, e: Event, work: Work<Fiber>, up: bool) returns (r: Outcome)
      requires Valid() && ctx.fd < |contexts| && contexts[ctx.fd] == ctx && !work.Nothing?
      modifies this`pending, this`epoll, this`slots, ctx
      ensures match E.Add(old(Table()), (ctx.fd, e), work, up)
              case Abort => r == Aborted
              case Done(table, _, value) => r == Returned(value) && Valid() && Table() == table
    {
      assert Context(ctx.fd);
      if ctx.events & Bit(e) != 0 {
        return Aborted;
      }
      var op := if ctx.events != 0 then MOD else ADD;
      var ok := EpollCtl(op, ctx.fd, ctx.events | Bit(e), up);
      if !ok {
        return Returned(false);
      }
      pending := pending + 1;
      ctx.Set(e, work);
      slots := slots[(ctx.fd, e) := work];
      assert ctx.Registered(e);
      OneChanged(ctx.fd);
      return Returned(true);
    }

    /** The guard of delEvent and cancelEvent as it is written. */
    method PassesGuard(fd: nat, e: Event) returns (passes: bool)
      requires Valid() && fd < |contexts|
      ensures passes == E.Guard(Table(), (fd, e), false)
    {
      EventsAre(fd);
      var negated: bv8 := if contexts[fd].events == 0 then 1 else 0;
      passes := negated & Bit(e) == 0;
    }

    /** delEvent: the event goes without its work being run. */
    method DelEvent(fd: nat, e: Event, up: bool) returns (r: Outcome)
      requires Valid()
      modifies this`pending, this`epoll, this`slots, contexts
      ensures Valid() && contexts == old(contexts)
      ensures var ok := up && E.Events(old(Table()), fd) != E.EMPTY;
              var spec := E.Delete(old(Table()), (fd, e), ok, false);
              r == Returned(spec.value) && Table() == spec.table
      ensures up && (fd, e) in old(slots) ==> r == Returned(true)
      ensures r == Returned(true) ==> fd < |contexts| && !contexts[fd].Registered(e)
      ensures slots == if r == Returned(true) then old(slots) - {(fd, e)} else old(slots)
    {
      if |contexts| <= fd {
        OutOfRange(fd);
        return Returned(false);
      }
      EventsAre(fd);
      var passes := PassesGuard(fd, e);
      if !passes {
        return Returned(false);
      }
      var ctx := contexts[fd];
      assert Context(fd);
      var left := ctx.events & !Bit(e);
      var ok := EpollCtl(if left != 0 then MOD else DEL, fd, left, up);
      if !ok {
        return Returned(false);
      }
      pending := pending - 1;
      ctx.Unset(e);
      slots := slots - {(fd, e)};
      OneChanged(fd);
      return Returned(true);
    }

    /** cancelEvent: the event goes and its work is scheduled. */
    method CancelEvent(fd: nat, e: Event, up: bool) returns (r: Outcome)
      requires Valid()
      modifies this`pending, this`epoll, this`slots, contexts, scheduler`tasks
      ensures var ok := up && E.Events(old(Table()), fd) != E.EMPTY;
              match E.Cancel(old(Table()), (fd, e), ok, false)
              case Abort => r == Aborted
              case Done(table, woken, value) =>
                && r == Returned(value) && Valid() && Table() == table
                && scheduler.tasks == S.ScheduledAll(old(scheduler.tasks), woken)
      ensures up && (fd, e) in old(slots) ==>
                && r == Returned(true) && slots == old(slots) - {(fd, e)}
                && scheduler.tasks == old(scheduler.tasks) + [Task(old(slots)[(fd, e)], -1)]
    {
      if |contexts| <= fd {
        OutOfRange(fd);
        return Returned(false);
      }
      EventsAre(fd);
      var passes := PassesGuard(fd, e);
      if !passes {
        return Returned(false);
      }
      var ctx := contexts[fd];
      assert Context(fd);
      var left := ctx.events & !Bit(e);
      var ok := EpollCtl(if left != 0 then MOD else DEL, fd, left, up);
      if !ok {
        return Returned(false);
      }
      ghost var works := [ctx.Slot(e)];
      ok := ctx.TriggerEvent(e, scheduler);
      if !ok {
        return Aborted;
      }
      assert works[1..] == [];
      slots := slots - {(fd, e)};
      pending := pending - 1;
      OneChanged(fd);
      return Returned(true);
    }

    /** Trigger an event if it is asked for, and count it; false where triggerEvent's assertion fails. */
    method Fire(fd: nat, e: Event, asked: bool) returns (ok: bool)
      requires fd < |contexts| && Slotted(fd) && scheduler.Valid()
      modifies this`pending, this`slots, contexts[fd], scheduler`tasks
      ensures ok == (asked ==> old(contexts[fd].Registered(e)))
      ensures ok ==>
                && Slotted(fd) && scheduler.Valid()
                && contexts[fd].events ==
                   (if asked then old(contexts[fd].events) & !Bit(e) else old(contexts[fd].events))
                && Table() == E.Fired(old(Table()), (fd, e), asked).0
                && scheduler.tasks == S.ScheduledAll(old(scheduler.tasks), E.Fired(old(Table()), (fd, e), asked).1)
    {
      if !asked {
        return true;
      }
      ghost var works := [contexts[fd].Slot(e)];
      assert works[1..] == [];
      ok := contexts[fd].TriggerEvent(e, scheduler);
      if ok {
        pending := pending - 1;
        slots := slots - {(fd, e)};
      }
    }

    /** Both events of a descriptor, reading first. */
    method FireBoth(fd: nat, reading: bool, writing: bool) returns (ok: bool)
      requires fd < |contexts| && Slotted(fd) && scheduler.Valid()
      modifies this`pending, this`slots, contexts[fd], scheduler`tasks
      ensures ok ==
              ((reading ==> old(contexts[fd].Registered(READ))) && (writing ==> old(contexts[fd].Registered(WRITE))))
      ensures ok ==>
                var r := E.Woken(old(Table()), fd, E.Mask(reading, writing));
                && Slotted(fd) && scheduler.Valid() && Table() == r.0
                && scheduler.tasks == S.ScheduledAll(old(scheduler.tasks), r.1)
    {
      ghost var t0, q0 := Table(), scheduler.tasks;
      ok := Fire(fd, READ, reading);
      if !ok {
        return;
      }
      ghost var t1 := Table();
      ok := Fire(fd, WRITE, writing);
      S.ScheduledAllTwice(q0, E.Fired(t0, (fd, READ), reading).1, E.Fired(t1, (fd, WRITE), writing).1);
    }

    /** cancelAll: every registered event of the descriptor goes and its work is scheduled. */
    method CancelAll(fd: nat, up: bool) returns (r: Outcome)
      requires Valid()
      modifies this`pending, this`epoll, this`slots, contexts, scheduler`tasks
      ensures Valid()
      ensures var spec := E.CancelAll(old(Table()), fd, up);
              r == Returned(spec.value) && Table() == spec.table
              && scheduler.tasks == S.ScheduledAll(old(scheduler.tasks), spec.woken)
    {
      if |contexts| <= fd {
        OutOfRange(fd);
        return Returned(false);
      }
      EventsAre(fd);
      var ctx := contexts[fd];
      assert Context(fd);
      if ctx.events == 0 {
        return Returned(false);
      }
      var ok := EpollCtl(DEL, fd, 0, up);
      if !ok {
        return Returned(false);
      }
      ok := FireBoth(fd, ctx.events & READ_BIT != 0, ctx.events & WRITE_BIT != 0);
      OneChanged(fd);
      return Returned(true);
    }

    /** idle's treatment of one report of epoll_wait: `bits` are EPOLLIN, EPOLLOUT, EPOLLERR and
        EPOLLHUP, of which the last two stand for all registered events. */
    method Deliver(fd: nat, bits: bv8, up: bool) returns (r: Outcome)
      requires Valid() && fd < |contexts|
      modifies this`pending, this`epoll, this`slots, contexts, scheduler`tasks
      ensures match E.Deliver(old(Table()), fd, MaskOf(bits), bits & ERROR_BITS != 0, up)
              case Abort => r == Aborted
              case Done(table, woken, value) =>
                && r == Returned(value) && Valid() && Table() == table
                && scheduler.tasks == S.ScheduledAll(old(scheduler.tasks), woken)
    {
      var ctx := contexts[fd];
      assert Context(fd);
      EventsAre(fd);
      var events := bits;
      if bits & ERROR_BITS != 0 {
        events := events | ((READ_BIT | WRITE_BIT) & ctx.events);
      }
      BitsHit(bits, ctx.events);
      var realEvents: bv8 := 0;
      if events & READ_BIT != 0 {
        realEvents := realEvents | READ_BIT;
      }
      if events & WRITE_BIT != 0 {
        realEvents := realEvents | WRITE_BIT;
      }
      assert MaskOf(realEvents) == E.Hit(Table(), fd, MaskOf(bits), bits & ERROR_BITS != 0);
      BitsBoth(ctx.events, realEvents);
      if ctx.events & realEvents == 0 {
        return Returned(false);
      }
      var left := ctx.events & !realEvents;
      var ok := EpollCtl(if left != 0 then MOD else DEL, fd, left, up);
      if !ok {
        return Returned(false);
      }
      ok := FireBoth(fd, realEvents & READ_BIT != 0, realEvents & WRITE_BIT != 0);
      if !ok {
        return Aborted;
      }
      OneChanged(fd);
      return Returned(true);
    }
  }

  /** What the masking of errors and hang-ups comes to. */
  lemma BitsHit(bits: bv8, events: bv8)
    ensures (bits | ((READ_BIT | WRITE_BIT) & events)) & READ_BIT != 0 <==>
            bits & READ_BIT != 0 || events & READ_BIT != 0
    ensures (bits | ((READ_BIT | WRITE_BIT) & events)) & WRITE_BIT != 0 <==>
            bits & WRITE_BIT != 0 || events & WRITE_BIT != 0
  {
  }

  lemma BitsBoth(events: bv8, hit: bv8)
    requires events & (READ_BIT | WRITE_BIT) == events
    ensures events & hit == 0 <==> E.Both(MaskOf(events), MaskOf(hit)) == E.EMPTY
    ensures MaskOf(events & !hit) == E.Minus(MaskOf(events), MaskOf(hit))
  {
  }
}
