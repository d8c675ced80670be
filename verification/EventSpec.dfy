/** The table of registered events as a value, and what each operation of the I/O manager does to
    it. `ok` tells whether epoll_ctl succeeds. */
module EventSpec {
  import opened Tasks

  type Key = (nat, Event)

  /** One slot for every registered event of a descriptor, and the pending-event counter. */
  datatype Table<F> = Table(slots: map<Key, Work<F>>, pending: int)

  /** A set of events. */
  datatype Mask = Mask(read: bool, write: bool)

  const EMPTY := Mask(false, false)

  predicate Within(a: Mask, b: Mask) {
    (a.read ==> b.read) && (a.write ==> b.write)
  }

  function Both(a: Mask, b: Mask): Mask {
    Mask(a.read && b.read, a.write && b.write)
  }

  function Minus(a: Mask, b: Mask): Mask {
    Mask(a.read && !b.read, a.write && !b.write)
  }

  /** The table afterwards, the work handed to the scheduler in order, and the value returned;
      or a failed assertion, which ends the process. */
  datatype Result<F> = Done(table: Table<F>, woken: seq<Work<F>>, value: bool) | Abort

  /** Every slot is in use. */
  predicate Sound<F>(t: Table<F>) {
    forall k :: k in t.slots ==> !t.slots[k].Nothing?
  }

  /** By how much the counter is short of the number of registered events. */
  function Short<F>(t: Table<F>): int {
    |t.slots| - t.pending
  }

  /** The registered events of a descriptor. */
  function Events<F>(t: Table<F>, fd: nat): Mask {
    Mask((fd, READ) in t.slots, (fd, WRITE) in t.slots)
  }

  function Add<F>(t: Table<F>, k: Key, work: Work<F>, ok: bool): Result<F> {
    if k in t.slots then Abort
    else if !ok then Done(t, [], false)
    else Done(Table(t.slots[k := work], t.pending + 1), [], true)
  }

  /** The test before an event is deleted or cancelled. It was meant to ask whether the event is
      registered; as written, the negation applies to the mask alone, which becomes 0 or 1. */
  predicate Guard<F>(t: Table<F>, k: Key, intended: bool) {
    if intended then k in t.slots else Events(t, k.0) != EMPTY || k.1 == WRITE
  }

  function Delete<F>(t: Table<F>, k: Key, ok: bool, intended: bool): Result<F> {
    if !Guard(t, k, intended) || !ok then Done(t, [], false)
    else Done(Table(t.slots - {k}, t.pending - 1), [], true)
  }

  function Cancel<F>(t: Table<F>, k: Key, ok: bool, intended: bool): Result<F> {
    if !Guard(t, k, intended) || !ok then Done(t, [], false)
    else if k !in t.slots then Abort
    else Done(Table(t.slots - {k}, t.pending - 1), [t.slots[k]], true)
  }

  /** Trigger the event if it is asked for and registered. */
  function Fired<F>(t: Table<F>, k: Key, asked: bool): (Table<F>, seq<Work<F>>) {
    if asked && k in t.slots then (Table(t.slots - {k}, t.pending - 1), [t.slots[k]]) else (t, [])
  }

  /** Trigger the events of `hit`, reading first. */
  function Woken<F>(t: Table<F>, fd: nat, hit: Mask): (Table<F>, seq<Work<F>>) {
    var (t1, w1) := Fired(t, (fd, READ), hit.read);
    var (t2, w2) := Fired(t1, (fd, WRITE), hit.write);
    (t2, w1 + w2)
  }

  function CancelAll<F>(t: Table<F>, fd: nat, ok: bool): Result<F> {
    if Events(t, fd) == EMPTY || !ok then Done(t, [], false)
    else Done(Woken(t, fd, Mask(true, true)).0, Woken(t, fd, Mask(true, true)).1, true)
  }

  /** The events a report of epoll stands for: an error or a hang-up stands for all registered. */
  function Hit<F>(t: Table<F>, fd: nat, reported: Mask, failed: bool): Mask {
    if failed then Mask(reported.read || Events(t, fd).read, reported.write || Events(t, fd).write) else reported
  }

  /** idle's treatment of one report. */
  function Deliver<F>(t: Table<F>, fd: nat, reported: Mask, failed: bool, ok: bool): Result<F> {
    var hit := Hit(t, fd, reported, failed);
    if Both(Events(t, fd), hit) == EMPTY || !ok then Done(t, [], false)
    else if !Within(hit, Events(t, fd)) then Abort
    else Done(Woken(t, fd, hit).0, Woken(t, fd, hit).1, true)
  }

  // ---------- conservation ----------

  function KeysOf<F(==)>(slots: map<Key, Work<F>>, w: Work<F>): set<Key> {
    set k | k in slots && slots[k] == w
  }

  /** How many slots hold `w`. */
  function Held<F(==)>(slots: map<Key, Work<F>>, w: Work<F>): nat {
    |KeysOf(slots, w)|
  }

  lemma HeldAfterRemoval<F>(slots: map<Key, Work<F>>, k: Key, w: Work<F>)
    requires k in slots
    ensures Held(slots, w) == Held(slots - {k}, w) + if slots[k] == w then 1 else 0
    ensures |slots - {k}| == |slots| - 1
  {
    assert KeysOf(slots - {k}, w) == KeysOf(slots, w) - {k};
    assert slots.Keys == (slots - {k}).Keys + {k};
  }

  lemma HeldAfterAdd<F>(slots: map<Key, Work<F>>, k: Key, work: Work<F>, w: Work<F>)
    requires k !in slots
    ensures Held(slots[k := work], w) == Held(slots, w) + if work == w then 1 else 0
    ensures |slots[k := work]| == |slots| + 1
  {
    assert slots[k := work] - {k} == slots;
    HeldAfterRemoval(slots[k := work], k, w);
  }

  /** The registrations missing from `t1` are exactly the work handed over, each once. */
  ghost predicate Consumes<F(!new)>(t: Table<F>, t1: Table<F>, woken: seq<Work<F>>) {
    && Sound(t1) && Short(t1) == Short(t)
    && (forall k :: k in t1.slots ==> k in t.slots && t1.slots[k] == t.slots[k])
    && |t.slots| == |t1.slots| + |woken|
    && forall w :: Held(t.slots, w) == Held(t1.slots, w) + multiset(woken)[w]
  }

  lemma FiredConsumes<F(!new)>(t: Table<F>, k: Key, asked: bool)
    requires Sound(t)
    ensures Consumes(t, Fired(t, k, asked).0, Fired(t, k, asked).1)
  {
    if asked && k in t.slots {
      forall w
        ensures Held(t.slots, w) == Held(t.slots - {k}, w) + multiset([t.slots[k]])[w]
      {
        HeldAfterRemoval(t.slots, k, w);
      }
      HeldAfterRemoval(t.slots, k, t.slots[k]);
    }
  }

  lemma ConsumesTwice<F(!new)>(t: Table<F>, t1: Table<F>, w1: seq<Work<F>>, t2: Table<F>, w2: seq<Work<F>>)
    requires Consumes(t, t1, w1) && Consumes(t1, t2, w2)
    ensures Consumes(t, t2, w1 + w2)
  {
    assert multiset(w1 + w2) == multiset(w1) + multiset(w2);
  }

  lemma WokenConsumes<F(!new)>(t: Table<F>, fd: nat, hit: Mask)
    requires Sound(t)
    ensures Consumes(t, Woken(t, fd, hit).0, Woken(t, fd, hit).1)
  {
    var (t1, w1) := Fired(t, (fd, READ), hit.read);
    var (t2, w2) := Fired(t1, (fd, WRITE), hit.write);
    FiredConsumes(t, (fd, READ), hit.read);
    FiredConsumes(t1, (fd, WRITE), hit.write);
    ConsumesTwice(t, t1, w1, t2, w2);
  }

  lemma NothingConsumed<F(!new)>(t: Table<F>)
    requires Sound(t)
    ensures Consumes(t, t, [])
  {
  }

  /** Of the registrations exactly those of `gone` are taken out; the others stay as they are. */
  ghost predicate Drops<F(!new)>(t: Table<F>, t1: Table<F>, gone: set<Key>) {
    && (forall k :: k in t1.slots <==> k in t.slots && k !in gone)
    && forall k :: k in t1.slots ==> t1.slots[k] == t.slots[k]
  }

  /** A registration, if there is one and it is asked for. */
  function Slot<F>(t: Table<F>, k: Key, asked: bool): seq<Work<F>> {
    if asked && k in t.slots then [t.slots[k]] else []
  }

  /** An add puts its work into the slot, if epoll_ctl succeeds, and touches no other; an event that is
      registered already fails its assertion. The counter goes on being as short as it was. */
  lemma AddConserves<F>(t: Table<F>, k: Key, work: Work<F>, ok: bool)
    requires Sound(t) && !work.Nothing?
    ensures Add(t, k, work, ok).Done? <==> k !in t.slots
    ensures var r := Add(t, k, work, ok); r.Done? ==> Sound(r.table) && Short(r.table) == Short(t)
    ensures var r := Add(t, k, work, ok);
            r.Done? ==>
              && (r.value <==> ok) && r.woken == []
              && if ok then k in r.table.slots && r.table.slots[k] == work && r.table.slots - {k} == t.slots
                 else r.table == t
  {
    assert k !in t.slots ==> t.slots[k := work] - {k} == t.slots;
    if k !in t.slots {
      HeldAfterAdd(t.slots, k, work, work);
    }
  }

  /** Cancelling hands over the cancelled registration and nothing else. */
  lemma CancelConsumes<F(!new)>(t: Table<F>, k: Key, ok: bool, intended: bool)
    requires Sound(t)
    ensures var r := Cancel(t, k, ok, intended);
            && (r.Done? ==> Consumes(t, r.table, r.woken))
            && (r.Done? && r.value ==> r.table.slots == t.slots - {k} && r.woken == [t.slots[k]])
            && (k in t.slots ==> r.Done? && r.value == ok)
            && (r.Done? && !r.value ==> r.table == t && r.woken == [])
  {
    FiredConsumes(t, k, true);
    NothingConsumed(t);
  }

  /** epoll_ctl changes the mask of a watched descriptor only. */
  predicate Watching<F>(t: Table<F>, fd: nat, ok: bool) {
    ok ==> Events(t, fd) != EMPTY
  }

  /** With the guard in the code, cancelling fails exactly for an event that is not registered
      while another one of the descriptor is, so that epoll_ctl succeeds. */
  lemma CancelFails<F>(t: Table<F>, k: Key, ok: bool, intended: bool)
    requires Watching(t, k.0, ok)
    ensures Cancel(t, k, ok, intended).Abort? <==> ok && k !in t.slots && !intended
  {
  }

  /** With the guard in the code, deleting makes the counter one short exactly for such an event. */
  lemma DeleteConserves<F>(t: Table<F>, k: Key, ok: bool, intended: bool)
    requires Sound(t) && Watching(t, k.0, ok)
    ensures var r := Delete(t, k, ok, intended);
            && r.Done? && Sound(r.table) && r.woken == []
            && Short(r.table) == Short(t) + if ok && k !in t.slots && !intended then 1 else 0
  {
    if k in t.slots {
      HeldAfterRemoval(t.slots, k, t.slots[k]);
    } else {
      assert t.slots - {k} == t.slots;
    }
  }

  /** A successful delete takes the registration out, hands it to nobody and leaves the others; it
      succeeds exactly if epoll_ctl does and, with the intended guard, the event is registered. */
  lemma DeleteRemoves<F(!new)>(t: Table<F>, k: Key, ok: bool, intended: bool)
    requires Watching(t, k.0, ok)
    ensures var r := Delete(t, k, ok, intended);
            && r.Done? && r.woken == [] && (r.value <==> ok && (k in t.slots || !intended))
            && Drops(t, r.table, if r.value then {k} else {})
            && (!r.value ==> r.table == t)
  {
  }

  lemma CancelAllConsumes<F(!new)>(t: Table<F>, fd: nat, ok: bool)
    requires Sound(t)
    ensures var r := CancelAll(t, fd, ok);
            && Consumes(t, r.table, r.woken)
            && (r.value <==> ok && Events(t, fd) != EMPTY)
            && (r.value ==> Events(r.table, fd) == EMPTY)
            && Drops(t, r.table, if r.value then {(fd, READ), (fd, WRITE)} else {})
            && r.woken == Slot(t, (fd, READ), r.value) + Slot(t, (fd, WRITE), r.value)
  {
    WokenConsumes(t, fd, Mask(true, true));
    NothingConsumed(t);
  }

  lemma DeliverFails<F>(t: Table<F>, fd: nat, reported: Mask, failed: bool, ok: bool)
    ensures Deliver(t, fd, reported, failed, ok).Abort? <==>
            ok && !Within(reported, Events(t, fd))
            && (if failed then Events(t, fd) else Both(Events(t, fd), reported)) != EMPTY
  {
  }

  /** A delivery consumes exactly the registered events it stands for. An assertion fails exactly
      when it names an unregistered event along with a registered one. */
  lemma DeliverConsumes<F(!new)>(t: Table<F>, fd: nat, reported: Mask, failed: bool, ok: bool)
    requires Sound(t)
    ensures var r, hit := Deliver(t, fd, reported, failed, ok), Hit(t, fd, reported, failed);
            && (r.Done? ==> Consumes(t, r.table, r.woken))
            && (r.Done? && r.value ==> Events(r.table, fd) == Minus(Events(t, fd), hit))
            && (r.Abort? <==> ok && !Within(reported, Events(t, fd))
                              && (if failed then Events(t, fd) else Both(Events(t, fd), reported)) != EMPTY)
            && (Within(reported, Events(t, fd)) ==> r.Done?)
  {
    DeliverFails(t, fd, reported, failed, ok);
    NothingConsumed(t);
    WokenConsumes(t, fd, Hit(t, fd, reported, failed));
  }

  lemma WokenIs<F(!new)>(t: Table<F>, fd: nat, hit: Mask)
    ensures Drops(t, Woken(t, fd, hit).0, Asked(fd, hit))
    ensures Woken(t, fd, hit).1 == Slot(t, (fd, READ), hit.read) + Slot(t, (fd, WRITE), hit.write)
  {
  }

  function Asked(fd: nat, hit: Mask): set<Key> {
    (if hit.read then {(fd, READ)} else {}) + (if hit.write then {(fd, WRITE)} else {})
  }

  /** What a delivery hands over: the registered ones of the events reported, reading first, and of both
      on an error or a hang-up; they are taken out and the others stay. Nothing happens exactly if there
      are none or epoll_ctl fails. */
  lemma DeliverHits<F(!new)>(t: Table<F>, fd: nat, reported: Mask, failed: bool, ok: bool)
    ensures var r, rd, wr := Deliver(t, fd, reported, failed, ok), reported.read || failed, reported.write || failed;
            r.Done? ==>
              && (r.value <==> ok && Slot(t, (fd, READ), rd) + Slot(t, (fd, WRITE), wr) != [])
              && r.woken == Slot(t, (fd, READ), r.value && rd) + Slot(t, (fd, WRITE), r.value && wr)
              && (!r.value ==> r.table == t)
              && (r.value ==> Drops(t, r.table, Asked(fd, Mask(rd, wr))))
  {
    WokenIs(t, fd, Hit(t, fd, reported, failed));
  }

  /** The guard as written does let through events that are not registered: with only reading
      registered, deleting writing leaves the counter one short, and cancelling it fails. */
  lemma GuardLetsThrough(fd: nat, id: nat)
    ensures var t: Table<FiberId> := Table(map[(fd, READ) := Call(User(id))], 1);
            && Short(t) == 0 && Watching(t, fd, true)
            && Short(Delete(t, (fd, WRITE), true, false).table) == 1 && Delete(t, (fd, WRITE), true, true).table == t
            && Cancel(t, (fd, WRITE), true, false).Abort? && Cancel(t, (fd, WRITE), true, true).table == t
  {
    var t: Table<FiberId> := Table(map[(fd, READ) := Call(User(id))], 1);
    assert (fd, READ) in t.slots && t.slots - {(fd, WRITE)} == t.slots;
  }
}
