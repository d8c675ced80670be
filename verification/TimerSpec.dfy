/** The timer set as a value: an ordered sequence of entries, and what each operation
    of the timer manager does to it. The clock is an argument. */
module TimerSpec {
  import opened Basics
  import opened Tasks

  /** A timer of the set; `id` is the identity (address) that breaks ties. */
  datatype Entry = Entry(id: nat, next: nat, ms: nat, recurring: bool, cb: Option<Callback>)

  /** `front` tells that onTimerInsertedAtFront was called. */
  datatype State = State(timers: seq<Entry>, tickled: bool, previousTime: nat)

  predicate Before(a: Entry, b: Entry) {
    a.next < b.next || (a.next == b.next && a.id < b.id)
  }

  ghost predicate Ordered(ts: seq<Entry>) {
    forall i, j :: 0 <= i < j < |ts| ==> Before(ts[i], ts[j])
  }

  ghost predicate Distinct(ts: seq<Entry>) {
    forall i, j :: 0 <= i < j < |ts| ==> ts[i].id != ts[j].id
  }

  ghost predicate Lawful(ts: seq<Entry>) {
    Ordered(ts) && Distinct(ts) && forall e :: e in ts ==> e.ms <= e.next
  }

  predicate Has(ts: seq<Entry>, id: nat) {
    exists i :: 0 <= i < |ts| && ts[i].id == id
  }

  function IndexOf(ts: seq<Entry>, id: nat): (k: nat)
    ensures k <= |ts|
    ensures k < |ts| ==> ts[k].id == id
    ensures forall i :: 0 <= i < k ==> ts[i].id != id
  {
    if ts == [] || ts[0].id == id then 0 else 1 + IndexOf(ts[1..], id)
  }

  /** The place where `e` belongs. */
  function Rank(ts: seq<Entry>, e: Entry): (k: nat)
    ensures k <= |ts|
    ensures forall i :: 0 <= i < k ==> Before(ts[i], e)
    ensures k < |ts| ==> !Before(ts[k], e)
  {
    if ts == [] || !Before(ts[0], e) then 0 else 1 + Rank(ts[1..], e)
  }

  function Insert(ts: seq<Entry>, e: Entry): seq<Entry> {
    ts[..Rank(ts, e)] + [e] + ts[Rank(ts, e)..]
  }

  function Without(ts: seq<Entry>, id: nat): seq<Entry> {
    var k := IndexOf(ts, id);
    if k < |ts| then ts[..k] + ts[k + 1..] else ts
  }

  // ---------- the operations ----------

  /** addTimer: insert, and tell whether the front changed for the first time since the last poll. */
  function AddEntry(s: State, e: Entry): (State, bool) {
    var ts := Insert(s.timers, e);
    var front := ts[0] == e && !s.tickled;
    (State(ts, s.tickled || front, s.previousTime), front)
  }

  /** The flag in terms of the place. */
  lemma AddedAt(s: State, e: Entry, k: nat)
    requires k == Rank(s.timers, e)
    ensures AddEntry(s, e) ==
            (State(Insert(s.timers, e), s.tickled || k == 0, s.previousTime), k == 0 && !s.tickled)
  {
    assert k > 0 ==> Insert(s.timers, e)[0] == s.timers[0];
  }

  function Cancel(s: State, id: nat): State {
    var k := IndexOf(s.timers, id);
    if k < |s.timers| && s.timers[k].cb.Some? then s.(timers := Without(s.timers, id)) else s
  }

  /** One period from now: a refreshed timer, or a recurring timer's next round. */
  function Again(e: Entry, now: nat): Entry {
    e.(next := now + e.ms)
  }

  function Refresh(s: State, id: nat, now: nat): State {
    var k := IndexOf(s.timers, id);
    if k < |s.timers| && s.timers[k].cb.Some?
    then s.(timers := Insert(Without(s.timers, id), Again(s.timers[k], now)))
    else s
  }

  /** The entry with a new period, counted from its old start or from now. */
  function Rekeyed(e: Entry, ms: nat, fromNow: bool, now: nat): Entry {
    e.(ms := ms, next := (if fromNow then now else Max(e.next - e.ms, 0)) + ms)
  }

  /** Take the timer out and add it again as `e`. */
  function Replaced(s: State, e: Entry): (State, bool) {
    AddEntry(s.(timers := Without(s.timers, e.id)), e)
  }

  function Reset(s: State, id: nat, ms: nat, fromNow: bool, now: nat): (State, bool) {
    var k := IndexOf(s.timers, id);
    if k == |s.timers| || s.timers[k].cb.None? || (ms == s.timers[k].ms && !fromNow) then (s, false)
    else Replaced(s, Rekeyed(s.timers[k], ms, fromNow, now))
  }

  /** getNextTimer: milliseconds to the first deadline, None for ~0. */
  function NextTimeout(ts: seq<Entry>, now: nat): Option<nat> {
    if ts == [] then None else Some(if now >= ts[0].next then 0 else ts[0].next - now)
  }

  lemma FirstIsFirst(ts: seq<Entry>)
    requires Ordered(ts) && ts != []
    ensures forall e :: e in ts ==> ts[0].next <= e.next
  {
    forall e | e in ts
      ensures ts[0].next <= e.next
    {
      var i :| 0 <= i < |ts| && ts[i] == e;
      assert i > 0 ==> Before(ts[0], ts[i]);
    }
  }

  /** The answer is the time to the first deadline: nothing without timers, 0 exactly when one is due,
      and otherwise no timer is due before that time is over and one is then. */
  lemma NextTimeoutIs(ts: seq<Entry>, now: nat)
    requires Ordered(ts)
    ensures NextTimeout(ts, now) == None <==> ts == []
    ensures NextTimeout(ts, now) == Some(0) <==> exists e :: e in ts && e.next <= now
    ensures var d := NextTimeout(ts, now);
            d.Some? && d.value > 0 ==>
              (forall e :: e in ts ==> e.next >= now + d.value) && exists e :: e in ts && e.next == now + d.value
  {
    if ts != [] {
      assert ts[0] in ts;
      FirstIsFirst(ts);
    }
  }

  const HOUR: int := 60 * 60 * 1000

  /** now < previous and now < previous - one hour, the latter in unsigned 64-bit arithmetic. */
  predicate Rollover(previous: nat, now: nat) {
    now < previous && now < (if previous >= HOUR then previous - HOUR else previous - HOUR + 0x1_0000_0000_0000_0000)
  }

  /** A clock that has gone back counts as rolled over when it went back more than an hour, and, since
      the subtraction wraps, by however little in the first hour of its time. */
  lemma RolloverIs(previous: nat, now: nat)
    requires previous < 0x1_0000_0000_0000_0000
    ensures Rollover(previous, now) <==> now < previous && (previous - now > 3_600_000 || previous < 3_600_000)
  {
  }

  /** The order of the set is a strict total order on timers at different addresses. */
  lemma BeforeIsTotal(a: Entry, b: Entry, c: Entry)
    ensures !Before(a, a)
    ensures Before(a, b) && Before(b, c) ==> Before(a, c)
    ensures a.id != b.id ==> (Before(a, b) <==> !Before(b, a))
  {
  }

  /** How many timers are due: all after a rollover, else those with deadline <= now. */
  function DueCount(ts: seq<Entry>, now: nat): (k: nat)
    ensures k <= |ts|
  {
    if ts == [] || ts[0].next > now then 0 else 1 + DueCount(ts[1..], now)
  }

  /** The recurring ones of `due` go back with a deadline one period from now. */
  function Reinsert(ts: seq<Entry>, due: seq<Entry>, now: nat): seq<Entry>
    decreases |due|
  {
    if due == [] then ts
    else Reinsert(if due[0].recurring then Insert(ts, Again(due[0], now)) else ts, due[1..], now)
  }

  function Callbacks(due: seq<Entry>): seq<Option<Callback>> {
    seq(|due|, i requires 0 <= i < |due| => due[i].cb)
  }

  function Due(s: State, now: nat): seq<Entry> {
    if s.timers == [] then []
    else if Rollover(s.previousTime, now) then s.timers
    else s.timers[..DueCount(s.timers, now)]
  }

  /** listExpiredCb. */
  function Expire(s: State, now: nat): State {
    if s.timers == [] then s
    else State(Reinsert(s.timers[|Due(s, now)|..], Due(s, now), now), s.tickled, now)
  }

  lemma ExpireNone(s: State, now: nat)
    requires s.timers != [] && !Rollover(s.previousTime, now) && s.timers[0].next > now
    ensures Due(s, now) == [] && Expire(s, now) == s.(previousTime := now)
  {
    assert s.timers[..0] == [] && s.timers[0..] == s.timers;
  }

  lemma ExpireSome(s: State, now: nat, k: nat)
    requires s.timers != [] && k == if Rollover(s.previousTime, now) then |s.timers| else DueCount(s.timers, now)
    ensures k <= |s.timers| && Due(s, now) == s.timers[..k]
    ensures Expire(s, now) == State(Reinsert(s.timers[k..], s.timers[..k], now), s.tickled, now)
  {
    assert s.timers[..|s.timers|] == s.timers;
  }

  lemma ReinsertStep(ts: seq<Entry>, due: seq<Entry>, j: nat, now: nat, ts': seq<Entry>)
    requires j < |due|
    requires ts' == if due[j].recurring then Insert(ts, Again(due[j], now)) else ts
    ensures Reinsert(ts, due[j..], now) == Reinsert(ts', due[j + 1..], now)
  {
    assert due[j..][0] == due[j] && due[j..][1..] == due[j + 1..];
  }

  // ---------- the set stays a set ----------

  lemma InsertMembers(ts: seq<Entry>, e: Entry)
    ensures forall x :: x in Insert(ts, e) <==> x == e || x in ts
    ensures forall id :: Has(Insert(ts, e), id) <==> id == e.id || Has(ts, id)
  {
    var k, r := Rank(ts, e), Insert(ts, e);
    assert r[k] == e && r[..k] == ts[..k] && r[k + 1..] == ts[k..];
    assert ts == ts[..k] + ts[k..];
    forall id
      ensures Has(r, id) <==> id == e.id || Has(ts, id)
    {
      if Has(ts, id) {
        var i :| 0 <= i < |ts| && ts[i].id == id;
        assert r[if i < k then i else i + 1].id == id;
      }
    }
  }

  /** Everything from the place of `e` on comes after it. */
  lemma BeforeRest(ts: seq<Entry>, e: Entry, i: nat)
    requires Lawful(ts) && !Has(ts, e.id) && Rank(ts, e) <= i < |ts|
    ensures Before(e, ts[i])
  {
    var k := Rank(ts, e);
    assert i > k ==> Before(ts[k], ts[i]);
  }

  lemma InsertOrdered(ts: seq<Entry>, e: Entry)
    requires Lawful(ts) && !Has(ts, e.id)
    ensures Ordered(Insert(ts, e))
  {
    var k, r := Rank(ts, e), Insert(ts, e);
    assert forall i :: 0 <= i < |r| ==> r[i] == if i < k then ts[i] else if i == k then e else ts[i - 1];
    forall i | k <= i < |ts|
      ensures Before(e, ts[i])
    {
      BeforeRest(ts, e, i);
    }
  }

  lemma InsertDistinct(ts: seq<Entry>, e: Entry)
    requires Distinct(ts) && !Has(ts, e.id)
    ensures Distinct(Insert(ts, e))
  {
    var k, r := Rank(ts, e), Insert(ts, e);
    assert forall i :: 0 <= i < |r| ==> r[i] == if i < k then ts[i] else if i == k then e else ts[i - 1];
  }

  lemma InsertLawful(ts: seq<Entry>, e: Entry)
    requires Lawful(ts) && !Has(ts, e.id) && e.ms <= e.next
    ensures Lawful(Insert(ts, e))
    ensures forall x :: x in Insert(ts, e) <==> x == e || x in ts
    ensures forall id :: Has(Insert(ts, e), id) <==> id == e.id || Has(ts, id)
  {
    InsertMembers(ts, e);
    InsertOrdered(ts, e);
    InsertDistinct(ts, e);
  }

  /** Taking one place out of an ordered set. */
  lemma CutLawful(ts: seq<Entry>, k: nat)
    requires Lawful(ts) && k < |ts|
    ensures Lawful(ts[..k] + ts[k + 1..])
  {
    var r := ts[..k] + ts[k + 1..];
    assert forall i :: 0 <= i < |r| ==> r[i] == ts[if i < k then i else i + 1];
  }

  /** Taking one place out of a sequence of different identities. */
  lemma CutMembers(ts: seq<Entry>, k: nat)
    requires Distinct(ts) && k < |ts|
    ensures forall x :: x in ts[..k] + ts[k + 1..] <==> x in ts && x.id != ts[k].id
  {
    assert ts == ts[..k] + [ts[k]] + ts[k + 1..];
    assert forall x :: x in ts[..k] ==> x.id != ts[k].id;
    assert forall x :: x in ts[k + 1..] ==> x.id != ts[k].id;
  }

  lemma WithoutLawful(ts: seq<Entry>, id: nat)
    requires Lawful(ts)
    ensures Lawful(Without(ts, id)) && !Has(Without(ts, id), id)
    ensures forall x :: x in Without(ts, id) <==> x in ts && x.id != id
  {
    var k, r := IndexOf(ts, id), Without(ts, id);
    if k < |ts| {
      CutLawful(ts, k);
      CutMembers(ts, k);
      assert forall i :: 0 <= i < |r| ==> r[i] in r;
    }
  }

  lemma TailLawful(ts: seq<Entry>, k: nat)
    requires Lawful(ts) && k <= |ts|
    ensures Lawful(ts[k..])
  {
    assert forall i :: 0 <= i < |ts| - k ==> ts[k..][i] == ts[i + k];
  }

  // ---------- expiry is an exact partition ----------

  lemma {:induction false} DueCountIs(ts: seq<Entry>, now: nat)
    requires Ordered(ts)
    ensures forall i :: 0 <= i < DueCount(ts, now) ==> ts[i].next <= now
    ensures forall i :: DueCount(ts, now) <= i < |ts| ==> ts[i].next > now
  {
    if ts != [] && ts[0].next <= now {
      DueCountIs(ts[1..], now);
      assert forall i :: 0 < i < |ts| ==> ts[i] == ts[1..][i - 1];
    } else if ts != [] {
      forall i | 0 < i < |ts|
        ensures ts[i].next > now
      {
        assert Before(ts[0], ts[i]);
      }
    }
  }

  lemma {:induction false} DueCountAt(ts: seq<Entry>, now: nat, k: nat)
    requires k <= |ts| && (forall i :: 0 <= i < k ==> ts[i].next <= now) && (k < |ts| ==> ts[k].next > now)
    ensures DueCount(ts, now) == k
  {
    if k > 0 {
      DueCountAt(ts[1..], now, k - 1);
    }
  }

  /** What lower_bound of a timer for `now` at some address tells about the deadlines. */
  lemma RankDue(ts: seq<Entry>, addr: nat, now: nat, k: nat)
    requires k == Rank(ts, Entry(addr, now, 0, false, None))
    ensures k <= |ts| && (forall i :: 0 <= i < k ==> ts[i].next <= now) && (k < |ts| ==> ts[k].next >= now)
  {
  }

  lemma NextNotEarlier(ts: seq<Entry>, k: nat)
    requires Lawful(ts) && k + 1 < |ts|
    ensures ts[k].next <= ts[k + 1].next
  {
    assert Before(ts[k], ts[k + 1]);
  }

  ghost predicate Returned(due: seq<Entry>, now: nat, x: Entry) {
    exists i :: 0 <= i < |due| && due[i].recurring && x == due[i].(next := now + due[i].ms)
  }

  lemma ReturnedFirst(due: seq<Entry>, now: nat, x: Entry)
    requires due != []
    ensures Returned(due, now, x) <==> Returned(due[1..], now, x) || (due[0].recurring && x == Again(due[0], now))
  {
    var rest := due[1..];
    if Returned(due, now, x) {
      var i :| 0 <= i < |due| && due[i].recurring && x == due[i].(next := now + due[i].ms);
      assert i > 0 ==> rest[i - 1] == due[i];
    }
    if Returned(rest, now, x) {
      var i :| 0 <= i < |rest| && rest[i].recurring && x == rest[i].(next := now + rest[i].ms);
      assert due[i + 1] == rest[i];
    }
  }

  lemma {:induction false} ReinsertIs(ts: seq<Entry>, due: seq<Entry>, now: nat)
    requires Lawful(ts) && Distinct(due) && forall i :: 0 <= i < |due| ==> !Has(ts, due[i].id)
    ensures Lawful(Reinsert(ts, due, now))
    ensures forall x :: x in Reinsert(ts, due, now) <==> x in ts || Returned(due, now, x)
    decreases |due|
  {
    if due != [] {
      var rest, ts' := due[1..], ts;
      if due[0].recurring {
        InsertLawful(ts, Again(due[0], now));
        ts' := Insert(ts, Again(due[0], now));
      }
      assert forall i :: 0 <= i < |rest| ==> rest[i] == due[i + 1];
      ReinsertIs(ts', rest, now);
      forall x
        ensures Returned(due, now, x) <==> Returned(rest, now, x) || (due[0].recurring && x == Again(due[0], now))
      {
        ReturnedFirst(due, now, x);
      }
    }
  }

  /** What listExpiredCb hands over and what it leaves. Without a rollover it takes exactly the
      timers with deadline <= now, in deadline order; after a rollover all of them. Of those only the
      recurring ones return, one period from now; the others are untouched. */
  lemma ExpirePartition(s: State, now: nat)
    requires Lawful(s.timers)
    ensures Due(s, now) == s.timers[..|Due(s, now)|] && Ordered(Due(s, now))
    ensures |Callbacks(Due(s, now))| == |Due(s, now)|
    ensures forall i :: 0 <= i < |Due(s, now)| ==> Callbacks(Due(s, now))[i] == s.timers[i].cb
    ensures s.timers != [] && Rollover(s.previousTime, now) ==> Due(s, now) == s.timers
    ensures !Rollover(s.previousTime, now) ==> forall e :: e in s.timers ==> (e in Due(s, now) <==> e.next <= now)
    ensures Lawful(Expire(s, now).timers)
    ensures forall x :: x in Expire(s, now).timers <==> x in s.timers[|Due(s, now)|..] || Returned(Due(s, now), now, x)
    ensures !Rollover(s.previousTime, now) && (forall e :: e in s.timers && e.recurring ==> e.ms > 0) ==>
              forall x :: x in Expire(s, now).timers ==> x.next > now
  {
    DueCountIs(s.timers, now);
    var due, rest := Due(s, now), s.timers[|Due(s, now)|..];
    assert due == s.timers[..|due|];
    assert forall i :: 0 <= i < |rest| ==> rest[i] == s.timers[i + |due|];
    TailLawful(s.timers, |due|);
    ReinsertIs(rest, due, now);
  }

  // ---------- no missed wake-up ----------

  datatype Op =
    | Add(id: nat, ms: nat, recurring: bool, cb: Option<Callback>)
    | CancelOp(id: nat)
    | RefreshOp(id: nat)
    | ResetOp(id: nat, ms: nat, fromNow: bool)
    | PollOp
    | ExpireOp

  /** A run of the timer manager as an idle thread sees it: the clock, the first deadline at the
      last getNextTimer and how often onTimerInsertedAtFront has been called since; when that
      getNextTimer was, and what it answered. */
  datatype Watch = Watch(s: State, clock: nat, seen: Option<nat>, fronts: nat, asked: nat, told: Option<nat>)

  function First(ts: seq<Entry>): Option<nat> {
    if ts == [] then None else Some(ts[0].next)
  }

  predicate Earlier(a: Option<nat>, b: Option<nat>) {
    a.Some? && (b.None? || a.value < b.value)
  }

  /** An operation may run at `now` if the clock has not gone back and a new timer is a new object. */
  predicate Legal(w: Watch, op: Op, now: nat) {
    w.clock <= now && (op.Add? ==> !Has(w.s.timers, op.id))
  }

  /** The set becomes `r.0` and the hook is called if `r.1`. */
  function Then(w: Watch, r: (State, bool), now: nat): Watch {
    w.(s := r.0, clock := now, fronts := w.fronts + if r.1 then 1 else 0)
  }

  /** What an operation other than the poll does to the set, and whether it calls the hook. */
  function Done(s: State, op: Op, now: nat): (State, bool)
    requires !op.PollOp?
  {
    match op
    case Add(id, ms, recurring, cb) => AddEntry(s, Entry(id, now + ms, ms, recurring, cb))
    case CancelOp(id) => (Cancel(s, id), false)
    case RefreshOp(id) => (Refresh(s, id, now), false)
    case ResetOp(id, ms, fromNow) => Reset(s, id, ms, fromNow, now)
    case ExpireOp => (Expire(s, now), false)
  }

  function Step(w: Watch, op: Op, now: nat): Watch {
    if op.PollOp? then Watch(w.s.(tickled := false), now, First(w.s.timers), 0, now, NextTimeout(w.s.timers, now))
    else Then(w, Done(w.s, op, now), now)
  }

  ghost predicate Inv(w: Watch) {
    && Lawful(w.s.timers)
    && (forall e :: e in w.s.timers ==> e.next <= w.clock + e.ms)
    && w.s.previousTime <= w.clock
    && w.fronts == (if w.s.tickled then 1 else 0)
    && (Earlier(First(w.s.timers), w.seen) ==> w.s.tickled)
    && (if w.seen.None? then w.told.None? else w.told.Some? && w.seen.value <= w.asked + w.told.value
                                               && (w.told.value > 0 ==> w.seen.value == w.asked + w.told.value))
  }

  /** If every deadline has one at most as late in the old set, the first one did not get earlier. */
  lemma NotEarlier(ts: seq<Entry>, ts': seq<Entry>)
    requires Ordered(ts) && forall x :: x in ts' ==> exists y :: y in ts && y.next <= x.next
    ensures !Earlier(First(ts'), First(ts))
  {
    if ts' != [] {
      assert ts'[0] in ts';
      var y :| y in ts && y.next <= ts'[0].next;
      var i :| 0 <= i < |ts| && ts[i] == y;
      assert i > 0 ==> Before(ts[0], ts[i]);
    }
  }

  lemma AddKeeps(w: Watch, e: Entry, now: nat, r: (State, bool))
    requires Inv(w) && w.clock <= now && !Has(w.s.timers, e.id) && e.ms <= e.next <= now + e.ms
    requires r == AddEntry(w.s, e)
    ensures Inv(Then(w, r, now))
  {
    InsertLawful(w.s.timers, e);
    var ts := Insert(w.s.timers, e);
    if ts[0] != e {
      assert ts[0] == w.s.timers[0];
    }
  }

  lemma RefreshKeeps(w: Watch, id: nat, now: nat)
    requires Inv(w) && w.clock <= now
    ensures Inv(Then(w, (Refresh(w.s, id, now), false), now))
  {
    var ts, k := w.s.timers, IndexOf(w.s.timers, id);
    if k < |ts| && ts[k].cb.Some? {
      var e := Again(ts[k], now);
      WithoutLawful(ts, id);
      InsertLawful(Without(ts, id), e);
      assert ts[k] in ts && ts[k].next <= e.next;
      NotEarlier(ts, Insert(Without(ts, id), e));
    }
  }

  lemma RemovalKeeps(w: Watch, id: nat, now: nat)
    requires Inv(w) && w.clock <= now
    ensures Inv(Then(w, (w.s.(timers := Without(w.s.timers, id)), false), now))
    ensures Inv(Then(w, (Cancel(w.s, id), false), now))
  {
    WithoutLawful(w.s.timers, id);
    NotEarlier(w.s.timers, Without(w.s.timers, id));
  }

  lemma ReplaceKeeps(w: Watch, k: nat, e: Entry, now: nat)
    requires Inv(w) && w.clock <= now && k < |w.s.timers| && w.s.timers[k].id == e.id && e.ms <= e.next <= now + e.ms
    ensures Inv(Then(w, Replaced(w.s, e), now))
  {
    RemovalKeeps(w, e.id, now);
    WithoutLawful(w.s.timers, e.id);
    AddKeeps(Then(w, (w.s.(timers := Without(w.s.timers, e.id)), false), now), e, now, Replaced(w.s, e));
  }

  lemma ResetKeeps(w: Watch, id: nat, ms: nat, fromNow: bool, now: nat)
    requires Inv(w) && w.clock <= now
    ensures Inv(Then(w, Reset(w.s, id, ms, fromNow, now), now))
  {
    var ts, k := w.s.timers, IndexOf(w.s.timers, id);
    if k < |ts| {
      assert ts[k] in ts;
      ReplaceKeeps(w, k, Rekeyed(ts[k], ms, fromNow, now), now);
    }
  }

  /** A timer left by an expiry has one in the set before that is due no later. */
  lemma LeftLater(s: State, now: nat, x: Entry)
    requires Lawful(s.timers) && x in Expire(s, now).timers && forall e :: e in s.timers ==> e.next <= now + e.ms
    ensures x.next <= now + x.ms && exists y :: y in s.timers && y.next <= x.next
  {
    var ts, due := s.timers, Due(s, now);
    ExpirePartition(s, now);
    if Returned(due, now, x) {
      var i :| 0 <= i < |due| && due[i].recurring && x == due[i].(next := now + due[i].ms);
      assert due[i] == ts[i] && due[i] in ts && due[i].next <= x.next;
    } else {
      assert x in ts && x.next <= x.next;
    }
  }

  lemma ExpireKeeps(w: Watch, now: nat)
    requires Inv(w) && w.clock <= now
    ensures Inv(Then(w, (Expire(w.s, now), false), now))
  {
    ExpirePartition(w.s, now);
    var ts, due, ts' := w.s.timers, Due(w.s, now), Expire(w.s, now).timers;
    forall x | x in ts'
      ensures x.next <= now + x.ms && exists y :: y in ts && y.next <= x.next
    {
      LeftLater(w.s, now, x);
    }
    NotEarlier(ts, ts');
  }

  lemma PollKeeps(w: Watch, now: nat)
    requires Inv(w) && w.clock <= now
    ensures Inv(Step(w, PollOp, now))
  {
  }

  lemma DoneKeeps(w: Watch, op: Op, now: nat, r: (State, bool))
    requires Inv(w) && Legal(w, op, now) && !op.PollOp? && r == Done(w.s, op, now)
    ensures Inv(Then(w, r, now))
  {
    match op {
      case Add(id, ms, recurring, cb) => AddKeeps(w, Entry(id, now + ms, ms, recurring, cb), now, r);
      case CancelOp(id) => RemovalKeeps(w, id, now);
      case RefreshOp(id) => RefreshKeeps(w, id, now);
      case ResetOp(id, ms, fromNow) => ResetKeeps(w, id, ms, fromNow, now);
      case ExpireOp => ExpireKeeps(w, now);
    }
  }

  /** Every operation of the timer manager keeps the invariant. */
  lemma StepKeeps(w: Watch, op: Op, now: nat)
    requires Inv(w) && Legal(w, op, now)
    ensures Inv(Step(w, op, now))
  {
    if op.PollOp? {
      PollKeeps(w, now);
    } else {
      DoneKeeps(w, op, now, Done(w.s, op, now));
    }
  }

  /** `w'` is reached from `w` by the operations, at the given times. */
  ghost predicate Runs(w: Watch, ops: seq<(Op, nat)>, w': Watch)
    decreases |ops|
  {
    if ops == [] then w == w'
    else Legal(w, ops[0].0, ops[0].1) && Runs(Step(w, ops[0].0, ops[0].1), ops[1..], w')
  }

  function Start(clock: nat): Watch {
    Watch(State([], false, clock), clock, None, 0, clock, None)
  }

  lemma {:induction false} RunsKeep(w: Watch, ops: seq<(Op, nat)>, w': Watch)
    requires Inv(w) && Runs(w, ops, w')
    ensures Inv(w')
    decreases |ops|
  {
    if ops != [] {
      StepKeeps(w, ops[0].0, ops[0].1);
      RunsKeep(Step(w, ops[0].0, ops[0].1), ops[1..], w');
    }
  }

  /** No missed wake-up: under a clock that does not go back, whenever the first deadline is
      earlier than the one the last getNextTimer saw, m_tickled is set and
      onTimerInsertedAtFront has been called exactly once since; and the set is a set. Unless it has been
      called, no timer is due before the time is over that the last getNextTimer answered, if that
      was not 0, and there is none if it answered that there was none. */
  lemma NoMissedWakeUp(clock: nat, ops: seq<(Op, nat)>, w: Watch)
    requires Runs(Start(clock), ops, w)
    ensures Earlier(First(w.s.timers), w.seen) ==> w.s.tickled && w.fronts == 1
    ensures w.fronts <= 1 && Ordered(w.s.timers) && Distinct(w.s.timers)
    ensures w.fronts == 0 ==>
              forall e :: e in w.s.timers ==> w.told.Some? && (w.told.value > 0 ==> w.asked + w.told.value <= e.next)
  {
    RunsKeep(Start(clock), ops, w);
    if w.s.timers != [] {
      FirstIsFirst(w.s.timers);
    }
  }
}
