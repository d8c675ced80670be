/** The timer manager: timers as objects, an ordered set of them, and the operations,
    each proved to do to the set what TimerSpec says. */
module Timers {
  import opened Basics
  import opened Tasks
  import T = TimerSpec

  class Timer {
    const id: nat
    const recurring: bool
    ghost const armed: bool
    var ms: nat
    var next: nat
    var cb: Option<Callback>

    /** A new timer; `id` stands for its address, `armed` records that it was given a callback. */
    constructor (id: nat, ms: nat, cb: Option<Callback>, recurring: bool, now: nat)
      ensures this.id == id && this.ms == ms && this.cb == cb && this.recurring == recurring
      ensures next == now + ms && armed == cb.Some?
    {
      this.id, this.ms, this.cb, this.recurring := id, ms, cb, recurring;
      next := now + ms;
      armed := cb.Some?;
    }

    function Entry(): T.Entry
      reads this
    {
      T.Entry(id, next, ms, recurring, cb)
    }
  }

  /** Timer::Comparator on non-null timers. */
  predicate Less(a: Timer, b: Timer)
    reads a, b
  {
    T.Before(a.Entry(), b.Entry())
  }

  /** It is a strict total order on timers at different addresses. */
  lemma LessIsTotal(a: Timer, b: Timer, c: Timer)
    ensures !Less(a, a)
    ensures Less(a, b) && Less(b, c) ==> Less(a, c)
    ensures a.id != b.id ==> (Less(a, b) <==> !Less(b, a))
    ensures a.next < b.next ==> Less(a, b)
    ensures a.next == b.next && a.id < b.id ==> Less(a, b)
  {
    T.BeforeIsTotal(a.Entry(), b.Entry(), c.Entry());
  }

  ghost function Entries(ts: seq<Timer>): (r: seq<T.Entry>)
    reads ts
    ensures |r| == |ts| && forall i :: 0 <= i < |ts| ==> r[i] == ts[i].Entry()
  {
    seq(|ts|, i requires 0 <= i < |ts| reads ts => ts[i].Entry())
  }

  lemma SeqRemove<X>(s: seq<X>, k: nat)
    requires k < |s| && forall i :: 0 <= i < |s| && i != k ==> s[i] != s[k]
    ensures forall u :: u in s[..k] + s[k + 1..] <==> u in s && u != s[k]
  {
    assert s == s[..k] + [s[k]] + s[k + 1..];
    assert s[k] !in s[..k] && s[k] !in s[k + 1..];
  }

  lemma SeqInsert<X>(s: seq<X>, k: nat, x: X)
    requires k <= |s|
    ensures forall u :: u in s[..k] + [x] + s[k..] <==> u in s || u == x
  {
    assert s == s[..k] + s[k..];
  }

  class TimerManager {
    var timers: seq<Timer>
    var tickled: bool
    var previousTime: nat
    ghost var known: set<Timer>
    ghost var fronts: nat

    ghost function State(): T.State
      reads this`timers, this`tickled, this`previousTime, timers
    {
      T.State(Entries(timers), tickled, previousTime)
    }

    /** The set is an ordered set of known timers, which have different addresses. */
    ghost predicate Core()
      reads this`timers, this`known, timers
    {
      && (forall t :: t in timers ==> t in known)
      && (forall t, u :: t in known && u in known && t.id == u.id ==> t == u)
      && T.Lawful(Entries(timers))
    }

    /** A timer that was given a callback has it exactly while it is in the set. */
    ghost predicate Valid()
      reads this`timers, this`known, timers, known`cb
    {
      && Core()
      && forall t :: t in known ==> (t.cb.Some? ==> t in timers) && (t.armed && t in timers ==> t.cb.Some?)
    }

    constructor (now: nat)
      ensures Valid() && known == {} && State() == T.State([], false, now)
    {
      timers, tickled, previousTime := [], false, now;
      known, fronts := {}, 0;
    }

    /** std::set::lower_bound: the first element not before the given deadline and address. */
    method LowerBound(e: T.Entry) returns (k: nat)
      ensures k == T.Rank(Entries(timers), e)
    {
      k := 0;
      while k < |timers| && T.Before(timers[k].Entry(), e)
        invariant 0 <= k <= |timers|
        invariant forall i :: 0 <= i < k ==> T.Before(timers[i].Entry(), e)
      {
        k := k + 1;
      }
      RankIs(Entries(timers), e, k);
    }

    lemma {:induction false} RankIs(ts: seq<T.Entry>, e: T.Entry, k: nat)
      requires k <= |ts| && (k < |ts| ==> !T.Before(ts[k], e)) && forall i :: 0 <= i < k ==> T.Before(ts[i], e)
      ensures T.Rank(ts, e) == k
    {
      if k > 0 {
        RankIs(ts[1..], e, k - 1);
      }
    }

    /** std::set::find: it succeeds exactly for the members. */
    method Find(t: Timer) returns (k: nat)
      requires Core() && t in known
      ensures k <= |timers| && (k < |timers| <==> t in timers)
      ensures k < |timers| ==> timers[k] == t && T.IndexOf(Entries(timers), t.id) == k
      ensures k == |timers| ==> T.IndexOf(Entries(timers), t.id) == k
    {
      k := LowerBound(t.Entry());
      ghost var es := Entries(timers);
      if k < |timers| && !Less(t, timers[k]) {
        assert es[k].id == t.id;
        assert timers[k] in timers;
      } else {
        forall i | 0 <= i < |timers|
          ensures timers[i] != t
        {
          assert i > k ==> T.Before(es[k], es[i]);
        }
        k := |timers|;
      }
      IndexIs(es, t.id, k);
    }

    lemma {:induction false} IndexIs(ts: seq<T.Entry>, id: nat, k: nat)
      requires k <= |ts| && (k < |ts| ==> ts[k].id == id) && forall i :: 0 <= i < k ==> ts[i].id != id
      ensures T.IndexOf(ts, id) == k
    {
      if k > 0 {
        IndexIs(ts[1..], id, k - 1);
      }
    }

    /** m_timers.erase. */
    method Erase(k: nat)
      requires Core() && k < |timers|
      modifies this`timers
      ensures Core()
      ensures Entries(timers) == T.Without(old(Entries(timers)), old(timers)[k].id)
      ensures forall u :: u in timers <==> u in old(timers) && u != old(timers)[k]
    {
      Removed(k);
      timers := timers[..k] + timers[k + 1..];
    }

    /** The timers of the set are all different. */
    lemma AllDiffer()
      requires Core()
      ensures forall i, j :: 0 <= i < j < |timers| ==> timers[i] != timers[j]
    {
      forall i, j | 0 <= i < j < |timers|
        ensures timers[i] != timers[j]
      {
        assert Entries(timers)[i].id != Entries(timers)[j].id;
      }
    }

    lemma Removed(k: nat)
      requires Core() && k < |timers|
      ensures var ts := timers[..k] + timers[k + 1..];
              && Entries(ts) == T.Without(Entries(timers), timers[k].id) && T.Lawful(Entries(ts))
              && forall u :: u in ts <==> u in timers && u != timers[k]
    {
      var es, id := Entries(timers), timers[k].id;
      AllDiffer();
      SeqRemove(timers, k);
      assert T.IndexOf(es, id) == k by {
        IndexIs(es, id, k);
      }
      assert T.Lawful(T.Without(es, id)) by {
        T.WithoutLawful(es, id);
      }
      assert Entries(timers[..k] + timers[k + 1..]) == es[..k] + es[k + 1..] == T.Without(es, id);
    }

    /** m_timers.insert of a timer that is not in the set. */
    method InsertTimer(t: Timer, ghost es: seq<T.Entry>, ghost e: T.Entry) returns (k: nat)
      requires Core() && t in known && t !in timers && t.ms <= t.next && es == Entries(timers) && e == t.Entry()
      modifies this`timers
      ensures Core() && k == T.Rank(es, e) && Entries(timers) == T.Insert(es, e)
      ensures forall u :: u in timers <==> u in old(timers) || u == t
    {
      k := LowerBound(t.Entry());
      Inserted(t, k, es, e);
      timers := timers[..k] + [t] + timers[k..];
    }

    lemma Inserted(t: Timer, k: nat, es: seq<T.Entry>, e: T.Entry)
      requires Core() && t in known && t !in timers && t.ms <= t.next && es == Entries(timers) && e == t.Entry()
      requires k == T.Rank(es, e)
      ensures var ts := timers[..k] + [t] + timers[k..];
              && Entries(ts) == T.Insert(es, e) && T.Lawful(Entries(ts))
              && forall u :: u in ts <==> u in timers || u == t
    {
      SeqInsert(timers, k, t);
      assert T.Lawful(T.Insert(es, e)) by {
        NotThere(t);
        T.InsertLawful(es, e);
      }
      assert Entries(timers[..k] + [t] + timers[k..]) == es[..k] + [e] + es[k..];
    }

    lemma NotThere(t: Timer)
      requires Core() && t in known && t !in timers
      ensures !T.Has(Entries(timers), t.id)
      ensures T.IndexOf(Entries(timers), t.id) == |timers|
    {
      forall i | 0 <= i < |timers|
        ensures Entries(timers)[i].id != t.id
      {
        assert timers[i] in timers;
      }
      IndexIs(Entries(timers), t.id, |timers|);
    }

    /** Timer::cancel. */
    method Cancel(t: Timer) returns (ok: bool)
      requires Valid() && t in known
      modifies this`timers, t`cb
      ensures Valid() && ok == old(t.cb.Some?)
      ensures State() == T.Cancel(old(State()), t.id)
      ensures t.cb == if ok then None else old(t.cb)
      ensures forall u :: u in timers <==> u in old(timers) && !(ok && u == t)
    {
      var k := Find(t);
      if t.cb.Some? {
        Erase(k);
        t.cb := None;
        return true;
      }
      return false;
    }

    /** Erase, change the deadline, insert again. */
    method Move(t: Timer, k: nat, next: nat, ghost es: seq<T.Entry>, ghost e: T.Entry)
      requires Core() && k < |timers| && timers[k] == t && t.ms <= next
      requires es == Entries(timers) && e == t.Entry().(next := next)
      modifies this`timers, t`next
      ensures Core() && t.next == next
      ensures Entries(timers) == T.Insert(T.Without(es, t.id), e)
      ensures forall u :: u in timers <==> u in old(timers)
    {
      Erase(k);
      t.next := next;
      var at := InsertTimer(t, T.Without(es, t.id), e);
    }

    /** Timer::refresh. */
    method Refresh(t: Timer, now: nat) returns (ok: bool)
      requires Valid() && t in known
      modifies this`timers, t`next
      ensures Valid() && ok == t.cb.Some?
      ensures State() == T.Refresh(old(State()), t.id, now)
      ensures t.next == if ok then now + t.ms else old(t.next)
      ensures forall u :: u in timers <==> u in old(timers)
    {
      var k := Find(t);
      ghost var s0 := State();
      if t.cb.None? {
        assert k < |timers| ==> s0.timers[k].cb.None?;
        assert T.Refresh(s0, t.id, now) == s0;
        return false;
      }
      ghost var e := T.Again(s0.timers[k], now);
      assert T.Refresh(s0, t.id, now) == s0.(timers := T.Insert(T.Without(s0.timers, t.id), e));
      Move(t, k, now + t.ms, s0.timers, e);
      return true;
    }

    /** Every other timer of the set is due later, or at the same time and has a higher address. */
    ghost predicate AtFront(t: Timer)
      reads this`timers, timers, t
    {
      forall u :: u in timers ==> u == t || t.next < u.next || (t.next == u.next && t.id < u.id)
    }

    /** The flag is set and the hook has been called once more if `t` is at the front and the flag was
        not set. */
    ghost predicate Announced(t: Timer, wasTickled: bool, calls: nat)
      reads this`timers, this`tickled, this`fronts, timers, t
    {
      tickled == (wasTickled || AtFront(t)) && fronts == calls + if !wasTickled && AtFront(t) then 1 else 0
    }

    lemma FrontIs(t: Timer, es: seq<T.Entry>, e: T.Entry)
      requires Core() && t in timers && e == t.Entry() && Entries(timers) == T.Insert(es, e)
      ensures AtFront(t) <==> T.Rank(es, e) == 0
    {
      var after := Entries(timers);
      if T.Rank(es, e) == 0 {
        forall u | u in timers
          ensures u == t || T.Before(e, u.Entry())
        {
          var i :| 0 <= i < |timers| && timers[i] == u;
          assert after[0] == e && (i > 0 ==> T.Before(after[0], after[i]));
        }
      } else {
        assert after[0] == es[0] && timers[0] in timers;
        assert T.Before(timers[0].Entry(), e);
      }
    }

    /** TimerManager::addTimer: the flag is set and the hook called for the first new front timer
        since the last poll. */
    method AddLocked(t: Timer, ghost s: T.State, ghost e: T.Entry)
      requires Core() && t in known && t !in timers && t.ms <= t.next && s == State() && e == t.Entry()
      modifies this`timers, this`tickled, this`fronts
      ensures Core()
      ensures (State(), fronts > old(fronts)) == T.AddEntry(s, e) && fronts <= old(fronts) + 1
      ensures forall u :: u in timers <==> u in old(timers) || u == t
      ensures Announced(t, old(tickled), old(fronts))
    {
      var k := InsertTimer(t, s.timers, e);
      FrontIs(t, s.timers, e);
      var atFront := k == 0 && !tickled;
      T.AddedAt(s, e, k);
      if atFront {
        tickled := true;
        fronts := fronts + 1;
      }
    }

    /** addTimer: a new timer, at its deadline's place. `addr` is a fresh address. */
    method AddTimer(ms: nat, cb: Option<Callback>, recurring: bool, now: nat, addr: nat) returns (t: Timer)
      requires Valid() && forall u :: u in known ==> u.id != addr
      modifies this`timers, this`tickled, this`fronts, this`known
      ensures Valid() && fresh(t) && known == old(known) + {t} && t.id == addr
      ensures (State(), fronts > old(fronts)) == T.AddEntry(old(State()), T.Entry(addr, now + ms, ms, recurring, cb))
      ensures fronts <= old(fronts) + 1
      ensures t.next == now + ms && t.ms == ms && t.recurring == recurring && t.cb == cb
      ensures forall u :: u in timers <==> u in old(timers) || u == t
      ensures Announced(t, old(tickled), old(fronts))
    {
      t := new Timer(addr, ms, cb, recurring, now);
      known := known + {t};
      assert t !in timers && Core();
      AddLocked(t, old(State()), T.Entry(addr, now + ms, ms, recurring, cb));
    }

    /** Erase, change period and deadline, add again. */
    method Rekey(t: Timer, k: nat, ms: nat, next: nat, ghost s0: T.State, ghost e: T.Entry, ghost r: (T.State, bool))
      requires Core() && k < |timers| && timers[k] == t && ms <= next
      requires s0 == State() && e == t.Entry().(ms := ms, next := next) && r == T.Replaced(s0, e)
      modifies this`timers, this`tickled, this`fronts, t`ms, t`next
      ensures Core() && (forall u :: u in timers <==> u in old(timers))
      ensures (State(), fronts > old(fronts)) == r
      ensures t.ms == ms && t.next == next
      ensures Announced(t, old(tickled), old(fronts))
    {
      ghost var s1 := s0.(timers := T.Without(s0.timers, e.id));
      Erase(k);
      assert State() == s1;
      t.ms := ms;
      t.next := next;
      assert Entries(timers) == s1.timers;
      AddLocked(t, s1, e);
    }

    /** That keeps the timers that have callbacks in the set. */
    method Replace(t: Timer, k: nat, ms: nat, next: nat, ghost e: T.Entry, ghost r: (T.State, bool))
      requires Valid() && k < |timers| && timers[k] == t && ms <= next
      requires e == t.Entry().(ms := ms, next := next) && r == T.Replaced(State(), e)
      modifies this`timers, this`tickled, this`fronts, t`ms, t`next
      ensures Valid() && (forall u :: u in timers <==> u in old(timers))
      ensures (State(), fronts > old(fronts)) == r
      ensures t.ms == ms && t.next == next && Announced(t, old(tickled), old(fronts))
    {
      Rekey(t, k, ms, next, State(), e, r);
    }

    lemma ResetIs(t: Timer, k: nat, ms: nat, fromNow: bool, now: nat)
      requires Valid() && t in known && k <= |timers| && T.IndexOf(Entries(timers), t.id) == k
      requires k < |timers| ==> timers[k] == t
      requires k == |timers| ==> t !in timers
      ensures T.Reset(State(), t.id, ms, fromNow, now) ==
              if t.cb.None? || (ms == t.ms && !fromNow) then (State(), false)
              else T.Replaced(State(), T.Rekeyed(t.Entry(), ms, fromNow, now))
      ensures t.cb.Some? ==> k < |timers| && t.ms <= t.next
    {
      if k < |timers| {
        assert State().timers[k] == t.Entry() && State().timers[k] in State().timers;
      }
    }

    /** Timer::reset. */
    method Reset(t: Timer, ms: nat, fromNow: bool, now: nat) returns (ok: bool)
      requires Valid() && t in known
      modifies this`timers, this`tickled, this`fronts, t`ms, t`next
      ensures Valid() && ok == ((ms == old(t.ms) && !fromNow) || t.cb.Some?)
      ensures (State(), fronts > old(fronts)) == T.Reset(old(State()), t.id, ms, fromNow, now)
      ensures forall u :: u in timers <==> u in old(timers)
      ensures if t.cb.Some? && (ms != old(t.ms) || fromNow) then
                && t.ms == ms && t.next == (if fromNow then now else old(t.next) - old(t.ms)) + ms
                && Announced(t, old(tickled), old(fronts))
              else
                t.ms == old(t.ms) && t.next == old(t.next) && tickled == old(tickled) && fronts == old(fronts)
    {
      var k := Find(t);
      ghost var r := T.Reset(State(), t.id, ms, fromNow, now);
      ResetIs(t, k, ms, fromNow, now);
      if ms == t.ms && !fromNow {
        return true;
      }
      if t.cb.None? {
        return false;
      }
      var start := if fromNow then now else t.next - t.ms;
      Replace(t, k, ms, start + ms, T.Rekeyed(t.Entry(), ms, fromNow, now), r);
      return true;
    }

    /** No timer is due before the first one. */
    lemma FirstDue()
      requires Core()
      ensures timers != [] ==> timers[0] in timers && forall t :: t in timers ==> timers[0].next <= t.next
    {
      if timers != [] {
        T.FirstIsFirst(Entries(timers));
        forall t | t in timers
          ensures timers[0].next <= t.next
        {
          assert t.Entry() in Entries(timers);
        }
      }
    }

    method GetNextTimer(now: nat) returns (timeout: Option<nat>)
      requires Valid()
      modifies this`tickled
      ensures Valid() && State() == old(State()).(tickled := false)
      ensures timeout == T.NextTimeout(State().timers, now)
      ensures timeout == None <==> timers == []
      ensures timeout == Some(0) <==> exists t :: t in timers && t.next <= now
      ensures timeout.Some? && timeout.value > 0 ==>
                && (forall t :: t in timers ==> t.next >= now + timeout.value)
                && exists t :: t in timers && t.next == now + timeout.value
    {
      tickled := false;
      FirstDue();
      if |timers| == 0 {
        return None;
      }
      assert Entries(timers)[0] == timers[0].Entry();
      return Some(if now >= timers[0].next then 0 else timers[0].next - now);
    }

    method DetectClockRollover(now: nat) returns (rollover: bool)
      modifies this`previousTime
      ensures rollover == T.Rollover(old(previousTime), now) && previousTime == now
      ensures old(previousTime) < 0x1_0000_0000_0000_0000 ==>
                (rollover <==>
                 now < old(previousTime) && (old(previousTime) - now > 3_600_000 || old(previousTime) < 3_600_000))
    {
      if previousTime < 0x1_0000_0000_0000_0000 {
        T.RolloverIs(previousTime, now);
      }
      rollover := T.Rollover(previousTime, now);
      previousTime := now;
    }

    /** The end of the due part of the set: lower_bound of a timer for `now` at any address,
        then past those due at this very moment. */
    method DueEnd(now: nat, addr: nat) returns (k: nat)
      requires Core()
      ensures k == T.DueCount(Entries(timers), now)
    {
      k := LowerBound(T.Entry(addr, now, 0, false, None));
      ghost var es := Entries(timers);
      T.RankDue(es, addr, now, k);
      while k < |timers| && timers[k].next == now
        invariant k <= |timers| && forall i :: 0 <= i < k ==> es[i].next <= now
        invariant k < |timers| ==> es[k].next >= now
      {
        if k + 1 < |timers| {
          T.NextNotEarlier(es, k);
        }
        k := k + 1;
      }
      T.DueCountAt(es, now, k);
    }

    /** Timers taken out of the set that have not been dealt with yet. */
    ghost predicate Pending(expired: seq<Timer>)
      reads this`timers, this`known, timers, known
    {
      && Core()
      && (forall t :: t in expired ==> t in known && t !in timers && t.ms <= t.next)
      && (forall i, j :: 0 <= i < j < |expired| ==> expired[i] != expired[j])
      && forall t :: t in known ==>
                       (t.cb.Some? ==> t in timers || t in expired)
                       && (t.armed && (t in timers || t in expired) ==> t.cb.Some?)
    }

    /** The same with `t` in front of `rest`. */
    ghost predicate PendingFirst(t: Timer, rest: seq<Timer>)
      reads this`timers, this`known, timers, known
    {
      && Core() && t in known && t !in timers && t !in rest && t.ms <= t.next
      && (forall u :: u in rest ==> u in known && u !in timers && u.ms <= u.next)
      && (forall i, j :: 0 <= i < j < |rest| ==> rest[i] != rest[j])
      && forall u :: u in known ==>
                       (u.cb.Some? ==> u in timers || u in rest || u == t)
                       && (u.armed && (u in timers || u in rest || u == t) ==> u.cb.Some?)
    }

    lemma PendingHead(expired: seq<Timer>, j: nat)
      requires j < |expired| && Pending(expired[j..])
      ensures PendingFirst(expired[j], expired[j + 1..])
    {
      var all, rest := expired[j..], expired[j + 1..];
      assert all == [expired[j]] + rest;
      assert all[0] == expired[j] && forall i :: 0 <= i < |rest| ==> rest[i] == all[i + 1];
      assert forall u :: u in all <==> u == expired[j] || u in rest;
    }

    /** One expired timer: back into the set if it recurs, without a callback otherwise. */
    method Settle(t: Timer, ghost rest: seq<Timer>, now: nat, ghost es: seq<T.Entry>, ghost e: T.Entry)
      requires PendingFirst(t, rest) && es == Entries(timers) && e == t.Entry()
      modifies this`timers, t`next, t`cb
      ensures Pending(rest) && Entries(rest) == old(Entries(rest))
      ensures Entries(timers) == if t.recurring then T.Insert(es, T.Again(e, now)) else es
    {
      if t.recurring {
        t.next := now + t.ms;
        var at := InsertTimer(t, es, T.Again(e, now));
      } else {
        t.cb := None;
      }
    }

    /** The first `k` timers and the others. */
    lemma Parted(k: nat)
      requires Core() && k <= |timers|
      ensures Entries(timers[..k]) == Entries(timers)[..k] && Entries(timers[k..]) == Entries(timers)[k..]
      ensures T.Lawful(Entries(timers[k..]))
      ensures forall t :: t in timers <==> t in timers[..k] || t in timers[k..]
      ensures forall t :: t in timers[..k] ==> t !in timers[k..]
      ensures forall t :: t in timers ==> t.ms <= t.next
    {
      assert timers == timers[..k] + timers[k..];
      AllDiffer();
      T.TailLawful(Entries(timers), k);
      forall t | t in timers
        ensures t.ms <= t.next
      {
        assert t.Entry() in Entries(timers);
      }
    }

    /** Split the due timers off the set. */
    method TakeDue(k: nat) returns (expired: seq<Timer>)
      requires Valid() && k <= |timers|
      modifies this`timers
      ensures expired == old(timers)[..k] && Pending(expired)
      ensures Entries(expired) == old(Entries(timers))[..k] && Entries(timers) == old(Entries(timers))[k..]
    {
      Parted(k);
      AllDiffer();
      expired := timers[..k];
      timers := timers[k..];
    }

    /** The expired timers from `j` on, with the entries `due`, are still to be dealt with; that will
        make the set `final`. */
    ghost predicate Remaining(expired: seq<Timer>, j: nat, due: seq<T.Entry>, final: seq<T.Entry>, now: nat)
      requires j <= |expired| == |due|
      reads this`timers, this`known, known, timers, expired
    {
      && Pending(expired[j..]) && Entries(expired[j..]) == due[j..]
      && T.Reinsert(Entries(timers), due[j..], now) == final
    }

    /** One round of the loop over the expired timers. */
    method SettleNext(expired: seq<Timer>, j: nat, ghost due: seq<T.Entry>, ghost final: seq<T.Entry>, now: nat)
      returns (cb: Option<Callback>)
      requires j < |expired| == |due| && Remaining(expired, j, due, final, now)
      modifies this`timers, expired
      ensures Remaining(expired, j + 1, due, final, now) && cb == due[j].cb
    {
      var timer := expired[j];
      ghost var es := Entries(timers);
      PendingHead(expired, j);
      assert timer.Entry() == Entries(expired[j..])[0] == due[j];
      assert Entries(expired[j + 1..]) == due[j + 1..];
      cb := timer.cb;
      Settle(timer, expired[j + 1..], now, es, due[j]);
      T.ReinsertStep(es, due, j, now, Entries(timers));
    }

    /** The loop over the expired timers. */
    method SettleAll(expired: seq<Timer>, now: nat) returns (cbs: seq<Option<Callback>>)
      requires Pending(expired)
      modifies this`timers, expired
      ensures Valid()
      ensures cbs == T.Callbacks(old(Entries(expired)))
      ensures Entries(timers) == T.Reinsert(old(Entries(timers)), old(Entries(expired)), now)
    {
      ghost var due, final := Entries(expired), T.Reinsert(Entries(timers), Entries(expired), now);
      var j := 0;
      cbs := [];
      assert expired[0..] == expired && due[0..] == due;
      while j < |expired|
        invariant 0 <= j <= |expired| && Remaining(expired, j, due, final, now)
        invariant |cbs| == j && forall i :: 0 <= i < j ==> cbs[i] == due[i].cb
      {
        var cb := SettleNext(expired, j, due, final, now);
        cbs := cbs + [cb];
        j := j + 1;
      }
    }

    /** Takes the first `k` timers out of the set and deals with them. */
    method ExpireFirst(k: nat, now: nat) returns (cbs: seq<Option<Callback>>)
      requires Valid() && k <= |timers|
      modifies this`timers, known
      ensures Valid()
      ensures cbs == T.Callbacks(old(Entries(timers))[..k])
      ensures Entries(timers) == T.Reinsert(old(Entries(timers))[k..], old(Entries(timers))[..k], now)
    {
      var expired := TakeDue(k);
      cbs := SettleAll(expired, now);
    }

    /** Hands over the callbacks of the due timers and settles them. */
    method ListExpiredCb(now: nat, addr: nat) returns (cbs: seq<Option<Callback>>)
      requires Valid()
      modifies this`timers, this`previousTime, known
      ensures Valid()
      ensures cbs == T.Callbacks(T.Due(old(State()), now))
      ensures State() == T.Expire(old(State()), now)
    {
      if |timers| == 0 {
        return [];
      }
      ghost var s0 := State();
      var rollover := DetectClockRollover(now);
      assert Entries(timers)[0] == timers[0].Entry();
      if !rollover && timers[0].next > now {
        T.ExpireNone(s0, now);
        return [];
      }
      var k;
      if rollover {
        k := |timers|;
      } else {
        k := DueEnd(now, addr);
      }
      T.ExpireSome(s0, now, k);
      cbs := ExpireFirst(k, now);
    }
  }
}
