/** What the table, the timers and the queue hold stays as it should, step by step. */
module PlainSteps {
  import opened Basics
  import opened Tasks
  import S = SchedulerSpec
  import E = EventSpec
  import T = TimerSpec
  import opened Protocol
  import opened Tokens

  predicate Kin(x: T.Entry, y: T.Entry) {
    y.id == x.id && y.cb == x.cb && y.recurring == x.recurring
  }

  /** Every timer of `ts'` comes from one of `ts` with the same callback. */
  ghost predicate Descends(ts: seq<T.Entry>, ts': seq<T.Entry>) {
    forall x :: x in ts' ==> exists y :: y in ts && Kin(x, y)
  }

  lemma DescendsPlain(ts: seq<T.Entry>, ts': seq<T.Entry>, addresses: nat, calls: map<nat, IoCall>)
    requires PlainTimers(ts, addresses, calls) && T.Lawful(ts') && Descends(ts, ts')
    ensures PlainTimers(ts', addresses, calls)
  {
  }

  lemma CancelDescends(t: T.State, id: nat)
    requires T.Lawful(t.timers)
    ensures T.Lawful(T.Cancel(t, id).timers) && Descends(t.timers, T.Cancel(t, id).timers)
  {
    T.WithoutLawful(t.timers, id);
    assert forall x :: x in t.timers ==> Kin(x, x);
  }

  lemma ReplaceDescends(ts: seq<T.Entry>, k: nat, e: T.Entry)
    requires T.Lawful(ts) && k < |ts| && e.id == ts[k].id && e.cb == ts[k].cb && e.recurring == ts[k].recurring
    requires e.ms <= e.next
    ensures T.Lawful(T.Insert(T.Without(ts, e.id), e)) && Descends(ts, T.Insert(T.Without(ts, e.id), e))
  {
    T.WithoutLawful(ts, e.id);
    T.InsertLawful(T.Without(ts, e.id), e);
    assert ts[k] in ts && Kin(e, ts[k]);
    assert forall x :: x in ts ==> Kin(x, x);
  }

  lemma RefreshDescends(t: T.State, id: nat, now: nat)
    requires T.Lawful(t.timers)
    ensures T.Lawful(T.Refresh(t, id, now).timers) && Descends(t.timers, T.Refresh(t, id, now).timers)
  {
    assert forall x :: x in t.timers ==> Kin(x, x);
    var k := T.IndexOf(t.timers, id);
    if k < |t.timers| {
      ReplaceDescends(t.timers, k, T.Again(t.timers[k], now));
    }
  }

  lemma ResetDescends(t: T.State, id: nat, ms: nat, fromNow: bool, now: nat)
    requires T.Lawful(t.timers)
    ensures T.Lawful(T.Reset(t, id, ms, fromNow, now).0.timers)
    ensures Descends(t.timers, T.Reset(t, id, ms, fromNow, now).0.timers)
  {
    assert forall x :: x in t.timers ==> Kin(x, x);
    var k := T.IndexOf(t.timers, id);
    if k < |t.timers| {
      ReplaceDescends(t.timers, k, T.Rekeyed(t.timers[k], ms, fromNow, now));
    }
  }

  lemma LeftDescends(t: T.State, now: nat, x: T.Entry)
    requires T.Lawful(t.timers) && x in T.Expire(t, now).timers
    ensures exists y :: y in t.timers && Kin(x, y)
  {
    T.ExpirePartition(t, now);
    var due := T.Due(t, now);
    if T.Returned(due, now, x) {
      var i :| 0 <= i < |due| && due[i].recurring && x == due[i].(next := now + due[i].ms);
      assert due[i] == t.timers[i] && Kin(x, t.timers[i]);
    } else {
      assert x in t.timers && Kin(x, x);
    }
  }

  lemma ExpireDescends(t: T.State, now: nat)
    requires T.Lawful(t.timers)
    ensures T.Lawful(T.Expire(t, now).timers) && Descends(t.timers, T.Expire(t, now).timers)
  {
    T.ExpirePartition(t, now);
    forall x | x in T.Expire(t, now).timers
      ensures exists y :: y in t.timers && Kin(x, y)
    {
      LeftDescends(t, now, x);
    }
  }

  lemma AddPlain(t: T.State, e: T.Entry, calls: map<nat, IoCall>)
    requires PlainTimers(t.timers, e.id, calls) && e.ms <= e.next && (Library(e.cb) ==> !e.recurring)
    ensures PlainTimers(T.AddEntry(t, e).0.timers, e.id + 1, calls)
    ensures forall x :: x in T.AddEntry(t, e).0.timers <==> x == e || x in t.timers
  {
    assert !T.Has(t.timers, e.id) by {
      assert forall i :: 0 <= i < |t.timers| ==> t.timers[i] in t.timers;
    }
    T.InsertLawful(t.timers, e);
  }

  /** A new call has no timer; the timer of a rearmed one is the newest. */
  lemma CallPlain(ts: seq<T.Entry>, addresses: nat, calls: map<nat, IoCall>, c: nat, call: IoCall)
    requires PlainTimers(ts, addresses, calls)
    requires call.timer.Some? ==> call.timer.value < addresses
    requires forall e :: e in ts && call.timer == Some(e.id) ==>
                           e.cb.Some? && e.cb.value.IoTimeout? && e.cb.value.call == c
    ensures PlainTimers(ts, addresses, calls[c := call])
  {
  }

  lemma ScheduledAllPlain(q: Queue, works: seq<Work<FiberId>>)
    requires PlainQueue(q)
    ensures PlainQueue(S.ScheduledAll(q, works))
  {
    forall t | t in S.ScheduledAll(q, works)
      ensures !t.work.Nothing?
    {
      S.ScheduledAllMembers(q, works, t);
    }
  }

  lemma RemovedPlain(q: Queue, k: nat)
    requires PlainQueue(q) && k < |q|
    ensures PlainQueue(S.Removed(q, k))
  {
  }

  lemma EffectPlain(s: Sys, r: E.Result<FiberId>, why: Failure)
    requires Plain(s) && (r.Done? ==> PlainTable(r.table))
    ensures Plain(Effect(s, r, why))
  {
    if r.Done? {
      ScheduledAllPlain(s.queue, r.woken);
    }
  }
}
