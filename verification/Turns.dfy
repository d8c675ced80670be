/** The steps of a worker in the protocol are the two halves of a scheduler's turn. */
module Turns {
  import opened Basics
  import opened Tasks
  import S = SchedulerSpec
  import opened Protocol

  function Entry(m: map<nat, FiberId>, w: nat): Option<FiberId> {
    if w in m then Some(m[w]) else None
  }

  /** What the turns of worker `w` work on. */
  function DeskOf(s: Sys, w: nat): S.Desk<FiberId> {
    S.Desk(s.queue, s.active, Entry(s.retained, w), Entry(s.running, w))
  }

  /** The other workers' entries. */
  ghost predicate OthersStay(m: map<nat, FiberId>, m': map<nat, FiberId>, w: nat) {
    forall v :: v != w ==> Entry(m', v) == Entry(m, v)
  }

  lemma StartsOne(s: Sys, w: nat, k: nat, spare: FiberId, s': Sys)
    requires Starts(s, w, k, spare, s')
    ensures var g := Runner(s, w, k, spare);
            && !s.queue[k].work.Nothing? && s'.queue == S.Removed(s.queue, k) && s'.active == s.active + 1
            && s'.running == s.running[w := g] && Runs(s', g)
            && s'.retained == if s.queue[k].work.Fib? then s.retained else s.retained[w := g]
  {
  }

  /** Taking a task in the protocol is the first half of a turn of the worker, whose fiber executes
      then; the other workers are left alone. */
  lemma TakenIsStarted(s: Sys, w: nat, spare: FiberId)
    requires Enabled(s, Dequeue(w, spare)) && Taken(s, w, spare).failure.None?
    ensures DeskOf(Taken(s, w, spare), w) == S.Started(DeskOf(s, w), w, Executing(s), spare)
    ensures w in Taken(s, w, spare).running && Runs(Taken(s, w, spare), Taken(s, w, spare).running[w])
    ensures OthersStay(s.running, Taken(s, w, spare).running, w)
    ensures OthersStay(s.retained, Taken(s, w, spare).retained, w)
  {
    TakenStarts(s, w, Next(s, w), spare, Taken(s, w, spare));
    StartsOne(s, w, Next(s, w), spare, Taken(s, w, spare));
  }

  /** Leaving the processor is the second half. */
  lemma LeftIsSettled(s: Sys, w: nat, exit: S.Exit)
    requires Enabled(s, Leave(w, exit))
    ensures var f, own, s' := s.running[w], Entry(s.retained, w) == Some(s.running[w]), Left(s, w, exit);
            && DeskOf(s', w) == S.Settled(DeskOf(s, w), S.StateAfter(exit), own)
            && f in s'.fibers && s'.fibers[f].state == S.StateSettled(S.StateAfter(exit), own)
            && OthersStay(s.running, s'.running, w) && OthersStay(s.retained, s'.retained, w)
  {
  }
}
