/** Fibers and workers: a fiber executes exactly when one worker runs it. */
module Workers {
  import opened Tasks
  import S = SchedulerSpec
  import opened Protocol

  predicate Shape(fb: Fiber) {
    match fb.state
    case EXEC => true
    case HOLD => fb.at.Body? || fb.at.Woken?
    case READY => fb.at.Body?
    case INIT => fb.at.Body?
    case TERM => fb.at.Body? || fb.at.Finished?
    case EXCEPT => fb.at.Body?
  }

  predicate Executes(fibers: map<FiberId, Fiber>, f: FiberId) {
    f in fibers && fibers[f].state == EXEC
  }

  /** Some thread of `m` is mapped to `f`. */
  ghost predicate Among(m: map<nat, FiberId>, f: FiberId) {
    exists w :: w in m && m[w] == f
  }

  ghost predicate Injective(m: map<nat, FiberId>) {
    forall v, w :: v in m && w in m && m[v] == m[w] ==> v == w
  }

  /** A fiber executes iff exactly one worker runs it. */
  ghost predicate OneRunner(fibers: map<FiberId, Fiber>, running: map<nat, FiberId>) {
    Injective(running) && forall f :: Executes(fibers, f) <==> Among(running, f)
  }

  /** A fiber that a worker keeps for callbacks and does not use at the moment. */
  ghost predicate Kept(s: Sys, f: FiberId) {
    Among(s.retained, f) && !Executes(s.fibers, f)
  }

  predicate Uses(m: map<nat, FiberId>, w: nat, f: FiberId) {
    w in m && m[w] == f
  }

  /** A retained fiber is the one its worker runs, or INIT. */
  ghost predicate Retaining(fibers: map<FiberId, Fiber>, running: map<nat, FiberId>, retained: map<nat, FiberId>) {
    && Injective(retained)
    && forall w :: w in retained ==>
                     retained[w] in fibers && (Uses(running, w, retained[w]) || fibers[retained[w]].state == INIT)
  }

  ghost predicate Shaped(fibers: map<FiberId, Fiber>) {
    forall f :: f in fibers ==> Shape(fibers[f])
  }

  ghost predicate Inv(s: Sys) {
    && Shaped(s.fibers)
    && OneRunner(s.fibers, s.running)
    && Retaining(s.fibers, s.running, s.retained)
    && s.active == |s.running|
  }

  // ---------- steps that swap no fiber ----------

  /** Executing fibers move, new ones are added. */
  ghost predicate Quiet(fibers: map<FiberId, Fiber>, fibers': map<FiberId, Fiber>) {
    && (forall f :: f in fibers ==>
                      f in fibers' && (fibers'[f] == fibers[f] || fibers[f].state == fibers'[f].state == EXEC))
    && (forall f :: f in fibers' && f !in fibers ==> fibers'[f] == Fiber(INIT, Body))
  }

  lemma FiberMoves(s: Sys, a: Action)
    requires Enabled(s, a) && Mover(a).Some?
    ensures var f, s' := Mover(a).value, Step(s, a);
            && Executes(s.fibers, f) && f in s'.fibers && s'.fibers == s.fibers[f := Fiber(EXEC, s'.fibers[f].at)]
            && s'.running == s.running && s'.retained == s.retained && s'.active == s.active
  {
  }

  lemma FibersStay(s: Sys, a: Action)
    requires Enabled(s, a) && Mover(a).None? && !a.Dequeue? && !a.Leave?
    ensures var s' := Step(s, a);
            && s'.fibers == (if a.NewFiber? then s.fibers[a.f := Fiber(INIT, Body)] else s.fibers)
            && s'.running == s.running && s'.retained == s.retained && s'.active == s.active
  {
  }

  lemma MoveQuiet(s: Sys, a: Action)
    requires Enabled(s, a) && !a.Dequeue? && !a.Leave?
    ensures Quiet(s.fibers, Step(s, a).fibers)
    ensures Step(s, a).running == s.running && Step(s, a).retained == s.retained && Step(s, a).active == s.active
  {
    if Mover(a).Some? {
      FiberMoves(s, a);
    } else {
      FibersStay(s, a);
    }
  }

  lemma QuietKeeps(s: Sys, s': Sys)
    requires Inv(s) && Quiet(s.fibers, s'.fibers)
    requires s'.running == s.running && s'.retained == s.retained && s'.active == s.active
    ensures Inv(s')
  {
    forall f
      ensures Executes(s'.fibers, f) <==> Executes(s.fibers, f)
    {
    }
  }

  // ---------- swapping in and out ----------

  lemma SwapInInjective(fibers: map<FiberId, Fiber>, running: map<nat, FiberId>, w: nat, f: FiberId)
    requires OneRunner(fibers, running) && w !in running && !Executes(fibers, f)
    ensures Injective(running[w := f])
  {
    assert forall v :: v in running ==> Among(running, running[v]);
  }

  lemma SwapIn(fibers: map<FiberId, Fiber>, running: map<nat, FiberId>, w: nat, f: FiberId, fb: Fiber)
    requires OneRunner(fibers, running) && w !in running && !Executes(fibers, f) && fb.state == EXEC
    ensures OneRunner(fibers[f := fb], running[w := f]) && |running[w := f]| == |running| + 1
  {
    var r := running[w := f];
    SwapInInjective(fibers, running, w, f);
    forall g
      ensures Executes(fibers[f := fb], g) <==> Among(r, g)
    {
      if g == f {
        assert r[w] == f;
      } else if Among(running, g) {
        var v :| v in running && running[v] == g;
        assert r[v] == g;
      }
    }
    assert r.Keys == running.Keys + {w} && |r| == |r.Keys| && |running| == |running.Keys|;
  }

  lemma SwapOut(fibers: map<FiberId, Fiber>, running: map<nat, FiberId>, w: nat, fb: Fiber)
    requires OneRunner(fibers, running) && w in running && fb.state != EXEC
    ensures OneRunner(fibers[running[w] := fb], running - {w}) && |running - {w}| == |running| - 1
  {
    var f, r := running[w], running - {w};
    forall g
      ensures Executes(fibers[f := fb], g) <==> Among(r, g)
    {
      if g != f && Among(running, g) {
        var v :| v in running && running[v] == g;
        assert r[v] == g;
      }
    }
    assert running.Keys == r.Keys + {w} && |r| == |r.Keys| && |running| == |running.Keys|;
  }

  lemma TakenFiberKeeps(s: Sys, w: nat, f: FiberId, s': Sys)
    requires Inv(s) && w !in s.running && f in s.fibers && !Executes(s.fibers, f) && !Kept(s, f)
    requires s'.fibers == s.fibers[f := s.fibers[f].(state := EXEC)] && s'.running == s.running[w := f]
    requires s'.retained == s.retained && s'.active == s.active + 1
    ensures Inv(s')
  {
    SwapIn(s.fibers, s.running, w, f, s'.fibers[f]);
  }

  lemma TakenCallKeeps(s: Sys, w: nat, g: FiberId, s': Sys, p: Point)
    requires Inv(s) && w !in s.running && (if w in s.retained then g == s.retained[w] else g !in s.fibers)
    requires s'.fibers == s.fibers[g := Fiber(EXEC, p)] && s'.running == s.running[w := g]
    requires s'.retained == s.retained[w := g] && s'.active == s.active + 1
    ensures Inv(s')
  {
    SwapIn(s.fibers, s.running, w, g, s'.fibers[g]);
  }

  lemma LeftKeeps(s: Sys, w: nat, exit: S.Exit)
    requires Inv(s) && Enabled(s, Leave(w, exit))
    ensures Inv(Left(s, w, exit))
  {
    var f, s' := s.running[w], Left(s, w, exit);
    SwapOut(s.fibers, s.running, w, s'.fibers[f]);
    assert Among(s.running, f);
    assert forall v :: v in s'.retained ==> v in s.retained && s'.retained[v] == s.retained[v];
  }
}
