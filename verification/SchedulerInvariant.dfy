/** Every event of the scheduler keeps the invariant, and so does every run. */
module SchedulerInvariant {
  import opened Wrappers
  import opened WorkflowGraph
  import opened Scheduler

  lemma InitInv(c: Setting, s: State)
    requires c.Valid() && Init(c, s)
    ensures Inv(c, s)
  {
    assert Slots(s) == {};
    forall t | t in c.g.defs ensures Ok(c, s, t) {}
  }

  /** What the dependencies of `x` say carries over when terminal statuses stay,
      `x` keeps its place and no dependency was passed to `skipDependents`. */
  lemma DepsCarry(c: Setting, s: State, s': State, x: StepId)
    requires Shaped(c, s) && Shaped(c, s') && x in c.g.defs && DepsOk(c, s, x)
    requires s'.phase[x] != Idle || s'.status[x] == READY ==> s.phase[x] != Idle || s.status[x] == READY
    requires s'.status[x] == SKIPPED ==> s.status[x] == SKIPPED
    requires forall d :: c.g.Dep(d, x) && IsTerminal(s.status[d]) ==> s'.status[d] == s.status[d]
    requires Waiting(s'.status[x]) ==> forall d :: c.g.Dep(d, x) ==>
               !(s'.status[d] == FAILED && c.out[d].skips && c.g.Continues(d))
    ensures DepsOk(c, s', x)
  {
    if s'.status[x] == SKIPPED {
      var d :| c.g.Dep(d, x) && DepBad(c, s, d);
      assert DepBad(c, s', d);
    }
  }

  /** How a pass may change one status. */
  ghost predicate Framed(s: State, mid: Statuses, launched: set<StepId>, s': State, d: StepId)
    requires d in s.status && d in mid && d in s'.status
  {
    && (s.status[d] == mid[d] || (s.status[d] == PENDING && (mid[d] == READY || mid[d] == SKIPPED)))
    && (if d in launched then mid[d] == READY && s'.status[d] == RUNNING else s'.status[d] == mid[d])
  }

  lemma PassFrame(c: Setting, s: State, mid: Statuses, launched: set<StepId>, s': State, d: StepId)
    requires s.status.Keys == c.g.defs.Keys && d in c.g.defs
    requires UpdatePost(c.g, s.status, mid) && s'.status.Keys == c.g.defs.Keys
    requires LaunchOk(mid, s'.status, launched, d)
    ensures Framed(s, mid, launched, s', d)
  {
    assert UpdateOk(c.g, s.status, mid, d);
  }

  /** What a pass does to every step, and to the lifecycles. */
  ghost predicate Passed(c: Setting, s: State, mid: Statuses, launched: set<StepId>, s': State) {
    && Shaped(c, s) && Shaped(c, s') && mid.Keys == c.g.defs.Keys
    && s'.phase == LivePhases(s.phase, launched) && s'.crashed == s.crashed
    && forall d {:trigger Framed(s, mid, launched, s', d)} :: d in c.g.defs ==> Framed(s, mid, launched, s', d)
  }

  lemma PassSkips(c: Setting, s: State, mid: Statuses, launched: set<StepId>, s': State, t: StepId)
    requires Passed(c, s, mid, launched, s') && t in c.g.defs && UpdateOk(c.g, s.status, mid, t)
    requires Ok(c, s, t) && s.status[t] == PENDING && mid[t] == SKIPPED
    ensures Ok(c, s', t)
  {
    assert Framed(s, mid, launched, s', t);
    var d :| c.g.Dep(d, t) && DepBlocksDownstream(mid[d], c.g.Continues(d));
    assert Framed(s, mid, launched, s', d);
    assert DepBad(c, s', d);
  }

  /** A dependency that let a step become ready lets it run. */
  lemma ReadyDepOk(c: Setting, s: State, mid: Statuses, launched: set<StepId>, s': State, t: StepId, d: StepId)
    requires Passed(c, s, mid, launched, s') && c.g.Dep(d, t)
    requires DepsOk(c, s, t) && s.status[t] == PENDING
    requires DepAllowsProgress(s.status[d], c.g.Continues(d))
    ensures DepOk(c, s', d)
  {
    assert Framed(s, mid, launched, s', d);
  }

  lemma PassReadies(c: Setting, s: State, mid: Statuses, launched: set<StepId>, s': State, t: StepId)
    requires Passed(c, s, mid, launched, s') && t in c.g.defs && UpdateOk(c.g, s.status, mid, t)
    requires Ok(c, s, t) && s.status[t] == PENDING && mid[t] == READY
    ensures Ok(c, s', t)
  {
    assert Framed(s, mid, launched, s', t);
    assert AllDepsAllow(c.g, s.status, t);
    forall d | c.g.Dep(d, t)
      ensures DepOk(c, s', d)
    {
      ReadyDepOk(c, s, mid, launched, s', t, d);
    }
  }

  lemma FramedCarries(s: State, mid: Statuses, launched: set<StepId>, s': State, d: StepId)
    requires d in s.status && d in mid && d in s'.status && Framed(s, mid, launched, s', d)
    ensures IsTerminal(s.status[d]) ==> s'.status[d] == s.status[d]
    ensures s'.status[d] == FAILED ==> s.status[d] == FAILED
  {
  }

  lemma PassCarries(c: Setting, s: State, mid: Statuses, launched: set<StepId>, s': State, t: StepId)
    requires Passed(c, s, mid, launched, s') && t in c.g.defs
    requires Ok(c, s, t) && s.status[t] == mid[t]
    ensures Ok(c, s', t)
  {
    assert Framed(s, mid, launched, s', t);
    forall d | c.g.Dep(d, t)
      ensures IsTerminal(s.status[d]) ==> s'.status[d] == s.status[d]
      ensures s'.status[d] == FAILED ==> s.status[d] == FAILED
    {
      FramedCarries(s, mid, launched, s', d);
    }
    DepsCarry(c, s, s', t);
  }

  lemma PassKeepsStep(c: Setting, s: State, mid: Statuses, launched: set<StepId>, s': State, t: StepId)
    requires Passed(c, s, mid, launched, s') && t in c.g.defs && UpdateOk(c.g, s.status, mid, t) && Ok(c, s, t)
    ensures Ok(c, s', t) && (t in launched ==> s.phase[t] == Idle)
  {
    assert Framed(s, mid, launched, s', t);
    if s.status[t] == mid[t] {
      PassCarries(c, s, mid, launched, s', t);
    } else if mid[t] == READY {
      PassReadies(c, s, mid, launched, s', t);
    } else {
      PassSkips(c, s, mid, launched, s', t);
    }
  }

  /** A pass that skips nothing leaves a dependency as blocking or permissive as it was. */
  lemma FramedReadsSame(s: State, mid: Statuses, launched: set<StepId>, s': State, d: StepId, continues: bool)
    requires d in s.status && d in mid && d in s'.status && Framed(s, mid, launched, s', d)
    requires !(s.status[d] == PENDING && mid[d] == SKIPPED)
    ensures DepBlocksDownstream(s'.status[d], continues) ==> DepBlocksDownstream(s.status[d], continues)
    ensures DepAllowsProgress(s'.status[d], continues) ==> DepAllowsProgress(s.status[d], continues)
  {
  }

  lemma PassLeavesQuiet(c: Setting, s: State, mid: Statuses, launched: set<StepId>, s': State, t: StepId)
    requires Passed(c, s, mid, launched, s') && t in c.g.defs && UpdateOk(c.g, s.status, mid, t)
    requires !SkippedSome(s.status, mid)
    requires s'.status[t] == READY ==> c.limit.Some? && s'.running >= c.limit.value
    ensures QuietAt(c, s', t)
  {
    assert Framed(s, mid, launched, s', t);
    if s'.status[t] == PENDING {
      forall d | c.g.Dep(d, t)
        ensures DepBlocksDownstream(s'.status[d], c.g.Continues(d)) ==>
                DepBlocksDownstream(s.status[d], c.g.Continues(d))
        ensures DepAllowsProgress(s'.status[d], c.g.Continues(d)) ==> DepAllowsProgress(s.status[d], c.g.Continues(d))
      {
        FramedReadsSame(s, mid, launched, s', d, c.g.Continues(d));
      }
    }
  }

  lemma PassKeepsShape(c: Setting, s: State, mid: Statuses, launched: set<StepId>, s': State)
    requires Shaped(c, s) && PassStep(c, s, mid, launched, s')
    ensures Shaped(c, s') && mid.Keys == c.g.defs.Keys
  {
    assert s'.phase.Keys == s.phase.Keys;
  }

  lemma PassIsPassed(c: Setting, s: State, mid: Statuses, launched: set<StepId>, s': State)
    requires Shaped(c, s) && PassStep(c, s, mid, launched, s')
    ensures Passed(c, s, mid, launched, s')
  {
    PassKeepsShape(c, s, mid, launched, s');
    forall d | d in c.g.defs ensures Framed(s, mid, launched, s', d) {
      assert LaunchOk(mid, s'.status, launched, d);
      PassFrame(c, s, mid, launched, s', d);
    }
  }

  lemma PassKeepsLoop(c: Setting, s: State, mid: Statuses, launched: set<StepId>, s': State)
    requires Passed(c, s, mid, launched, s') && PassStep(c, s, mid, launched, s')
    ensures LoopOk(c, s')
  {
    if s'.loop == Suspended {
      forall t | t in c.g.defs ensures QuietAt(c, s', t) {
        assert UpdateOk(c.g, s.status, mid, t);
        PassLeavesQuiet(c, s, mid, launched, s', t);
      }
    }
  }

  lemma SlotsLaunched(s: State, s': State, launched: set<StepId>)
    requires s'.phase == LivePhases(s.phase, launched) && launched <= s.phase.Keys
    requires forall t :: t in launched ==> s.phase[t] == Idle
    ensures |Slots(s')| == |Slots(s)| + |launched|
  {
    assert launched !! Slots(s);
    assert Slots(s') == Slots(s) + launched;
  }

  lemma PassKeepsAll(c: Setting, s: State, mid: Statuses, launched: set<StepId>, s': State)
    requires Passed(c, s, mid, launched, s') && AllOk(c, s) && UpdatePost(c.g, s.status, mid)
    ensures AllOk(c, s')
    ensures forall t :: t in launched && t in c.g.defs ==> s.phase[t] == Idle
  {
    forall t | t in c.g.defs ensures Ok(c, s', t) && (t in launched ==> s.phase[t] == Idle) {
      assert Ok(c, s, t) && UpdateOk(c.g, s.status, mid, t);
      PassKeepsStep(c, s, mid, launched, s', t);
    }
  }

  lemma WakeKeepsInv(c: Setting, s: State, s': State)
    requires Inv(c, s) && WakeStep(c, s, s')
    ensures Inv(c, s')
  {
    var mid: Statuses, launched: set<StepId> :| PassStep(c, s, mid, launched, s');
    PassIsPassed(c, s, mid, launched, s');
    PassKeepsAll(c, s, mid, launched, s');
    PassKeepsLoop(c, s, mid, launched, s');
    SlotsLaunched(s, s', launched);
  }

  lemma NotExecutingDep(c: Setting, s: State, t: StepId, x: StepId)
    requires Shaped(c, s) && AllOk(c, s) && c.g.Dep(t, x) && !DepOk(c, s, t)
    ensures s.phase[x] == Idle && s.status[x] != READY
  {
    assert Ok(c, s, x);
  }

  function Holds(ph: Phase): int {
    if ph == Live || ph == Failing then 1 else 0
  }

  /** Moving one lifecycle from phase to phase changes the slots by that lifecycle. */
  lemma SlotsAfter(s: State, s': State, t: StepId, ph: Phase)
    requires t in s.phase && s'.phase == s.phase[t := ph]
    ensures |Slots(s')| == |Slots(s)| + Holds(ph) - Holds(s.phase[t])
  {
    if Holds(ph) == 1 {
      assert Slots(s') == Slots(s) + {t};
    } else {
      assert Slots(s') == Slots(s) - {t};
    }
  }

  /** The counter keeps up with a lifecycle that takes no slot. */
  lemma CountAfter(c: Setting, s: State, s': State, t: StepId, ph: Phase)
    requires CountOk(c, s) && t in s.phase && s'.phase == s.phase[t := ph]
    requires Holds(ph) <= Holds(s.phase[t]) && s'.running == s.running + Holds(ph) - Holds(s.phase[t])
    ensures CountOk(c, s')
  {
    SlotsAfter(s, s', t, ph);
  }

  /** The loop may stay as it is while the lifecycle that moved still owes its notify. */
  lemma LoopAfter(c: Setting, s: State, s': State, t: StepId)
    requires Shaped(c, s) && Shaped(c, s') && LoopOk(c, s) && ActiveStep(s', t)
    requires s'.loop == s.loop && s'.pending == s.pending
    requires s.loop == Finished ==> AllTerminal(c.g, s'.status)
    ensures LoopOk(c, s')
  {
  }

  lemma NotifiedLoop(c: Setting, s: State, s': State)
    requires Shaped(c, s) && Shaped(c, s') && LoopOk(c, s)
    requires s'.loop != Suspended && (s'.loop == Finished ==> s.loop == Finished && s'.status == s.status)
    ensures LoopOk(c, s')
  {
  }

  /** The state in which the outcome is written and nothing is skipped yet. */
  ghost function Written(c: Setting, s: State, t: StepId, ph: Phase): State
    requires Shaped(c, s) && t in c.g.defs
  {
    s.(status := s.status[t := c.out[t].status], phase := s.phase[t := ph])
  }

  lemma WrittenStepOk(c: Setting, s: State, t: StepId, ph: Phase, x: StepId)
    requires Shaped(c, s) && t in c.g.defs && x in c.g.defs && StepOk(c, s, t) && StepOk(c, s, x)
    requires InPhase(s, t, Live)
    requires ph == Owing || (ph == Failing && c.out[t].status == FAILED && (c.out[t].skips ==> !c.g.Continues(t)))
    ensures StepOk(c, Written(c, s, t, ph), x)
    ensures !IsTerminal(s.status[t])
  {
  }

  /** A waiting dependent of a step that still has to skip its dependents. */
  ghost predicate OutOfOrder(c: Setting, s: State, t: StepId, x: StepId)
    requires Shaped(c, s) && t in c.g.defs && x in c.g.defs
  {
    Waiting(s.status[x]) && c.g.Dep(t, x) && c.out[t].skips && c.g.Continues(t)
  }

  lemma WrittenDepsOk(c: Setting, s: State, t: StepId, ph: Phase, x: StepId)
    requires Shaped(c, s) && t in c.g.defs && x in c.g.defs && DepsOk(c, s, x)
    requires InPhase(s, t, Live) && Executing(s.status[t]) && c.out[t].Valid() && ph != Idle
    requires !OutOfOrder(c, s, t, x)
    ensures DepsOk(c, Written(c, s, t, ph), x)
  {
    DepsCarry(c, s, Written(c, s, t, ph), x);
  }

  /** What writing the outcome of `t` leaves true of `x`. */
  lemma WrittenOk(c: Setting, s: State, t: StepId, ph: Phase, x: StepId)
    requires Shaped(c, s) && AllOk(c, s) && InPhase(s, t, Live) && t in c.g.defs && x in c.g.defs
    requires ph == Owing || (ph == Failing && c.out[t].status == FAILED && (c.out[t].skips ==> !c.g.Continues(t)))
    ensures StepOk(c, Written(c, s, t, ph), x)
    ensures c.g.Dep(t, x) ==> s.phase[x] == Idle && x != t && s.status[x] != READY
    ensures !OutOfOrder(c, s, t, x) ==> DepsOk(c, Written(c, s, t, ph), x)
  {
    assert Ok(c, s, t) && Ok(c, s, x) && c.out[t].Valid();
    WrittenStepOk(c, s, t, ph, x);
    if c.g.Dep(t, x) {
      NotExecutingDep(c, s, t, x);
    }
    if !OutOfOrder(c, s, t, x) {
      WrittenDepsOk(c, s, t, ph, x);
    }
  }

  /** The third clause of DepsOk, with `t` left out. */
  ghost predicate NoneSkippingBut(c: Setting, s: State, t: StepId, x: StepId)
    requires Shaped(c, s)
  {
    forall d :: c.g.Dep(d, x) && d != t ==> !(s.status[d] == FAILED && c.out[d].skips && c.g.Continues(d))
  }

  lemma WrittenButT(c: Setting, s: State, t: StepId, x: StepId)
    requires Shaped(c, s) && AllOk(c, s) && InPhase(s, t, Live) && t in c.g.defs && x in c.g.defs
    ensures Waiting(s.status[x]) ==> NoneSkippingBut(c, Written(c, s, t, Owing), t, x)
  {
    assert Ok(c, s, x);
  }

  /** What skipping the dependents of `t` makes of one step. */
  lemma SkipMoves(c: Setting, t: StepId, m: State, new': Statuses, d: StepId)
    requires Shaped(c, m) && SkipPost(c.g, t, m.status, new') && d in c.g.defs
    ensures new'[d] == m.status[d] || (Waiting(m.status[d]) && new'[d] == SKIPPED)
  {
    assert SkipOk(c.g, t, m.status, new', d);
  }

  /** A step that is skipped now has its reason. */
  lemma SkippedNowOk(c: Setting, t: StepId, m: State, new': Statuses, x: StepId)
    requires Shaped(c, m) && t in c.g.defs && x in c.g.defs
    requires m.status[t] == FAILED && c.out[t].skips && SkipPost(c.g, t, m.status, new')
    requires StepOk(c, m, x) && new'[x] == SKIPPED && m.status[x] != SKIPPED
    ensures Ok(c, m.(status := new'), x)
  {
    var s' := m.(status := new');
    assert c.out[x].Valid();
    SkipMoves(c, t, m, new', t);
    assert SkipOk(c.g, t, m.status, new', x);
    if c.g.Dep(t, x) {
      assert DepBad(c, s', t);
    } else {
      var d :| c.g.Dep(d, x) && new'[d] == SKIPPED;
      assert DepBad(c, s', d);
    }
  }

  /** Skipping the dependents of `t` brings every step into order. */
  lemma SkipRestores(c: Setting, t: StepId, m: State, new': Statuses, x: StepId)
    requires Shaped(c, m) && t in c.g.defs && x in c.g.defs
    requires m.status[t] == FAILED && c.out[t].skips && SkipPost(c.g, t, m.status, new')
    requires StepOk(c, m, x)
    requires c.g.Dep(t, x) ==> m.phase[x] == Idle && m.status[x] != READY
    requires DepsOk(c, m, x) || (Waiting(m.status[x]) && c.g.Dep(t, x) && NoneSkippingBut(c, m, t, x))
    ensures Ok(c, m.(status := new'), x)
  {
    if new'[x] == SKIPPED && m.status[x] != SKIPPED {
      SkippedNowOk(c, t, m, new', x);
    } else {
      assert SkipOk(c.g, t, m.status, new', x);
      forall d | c.g.Dep(d, x) ensures new'[d] == m.status[d] || (Waiting(m.status[d]) && new'[d] == SKIPPED) {
        SkipMoves(c, t, m, new', d);
      }
      assert DepsOk(c, m, x);
      DepsCarry(c, m, m.(status := new'), x);
    }
  }

  lemma SettleKeepsOk(c: Setting, s: State, t: StepId, s': State, x: StepId)
    requires Shaped(c, s) && AllOk(c, s) && Next(c, s, Settle(t), s') && Shaped(c, s') && x in c.g.defs
    ensures Ok(c, s', x)
  {
    var m := Written(c, s, t, Owing);
    WrittenOk(c, s, t, Owing, x);
    assert c.out[t].Valid();
    if c.out[t].skips {
      WrittenButT(c, s, t, x);
      SkipRestores(c, t, m, s'.status, x);
      SameOk(c, m.(status := s'.status), s', x);
    } else {
      assert Ok(c, m, x);
      SameOk(c, m, s', x);
    }
  }

  lemma SettleKeepsShape(c: Setting, s: State, t: StepId, s': State)
    requires Shaped(c, s) && Next(c, s, Settle(t), s')
    ensures Shaped(c, s')
  {
  }

  lemma SettleKeepsAll(c: Setting, s: State, t: StepId, s': State)
    requires Shaped(c, s) && AllOk(c, s) && Next(c, s, Settle(t), s') && Shaped(c, s')
    ensures AllOk(c, s')
  {
    forall x | x in c.g.defs ensures Ok(c, s', x) {
      SettleKeepsOk(c, s, t, s', x);
    }
  }

  lemma SettleKeepsInv(c: Setting, s: State, t: StepId, s': State)
    requires Inv(c, s) && Next(c, s, Settle(t), s')
    ensures Inv(c, s')
  {
    SettleKeepsShape(c, s, t, s');
    SettleKeepsAll(c, s, t, s');
    CountAfter(c, s, s', t, Owing);
    FinishedHasNoLive(c, s, t);
    LoopAfter(c, s, s', t);
  }

  lemma FinishedHasNoLive(c: Setting, s: State, t: StepId)
    requires Inv(c, s) && InPhase(s, t, Live)
    ensures s.loop != Finished
  {
    assert Ok(c, s, t);
  }

  lemma FailEarlyKeepsAll(c: Setting, s: State, t: StepId, s': State)
    requires Shaped(c, s) && AllOk(c, s) && Next(c, s, FailEarly(t), s')
    ensures Shaped(c, s') && AllOk(c, s')
  {
    assert s' == Written(c, s, t, Failing);
    forall x | x in c.g.defs ensures Ok(c, s', x) {
      WrittenOk(c, s, t, Failing, x);
    }
  }

  lemma FailEarlyKeepsInv(c: Setting, s: State, t: StepId, s': State)
    requires Inv(c, s) && Next(c, s, FailEarly(t), s')
    ensures Inv(c, s')
  {
    FailEarlyKeepsAll(c, s, t, s');
    CountAfter(c, s, s', t, Failing);
    FinishedHasNoLive(c, s, t);
    LoopAfter(c, s, s', t);
  }

  /** Giving back the slot of a failing step leaves every step in order. */
  lemma ReleasedOk(c: Setting, s: State, t: StepId, x: StepId)
    requires Shaped(c, s) && AllOk(c, s) && InPhase(s, t, Failing) && t in c.g.defs && x in c.g.defs
    ensures var m := s.(phase := s.phase[t := Owing]);
      && Ok(c, m, x) && m.status[t] == FAILED
      && (c.out[t].skips && c.g.Dep(t, x) ==> m.phase[x] == Idle && m.status[x] != READY)
  {
    assert Ok(c, s, t) && Ok(c, s, x);
    DepsCarry(c, s, s.(phase := s.phase[t := Owing]), x);
    if c.out[t].skips && c.g.Dep(t, x) {
      assert !DepOk(c, s, t);
      NotExecutingDep(c, s, t, x);
    }
  }

  lemma ReleaseKeepsOk(c: Setting, s: State, t: StepId, s': State, x: StepId)
    requires Shaped(c, s) && AllOk(c, s) && Next(c, s, ReleaseFailed(t), s') && Shaped(c, s') && x in c.g.defs
    ensures Ok(c, s', x)
  {
    var m := s.(phase := s.phase[t := Owing]);
    ReleasedOk(c, s, t, x);
    if c.out[t].skips {
      SkipRestores(c, t, m, s'.status, x);
      SameOk(c, m.(status := s'.status), s', x);
    } else {
      SameOk(c, m, s', x);
    }
  }

  /** Whether a step is in order does not depend on the counters or the loop. */
  lemma SameOk(c: Setting, s: State, s': State, x: StepId)
    requires Shaped(c, s) && Shaped(c, s') && x in c.g.defs && Ok(c, s, x)
    requires s'.status == s.status && s'.phase == s.phase && s'.crashed == s.crashed
    ensures Ok(c, s', x)
  {
    if s'.status[x] == SKIPPED {
      var d :| c.g.Dep(d, x) && DepBad(c, s, d);
      assert DepBad(c, s', d);
    }
  }

  /** Skipping dependents leaves finished steps alone. */
  lemma SkipKeepsTerminal(g: Graph, t: StepId, old': Statuses, new': Statuses)
    requires SkipPost(g, t, old', new') && AllTerminal(g, old')
    ensures AllTerminal(g, new')
  {
    forall x | x in g.defs ensures IsTerminal(new'[x]) {
      assert SkipOk(g, t, old', new', x);
    }
  }

  lemma ReleaseKeepsShape(c: Setting, s: State, t: StepId, s': State)
    requires Shaped(c, s) && Next(c, s, ReleaseFailed(t), s')
    ensures Shaped(c, s')
  {
  }

  lemma ReleaseKeepsAll(c: Setting, s: State, t: StepId, s': State)
    requires Shaped(c, s) && AllOk(c, s) && Next(c, s, ReleaseFailed(t), s') && Shaped(c, s')
    ensures AllOk(c, s')
  {
    forall x | x in c.g.defs ensures Ok(c, s', x) {
      ReleaseKeepsOk(c, s, t, s', x);
    }
  }

  lemma ReleaseKeepsInv(c: Setting, s: State, t: StepId, s': State)
    requires Inv(c, s) && Next(c, s, ReleaseFailed(t), s')
    ensures Inv(c, s')
  {
    ReleaseKeepsShape(c, s, t, s');
    ReleaseKeepsAll(c, s, t, s');
    CountAfter(c, s, s', t, Owing);
    if c.out[t].skips && AllTerminal(c.g, s.status) {
      SkipKeepsTerminal(c.g, t, s.status, s'.status);
    }
    LoopAfter(c, s, s', t);
  }

  /** An event that only moves `t` between executing statuses or phases. */
  lemma SameStatusesOk(c: Setting, s: State, s': State, t: StepId, x: StepId)
    requires Shaped(c, s) && Shaped(c, s') && t in c.g.defs && x in c.g.defs && Ok(c, s, t) && Ok(c, s, x)
    requires s.phase[t] != Idle && s'.phase[t] != Idle
    requires s'.status == s.status[t := s'.status[t]]
    requires s'.status[t] == s.status[t] || (Executing(s.status[t]) && Executing(s'.status[t]))
    requires s'.phase == s.phase[t := s'.phase[t]]
    requires forall u :: u != t ==> (u in s'.crashed <==> u in s.crashed)
    requires StepOk(c, s', t)
    ensures Ok(c, s', x)
  {
    DepsCarry(c, s, s', x);
  }

  /** Such an event leaves every step in order. */
  lemma MovedOk(c: Setting, s: State, s': State, t: StepId)
    requires Shaped(c, s) && Shaped(c, s') && AllOk(c, s) && t in c.g.defs && StepOk(c, s', t)
    requires s.phase[t] != Idle && s'.phase[t] != Idle
    requires s'.status == s.status[t := s'.status[t]]
    requires s'.status[t] == s.status[t] || (Executing(s.status[t]) && Executing(s'.status[t]))
    requires s'.phase == s.phase[t := s'.phase[t]]
    requires forall u :: u != t ==> (u in s'.crashed <==> u in s.crashed)
    ensures AllOk(c, s')
  {
    assert Ok(c, s, t);
    forall x | x in c.g.defs ensures Ok(c, s', x) {
      assert Ok(c, s, x);
      SameStatusesOk(c, s, s', t, x);
    }
  }

  lemma ProgressKeepsInv(c: Setting, s: State, t: StepId, checking: bool, s': State)
    requires Inv(c, s) && Next(c, s, Progress(t, checking), s')
    ensures Inv(c, s')
  {
    assert Ok(c, s, t);
    MovedOk(c, s, s', t);
    CountAfter(c, s, s', t, Live);
    FinishedHasNoLive(c, s, t);
    NotifiedLoop(c, s, s');
  }

  lemma FinalNotifyMoves(c: Setting, s: State, t: StepId, s': State)
    requires Shaped(c, s) && AllOk(c, s) && Next(c, s, FinalNotify(t), s')
    ensures Shaped(c, s') && t in c.g.defs && StepOk(c, s', t)
    ensures s.phase[t] == Owing && s'.phase == s.phase[t := Done]
    ensures s'.status == s.status && s'.running == s.running && s'.crashed == s.crashed
    ensures s'.loop != Suspended && (s'.loop == Finished ==> s.loop == Finished)
  {
    assert Ok(c, s, t);
  }

  lemma FinalNotifyKeepsInv(c: Setting, s: State, t: StepId, s': State)
    requires Inv(c, s) && Next(c, s, FinalNotify(t), s')
    ensures Inv(c, s')
  {
    FinalNotifyMoves(c, s, t, s');
    MovedOk(c, s, s', t);
    CountAfter(c, s, s', t, Done);
    NotifiedLoop(c, s, s');
  }

  lemma CrashKeepsInv(c: Setting, s: State, t: StepId, s': State)
    requires Inv(c, s) && Next(c, s, Crash(t), s')
    ensures Inv(c, s')
  {
    assert Ok(c, s, t);
    MovedOk(c, s, s', t);
    CountAfter(c, s, s', t, Owing);
    FinishedHasNoLive(c, s, t);
    LoopAfter(c, s, s', t);
  }

  /** Every event keeps the invariant. */
  lemma NextKeepsInv(c: Setting, s: State, e: Event, s': State)
    requires Inv(c, s) && Next(c, s, e, s')
    ensures Inv(c, s')
  {
    match e
    case Wake => WakeKeepsInv(c, s, s');
    case Progress(t, checking) => ProgressKeepsInv(c, s, t, checking, s');
    case Settle(t) => SettleKeepsInv(c, s, t, s');
    case FailEarly(t) => FailEarlyKeepsInv(c, s, t, s');
    case ReleaseFailed(t) => ReleaseKeepsInv(c, s, t, s');
    case FinalNotify(t) => FinalNotifyKeepsInv(c, s, t, s');
    case Crash(t) => CrashKeepsInv(c, s, t, s');
  }

  lemma {:induction false} RunKeepsInv(c: Setting, r: Run, i: nat)
    requires c.Valid() && r.Of(c) && i < |r.states|
    ensures Inv(c, r.states[i])
  {
    if i == 0 {
      InitInv(c, r.states[0]);
    } else {
      RunKeepsInv(c, r, i - 1);
      assert r.StepAt(c, i - 1);
      NextKeepsInv(c, r.states[i - 1], r.events[i - 1], r.states[i]);
    }
  }
}
