/** What holds of every run of the scheduler: the statuses do not depend on the
    order in which steps finish, no wakeup is lost, every run ends. */
module SchedulerTheorems {
  import opened Wrappers
  import opened WorkflowGraph
  import opened Scheduler
  import opened SchedulerInvariant

  // ------------------------------------------------------------- confluence

  lemma SkippedFromDeps(c: Setting, rank: map<StepId, nat>, s: State, t: StepId)
    requires Shaped(c, s) && Ranked(c.g, rank) && t in c.g.defs && DepsOk(c, s, t)
    requires s.status[t] == SKIPPED
    requires forall d :: c.g.Dep(d, t) && IsTerminal(s.status[d]) ==> s.status[d] == Final(c.g, rank, c.out, d)
    ensures Final(c.g, rank, c.out, t) == SKIPPED
  {
    var d :| c.g.Dep(d, t) && DepBad(c, s, d);
    assert Stops(Final(c.g, rank, c.out, d), c.g.Continues(d), c.out[d].skips);
  }

  /** A terminal status follows from the final statuses of the dependencies. */
  lemma FinalFromDeps(c: Setting, rank: map<StepId, nat>, s: State, t: StepId)
    requires Shaped(c, s) && Ranked(c.g, rank) && t in c.g.defs && Ok(c, s, t)
    requires IsTerminal(s.status[t])
    requires forall d :: c.g.Dep(d, t) && IsTerminal(s.status[d]) ==> s.status[d] == Final(c.g, rank, c.out, d)
    ensures s.status[t] == Final(c.g, rank, c.out, t)
  {
    if s.status[t] == SKIPPED {
      SkippedFromDeps(c, rank, s, t);
    } else {
      assert s.phase[t] != Idle && s.status[t] == c.out[t].status;
      forall d | c.g.Dep(d, t)
        ensures !Stops(Final(c.g, rank, c.out, d), c.g.Continues(d), c.out[d].skips)
      {
        assert DepOk(c, s, d);
      }
    }
  }

  /** Every terminal status is the final one, in every reachable state and even
      when other lifecycles have crashed. */
  lemma {:induction false} TerminalIsFinal(c: Setting, rank: map<StepId, nat>, s: State, t: StepId)
    requires Inv(c, s) && Ranked(c.g, rank) && t in c.g.defs
    requires IsTerminal(s.status[t])
    ensures s.status[t] == Final(c.g, rank, c.out, t)
    decreases rank[t]
  {
    assert Ok(c, s, t);
    forall d | c.g.Dep(d, t) && IsTerminal(s.status[d])
      ensures s.status[d] == Final(c.g, rank, c.out, d)
    {
      TerminalIsFinal(c, rank, s, d);
    }
    FinalFromDeps(c, rank, s, t);
  }

  /** Nothing can happen any more: the loop is not about to run and no lifecycle
      is still at work. */
  ghost predicate Quiescent(s: State) {
    s.loop != Woken && !Active(s)
  }

  ghost predicate HasSlots(c: Setting) {
    c.limit.Some? ==> c.limit.value >= 1
  }

  /** Two complete runs of the same workflow with the same outcomes end in the same
      statuses, whatever their interleavings, visiting orders and concurrency limits:
      in the final map, under any ranking. */
  lemma Confluence(c0: Setting, r0: Run, c1: Setting, r1: Run)
    requires c0.Valid() && r0.Of(c0) && c1.Valid() && r1.Of(c1)
    requires c0.g.defs == c1.g.defs && c0.out == c1.out && Acyclic(c0.g)
    requires AllTerminalIn(c0, r0.Last()) && AllTerminalIn(c1, r1.Last())
    ensures r0.Last().status == r1.Last().status
    ensures forall rank :: Ranked(c0.g, rank) ==> r0.Last().status == FinalMap(c0.g, rank, c0.out)
  {
    var rank :| Ranked(c0.g, rank);
    RankedIgnoresOrder(c0.g, c1.g, rank);
    EndsFinal(c1, r1, rank);
    FinalMapIgnoresOrder(c0.g, c1.g, rank, c0.out);
    forall rank' | Ranked(c0.g, rank') ensures r0.Last().status == FinalMap(c0.g, rank', c0.out) {
      EndsFinal(c0, r0, rank');
    }
    assert Ranked(c0.g, rank);
  }

  lemma FinalMapIgnoresOrder(g0: Graph, g1: Graph, rank: map<StepId, nat>, out: Outcomes)
    requires g0.defs == g1.defs && Ranked(g0, rank) && Ranked(g1, rank) && ValidOutcomes(g0, out)
    ensures ValidOutcomes(g1, out) && FinalMap(g0, rank, out) == FinalMap(g1, rank, out)
  {
    forall s | s in g0.defs ensures Final(g0, rank, out, s) == Final(g1, rank, out, s) {
      FinalIgnoresOrder(g0, g1, rank, out, s);
    }
  }

  lemma RankedIgnoresOrder(g0: Graph, g1: Graph, rank: map<StepId, nat>)
    requires g0.defs == g1.defs && Ranked(g0, rank)
    ensures Ranked(g1, rank)
  {
    assert forall d, s :: g1.Dep(d, s) ==> g0.Dep(d, s);
  }

  ghost predicate AllTerminalIn(c: Setting, s: State) {
    s.status.Keys == c.g.defs.Keys && AllTerminal(c.g, s.status)
  }

  lemma AllFinal(c: Setting, rank: map<StepId, nat>, s: State)
    requires Inv(c, s) && Ranked(c.g, rank) && AllTerminal(c.g, s.status)
    ensures s.status == FinalMap(c.g, rank, c.out)
  {
    forall t | t in s.status ensures s.status[t] == Final(c.g, rank, c.out, t) {
      TerminalIsFinal(c, rank, s, t);
    }
  }

  lemma EndsFinal(c: Setting, r: Run, rank: map<StepId, nat>)
    requires c.Valid() && r.Of(c) && Ranked(c.g, rank)
    requires AllTerminalIn(c, r.Last())
    ensures r.Last().status == FinalMap(c.g, rank, c.out)
  {
    RunKeepsInv(c, r, |r.states| - 1);
    AllFinal(c, rank, r.Last());
  }

  lemma {:induction false} FinalIgnoresOrder(g0: Graph, g1: Graph, rank: map<StepId, nat>, out: Outcomes, s: StepId)
    requires g0.defs == g1.defs && Ranked(g0, rank) && Ranked(g1, rank)
    requires ValidOutcomes(g0, out) && ValidOutcomes(g1, out) && s in g0.defs
    ensures Final(g0, rank, out, s) == Final(g1, rank, out, s)
    decreases rank[s]
  {
    forall d | g0.Dep(d, s) ensures Final(g0, rank, out, d) == Final(g1, rank, out, d) {
      FinalIgnoresOrder(g0, g1, rank, out, d);
    }
    assert forall d :: g0.Dep(d, s) == g1.Dep(d, s) && g0.Continues(d) == g1.Continues(d);
  }

  // -------------------------------------------------- no lost wakeup, no deadlock

  /** In a settled state an unfinished step traces back to a crashed lifecycle. */
  ghost predicate StuckOn(c: Setting, s: State, t: StepId) {
    exists a :: a in s.crashed && (a == t || Ancestor(c.g, a, t))
  }

  lemma NoSlotsNoRunning(s: State)
    requires !Active(s)
    ensures Slots(s) == {}
  {
    forall t | t in Slots(s) ensures false {
      assert ActiveStep(s, t);
    }
  }

  lemma {:induction false} StuckHasCrash(c: Setting, rank: map<StepId, nat>, s: State, t: StepId)
    requires Inv(c, s) && Ranked(c.g, rank) && HasSlots(c)
    requires !Active(s) && Quiet(c, s)
    requires t in c.g.defs && !IsTerminal(s.status[t])
    ensures StuckOn(c, s, t)
    decreases rank[t]
  {
    assert Ok(c, s, t);
    assert !ActiveStep(s, t);
    if t !in s.crashed {
      assert QuietAt(c, s, t);
      if s.status[t] == READY {
        NoSlotsNoRunning(s);
      }
      var d :| c.g.Dep(d, t) && !DepAllowsProgress(s.status[d], c.g.Continues(d));
      assert !DepBlocksDownstream(s.status[d], c.g.Continues(d));
      StuckHasCrash(c, rank, s, d);
      AncestorStep(c.g, d, t);
    }
  }

  /** No lost wakeup: whenever the loop is suspended, some launched lifecycle still
      owes its final `notify` or an exception has left a step unfinished for good. */
  lemma NoLostWakeup(c: Setting, r: Run, i: nat)
    requires c.Valid() && r.Of(c) && i < |r.states| && Acyclic(c.g) && HasSlots(c)
    requires r.states[i].loop == Suspended
    ensures Active(r.states[i]) || r.states[i].crashed != {}
  {
    var rank :| Ranked(c.g, rank);
    RunKeepsInv(c, r, i);
    var s := r.states[i];
    if !Active(s) {
      var t :| t in c.g.defs && !IsTerminal(s.status[t]);
      StuckHasCrash(c, rank, s, t);
    }
  }

  lemma CrashedIsUnfinished(c: Setting, s: State, t: StepId)
    requires Inv(c, s) && t in s.crashed
    ensures !IsTerminal(s.status[t])
  {
    assert Ok(c, s, t);
  }

  lemma NoSlotsNoLaunch(c: Setting, rank: map<StepId, nat>, s: State)
    requires Inv(c, s) && Ranked(c.g, rank) && !HasSlots(c) && c.g.defs.Keys != {}
    requires forall t :: t in c.g.defs ==> s.phase[t] == Idle
    ensures exists t :: t in c.g.defs && !IsTerminal(s.status[t])
  {
    var t := LowestStep(c.g, rank, c.g.defs.Keys);
    assert Ok(c, s, t);
  }

  lemma LowestStep(g: Graph, rank: map<StepId, nat>, among: set<StepId>) returns (t: StepId)
    requires Ranked(g, rank) && among != {} && among <= g.defs.Keys
    ensures t in among && forall u :: u in among ==> rank[t] <= rank[u]
  {
    assert exists u :: u in among;
    t :| t in among;
    if among != {t} {
      var u := LowestStep(g, rank, among - {t});
      if rank[u] < rank[t] {
        t := u;
      }
    }
  }

  ghost predicate AllIdle(c: Setting, s: State) {
    s.phase == (map t | t in c.g.defs :: Idle) && s.running == 0
  }

  lemma {:induction false} NoSlotsStaysIdle(c: Setting, r: Run, i: nat)
    requires c.Valid() && r.Of(c) && !HasSlots(c) && i < |r.states|
    ensures AllIdle(c, r.states[i])
  {
    if i > 0 {
      NoSlotsStaysIdle(c, r, i - 1);
      var s, s' := r.states[i - 1], r.states[i];
      assert r.StepAt(c, i - 1);
      assert Next(c, s, r.events[i - 1], s');
      if r.events[i - 1] == Wake {
        var mid: Statuses, launched: set<StepId> :| PassStep(c, s, mid, launched, s');
        assert launched == {};
      }
    }
  }

  /** A run that has come to rest has finished every step exactly when no lifecycle
      threw and the limit lets at least one step run (or there is no step). */
  lemma RestIsCompletion(c: Setting, r: Run)
    requires c.Valid() && r.Of(c) && Acyclic(c.g) && Quiescent(r.Last())
    ensures AllTerminalIn(c, r.Last()) <==>
            r.Last().crashed == {} && (HasSlots(c) || c.g.defs.Keys == {})
    ensures AllTerminalIn(c, r.Last()) <==> r.Last().loop == Finished
    ensures HasSlots(c) ==>
      forall t :: t in r.Last().status && !IsTerminal(r.Last().status[t]) ==> StuckOn(c, r.Last(), t)
  {
    var rank :| Ranked(c.g, rank);
    var s := r.Last();
    RunKeepsInv(c, r, |r.states| - 1);
    forall t | t in s.crashed ensures t in c.g.defs && !IsTerminal(s.status[t]) {
      CrashedIsUnfinished(c, s, t);
    }
    if !HasSlots(c) && c.g.defs.Keys != {} {
      NoSlotsStaysIdle(c, r, |r.states| - 1);
      NoSlotsNoLaunch(c, rank, s);
    }
    if HasSlots(c) {
      if s.loop == Suspended {
        var t :| t in c.g.defs && !IsTerminal(s.status[t]);
      }
      forall t | t in c.g.defs && !IsTerminal(s.status[t]) ensures StuckOn(c, s, t) {
        StuckHasCrash(c, rank, s, t);
      }
      if t :| t in c.g.defs && !IsTerminal(s.status[t]) {
        assert StuckOn(c, s, t);
      }
    }
  }

  // ---------------------------------------------- two runs that rest unfinished

  /** One step without dependencies, which would succeed. */
  const LONE := Graph([1], map[1 := StepDef([], Abort)])

  function LoneSetting(limit: Option<int>): Setting {
    Setting(LONE, limit, map[1 := Outcome(SUCCEEDED, false)], map[1 := 0])
  }

  function LoneState(status: StepStatus, phase: Phase, crashed: bool, running: int, loop: Loop): State {
    State(map[1 := status], map[1 := phase], map[1 := 0], if crashed then {1} else {}, running, false, loop)
  }

  ghost predicate RestsUnfinished(c: Setting, r: Run) {
    && c.Valid() && r.Of(c) && Acyclic(c.g) && Quiescent(r.Last())
    && !AllTerminalIn(c, r.Last())
  }

  lemma LoneIsSound(limit: Option<int>)
    ensures LoneSetting(limit).Valid() && Acyclic(LONE)
    ensures Init(LoneSetting(limit), LoneState(PENDING, Idle, false, 0, Woken))
  {
    assert Ranked(LONE, map[1 := 0]);
  }

  lemma LoneStarts()
    ensures Next(LoneSetting(None), LoneState(PENDING, Idle, false, 0, Woken), Wake,
                 LoneState(RUNNING, Live, false, 1, Suspended))
  {
    var s, s' := LoneState(PENDING, Idle, false, 0, Woken), LoneState(RUNNING, Live, false, 1, Suspended);
    var mid: Statuses := map[1 := READY];
    assert UpdateOk(LONE, s.status, mid, 1) && LaunchOk(mid, s'.status, {1}, 1);
    assert !IsTerminal(s'.status[1]);
    assert PassStep(LoneSetting(None), s, mid, {1}, s');
  }

  lemma LoneStarves()
    ensures Next(LoneSetting(Some(0)), LoneState(PENDING, Idle, false, 0, Woken), Wake,
                 LoneState(READY, Idle, false, 0, Suspended))
  {
    var s, s' := LoneState(PENDING, Idle, false, 0, Woken), LoneState(READY, Idle, false, 0, Suspended);
    assert UpdateOk(LONE, s.status, s'.status, 1) && LaunchOk(s'.status, s'.status, {}, 1);
    assert !IsTerminal(s'.status[1]);
    assert PassStep(LoneSetting(Some(0)), s, s'.status, {}, s');
  }

  lemma LoneWaits()
    ensures Next(LoneSetting(None), LoneState(RUNNING, Done, true, 0, Woken), Wake,
                 LoneState(RUNNING, Done, true, 0, Suspended))
  {
    var s, s' := LoneState(RUNNING, Done, true, 0, Woken), LoneState(RUNNING, Done, true, 0, Suspended);
    assert UpdateOk(LONE, s.status, s.status, 1) && LaunchOk(s.status, s.status, {}, 1);
    assert !IsTerminal(s'.status[1]);
    assert PassStep(LoneSetting(None), s, s.status, {}, s');
  }

  function StarvedRun(): Run {
    Run([LoneState(PENDING, Idle, false, 0, Woken), LoneState(READY, Idle, false, 0, Suspended)], [Wake])
  }

  /** With a limit of zero the step is ready for ever. */
  lemma RestsStarved()
    ensures RestsUnfinished(LoneSetting(Some(0)), StarvedRun())
  {
    LoneIsSound(Some(0));
    LoneStarves();
    assert !IsTerminal(StarvedRun().Last().status[1]);
  }

  function ThrownRun(): Run {
    Run([LoneState(PENDING, Idle, false, 0, Woken), LoneState(RUNNING, Live, false, 1, Suspended),
         LoneState(RUNNING, Owing, true, 0, Suspended), LoneState(RUNNING, Done, true, 0, Woken),
         LoneState(RUNNING, Done, true, 0, Suspended)],
        [Wake, Crash(1), FinalNotify(1), Wake])
  }

  lemma LoneThrows()
    ensures Next(LoneSetting(None), LoneState(RUNNING, Live, false, 1, Suspended), Crash(1),
                 LoneState(RUNNING, Owing, true, 0, Suspended))
  {
  }

  lemma LoneNotifies()
    ensures Next(LoneSetting(None), LoneState(RUNNING, Owing, true, 0, Suspended), FinalNotify(1),
                 LoneState(RUNNING, Done, true, 0, Woken))
  {
  }

  lemma ThrownNext(i: nat)
    requires i < 4
    ensures ThrownRun().StepAt(LoneSetting(None), i)
  {
    if i == 0 {
      LoneStarts();
    } else if i == 1 {
      LoneThrows();
    } else if i == 2 {
      LoneNotifies();
    } else {
      LoneWaits();
    }
  }

  /** After an exception the step shows as running for ever, and the loop waits. */
  lemma RestsAfterException()
    ensures RestsUnfinished(LoneSetting(None), ThrownRun())
  {
    var c, r := LoneSetting(None), ThrownRun();
    LoneIsSound(None);
    forall i: nat ensures r.StepAt(c, i) {
      if i < 4 {
        ThrownNext(i);
      }
    }
    assert !IsTerminal(r.Last().status[1]);
  }

  // ------------------------------------------------------------- termination

  ghost function Pot(s: State, t: StepId): nat
    requires t in s.status && t in s.phase && t in s.notes
  {
    match s.phase[t]
    case Idle => if s.status[t] == SKIPPED then 0 else 5 + 2 * s.notes[t]
    case Live => 4 + 2 * s.notes[t]
    case Failing => 3
    case Owing => 2
    case Done => 0
  }

  ghost function Pots(c: Setting, s: State): map<StepId, nat>
    requires Shaped(c, s)
  {
    map t | t in c.g.defs :: Pot(s, t)
  }

  ghost function Sum(order: seq<StepId>, m: map<StepId, nat>): nat
    requires forall t :: t in order ==> t in m
  {
    if order == [] then 0 else m[order[0]] + Sum(order[1..], m)
  }

  ghost predicate Drops(m: map<StepId, nat>, m': map<StepId, nat>, t: StepId) {
    t in m && t in m' && m'[t] <= m[t]
  }

  lemma {:induction false} SumLe(order: seq<StepId>, m: map<StepId, nat>, m': map<StepId, nat>)
    requires forall t {:trigger Drops(m, m', t)} :: t in order ==> Drops(m, m', t)
    requires forall t :: t in order ==> t in m && t in m'
    ensures Sum(order, m') <= Sum(order, m)
  {
    if order != [] {
      assert Drops(m, m', order[0]);
      SumLe(order[1..], m, m');
    }
  }

  lemma {:induction false} SumDrop(order: seq<StepId>, m: map<StepId, nat>, m': map<StepId, nat>, u: StepId)
    requires forall t {:trigger Drops(m, m', t)} :: t in order ==> Drops(m, m', t)
    requires forall t :: t in order ==> t in m && t in m'
    requires u in order
    ensures Sum(order, m') + m[u] <= Sum(order, m) + m'[u]
  {
    assert Drops(m, m', order[0]);
    if order[0] == u {
      SumLe(order[1..], m, m');
    } else {
      SumDrop(order[1..], m, m', u);
    }
  }

  ghost function Wakeups(s: State): nat {
    (if s.loop == Woken then 1 else 0) + (if s.pending then 1 else 0)
  }

  /** The work left: it drops with every event. */
  ghost function Work(c: Setting, s: State): nat
    requires c.g.Valid() && Shaped(c, s)
  {
    Sum(c.g.order, Pots(c, s)) + Wakeups(s)
  }

  /** A pass launches a step, skips it or leaves its work as it was. */
  lemma FramedDropsPot(c: Setting, s: State, mid: Statuses, launched: set<StepId>, s': State, t: StepId)
    requires Passed(c, s, mid, launched, s') && t in c.g.defs && StepOk(c, s, t) && s'.notes == s.notes
    ensures Pot(s', t) <= Pot(s, t)
    ensures s.status[t] == PENDING && mid[t] == SKIPPED ==> Pot(s', t) + 5 <= Pot(s, t)
  {
    assert Framed(s, mid, launched, s', t);
  }

  lemma PassDropsPot(c: Setting, s: State, mid: Statuses, launched: set<StepId>, s': State, t: StepId)
    requires Inv(c, s) && Inv(c, s') && PassStep(c, s, mid, launched, s') && t in c.g.defs
    ensures Pot(s', t) <= Pot(s, t)
    ensures s.status[t] == PENDING && mid[t] == SKIPPED ==> Pot(s', t) + 5 <= Pot(s, t)
  {
    PassIsPassed(c, s, mid, launched, s');
    assert Ok(c, s, t);
    FramedDropsPot(c, s, mid, launched, s', t);
  }

  lemma PassDropsWork(c: Setting, s: State, mid: Statuses, launched: set<StepId>, s': State)
    requires c.g.Valid() && Inv(c, s) && Inv(c, s')
    requires s.loop == Woken && PassStep(c, s, mid, launched, s')
    ensures Work(c, s') < Work(c, s)
  {
    var m, m' := Pots(c, s), Pots(c, s');
    forall t | t in c.g.order ensures Drops(m, m', t) {
      PassDropsPot(c, s, mid, launched, s', t);
    }
    if SkippedSome(s.status, mid) {
      var t :| t in s.status && s.status[t] == PENDING && mid[t] == SKIPPED;
      PassDropsPot(c, s, mid, launched, s', t);
      SumDrop(c.g.order, m, m', t);
    } else {
      SumLe(c.g.order, m, m');
    }
  }

  /** How an event of a lifecycle may change one status. */
  lemma StatusAfter(c: Setting, s: State, e: Event, s': State, t: StepId)
    requires Shaped(c, s) && Shaped(c, s') && !e.Wake? && Next(c, s, e, s') && t in c.g.defs && t != e.step
    ensures s'.phase[t] == s.phase[t] && s'.notes[t] == s.notes[t]
    ensures s'.status[t] == s.status[t] || (Waiting(s.status[t]) && s'.status[t] == SKIPPED)
  {
    if e.Settle? && c.out[e.step].skips {
      assert SkipOk(c.g, e.step, s.status[e.step := c.out[e.step].status], s'.status, t);
    }
    if e.ReleaseFailed? && c.out[e.step].skips {
      assert SkipOk(c.g, e.step, s.status, s'.status, t);
    }
  }

  lemma NotifyDropsPot(c: Setting, s: State, e: Event, s': State)
    requires Shaped(c, s) && Shaped(c, s') && (e.Progress? || e.FinalNotify?) && Next(c, s, e, s')
    requires e.step in c.g.defs
    ensures Pot(s', e.step) + Wakeups(s') < Pot(s, e.step) + Wakeups(s)
    ensures Pot(s', e.step) <= Pot(s, e.step)
  {
  }

  lemma OwnStepDropsPot(c: Setting, s: State, e: Event, s': State)
    requires Shaped(c, s) && Shaped(c, s') && !e.Wake? && Next(c, s, e, s') && e.step in c.g.defs
    ensures Pot(s', e.step) + Wakeups(s') < Pot(s, e.step) + Wakeups(s)
    ensures Pot(s', e.step) <= Pot(s, e.step)
  {
    if e.Progress? || e.FinalNotify? {
      NotifyDropsPot(c, s, e, s');
    } else {
      assert s'.phase[e.step] == (if e.FailEarly? then Failing else Owing);
      assert s'.loop == s.loop && s'.pending == s.pending && s'.notes == s.notes;
    }
  }

  lemma StepDropsPot(c: Setting, s: State, e: Event, s': State, t: StepId)
    requires Inv(c, s) && Inv(c, s') && !e.Wake? && Next(c, s, e, s') && t in c.g.defs
    ensures Pot(s', t) <= Pot(s, t)
    ensures t == e.step ==> Pot(s', t) + Wakeups(s') < Pot(s, t) + Wakeups(s)
  {
    if t == e.step {
      OwnStepDropsPot(c, s, e, s');
    } else {
      StatusAfter(c, s, e, s', t);
    }
  }

  lemma StepDropsWork(c: Setting, s: State, e: Event, s': State)
    requires c.g.Valid() && Inv(c, s) && Inv(c, s')
    requires !e.Wake? && Next(c, s, e, s')
    ensures Work(c, s') < Work(c, s)
  {
    var m, m' := Pots(c, s), Pots(c, s');
    forall t | t in c.g.order ensures Drops(m, m', t) {
      StepDropsPot(c, s, e, s', t);
    }
    StepDropsPot(c, s, e, s', e.step);
    SumDrop(c.g.order, m, m', e.step);
  }

  lemma NextDropsWork(c: Setting, s: State, e: Event, s': State)
    requires c.g.Valid() && Inv(c, s) && Next(c, s, e, s')
    ensures Inv(c, s') && Work(c, s') < Work(c, s)
  {
    NextKeepsInv(c, s, e, s');
    if e.Wake? {
      var mid: Statuses, launched: set<StepId> :| PassStep(c, s, mid, launched, s');
      PassDropsWork(c, s, mid, launched, s');
    } else {
      StepDropsWork(c, s, e, s');
    }
  }

  lemma EventDropsWork(c: Setting, r: Run, i: nat)
    requires c.g.Valid() && c.Valid() && r.Of(c) && i < |r.events|
    ensures Inv(c, r.states[i]) && Inv(c, r.states[i + 1])
    ensures Work(c, r.states[i + 1]) < Work(c, r.states[i])
  {
    RunKeepsInv(c, r, i);
    assert r.StepAt(c, i);
    NextDropsWork(c, r.states[i], r.events[i], r.states[i + 1]);
  }

  lemma {:induction false} RunDropsWork(c: Setting, r: Run, i: nat)
    requires c.g.Valid() && c.Valid() && r.Of(c) && i < |r.states|
    ensures Inv(c, r.states[0]) && Inv(c, r.states[i])
    ensures Work(c, r.states[i]) + i <= Work(c, r.states[0])
  {
    RunKeepsInv(c, r, 0);
    if i > 0 {
      RunDropsWork(c, r, i - 1);
      EventDropsWork(c, r, i - 1);
    }
  }

  lemma {:induction false} InitialSum(order: seq<StepId>, m: map<StepId, nat>, notes: map<StepId, nat>)
    requires forall t :: t in order ==> t in m && t in notes && m[t] == 5 + 2 * notes[t]
    ensures Sum(order, m) == 5 * |order| + 2 * Sum(order, notes)
  {
    if order != [] {
      assert order[0] in order;
      InitialSum(order[1..], m, notes);
    }
  }

  /** Every run ends: its length is bounded by the workflow and the number of
      notifications its lifecycles make. */
  lemma RunsAreFinite(c: Setting, r: Run)
    requires c.g.Valid() && c.Valid() && r.Of(c)
    ensures |r.events| <= 5 * |c.g.order| + 2 * Sum(c.g.order, c.notes) + 1
  {
    RunDropsWork(c, r, |r.events|);
    InitialSum(c.g.order, Pots(c, r.states[0]), c.notes);
  }

  // ------------------------------------------- every unfinished run can go on

  /** The waiting steps that skipping from `failed` reaches. */
  ghost predicate SkipReaches(g: Graph, rank: map<StepId, nat>, failed: StepId, old': Statuses, s: StepId)
    requires Ranked(g, rank) && old'.Keys == g.defs.Keys && s in g.defs
    decreases rank[s]
  {
    Waiting(old'[s]) &&
    (failed in g.defs[s].dependsOn ||
     exists d :: g.Dep(d, s) && (old'[d] == SKIPPED || SkipReaches(g, rank, failed, old', d)))
  }

  lemma SkipExists(g: Graph, rank: map<StepId, nat>, failed: StepId, old': Statuses) returns (new': Statuses)
    requires Ranked(g, rank) && old'.Keys == g.defs.Keys
    ensures SkipPost(g, failed, old', new')
  {
    new' := map s | s in g.defs :: if SkipReaches(g, rank, failed, old', s) then SKIPPED else old'[s];
    forall s | s in g.defs ensures SkipOk(g, failed, old', new', s) {
      if new'[s] != old'[s] && failed !in g.defs[s].dependsOn {
        var d :| g.Dep(d, s) && (old'[d] == SKIPPED || SkipReaches(g, rank, failed, old', d));
        assert new'[d] == SKIPPED;
      }
    }
  }

  lemma UpdateExists(g: Graph, old': Statuses) returns (new': Statuses)
    requires old'.Keys == g.defs.Keys
    ensures UpdatePost(g, old', new')
  {
    new' := map s | s in g.defs ::
      if old'[s] != PENDING then old'[s]
      else if SomeDepBlocks(g, old', s) then SKIPPED
      else if AllDepsAllow(g, old', s) then READY
      else PENDING;
    forall s | s in g.defs ensures UpdateOk(g, old', new', s) {
      if old'[s] == PENDING && SomeDepBlocks(g, old', s) {
        var d :| g.Dep(d, s) && DepBlocksDownstream(old'[d], g.Continues(d));
        assert !DepAllowsProgress(old'[d], g.Continues(d));
        assert new'[d] == old'[d];
      }
    }
  }

  lemma {:induction false} SubsetOfSize(s: set<StepId>, n: nat) returns (t: set<StepId>)
    requires n <= |s|
    ensures t <= s && |t| == n
  {
    if n == |s| {
      t := s;
    } else {
      var x :| x in s;
      t := SubsetOfSize(s - {x}, n);
    }
  }

  lemma LaunchExists(g: Graph, limit: Option<int>, old': Statuses, running: int)
    returns (new': Statuses, launched: set<StepId>)
    requires old'.Keys == g.defs.Keys
    ensures LaunchPost(g, limit, old', new', launched, running, running + |launched|)
  {
    var ready := set s | s in g.defs && old'[s] == READY;
    var free := if limit.None? || limit.value - running > |ready| then |ready|
                else if limit.value <= running then 0 else limit.value - running;
    launched := SubsetOfSize(ready, free);
    new' := map s | s in g.defs :: if s in launched then RUNNING else old'[s];
    forall s | s in g.defs ensures LaunchOk(old', new', launched, s) {}
    if s :| s in new' && new'[s] == READY {
      assert s in ready && s !in launched;
      SubsetCard(launched, ready - {s});
    }
  }

  ghost function AfterPass(c: Setting, s: State, mid: Statuses, st: Statuses, launched: set<StepId>): State
    requires st.Keys == c.g.defs.Keys
  {
    var p := s.pending || SkippedSome(s.status, mid);
    var done := AllTerminal(c.g, st);
    State(st, LivePhases(s.phase, launched), s.notes, s.crashed,
          s.running + |launched|, done && p, if done then Finished else if p then Woken else Suspended)
  }

  lemma LoopCanGoOn(c: Setting, s: State)
    requires Shaped(c, s) && s.loop == Woken
    ensures exists s' :: Next(c, s, Wake, s')
  {
    var mid := UpdateExists(c.g, s.status);
    var st, launched := LaunchExists(c.g, c.limit, mid, s.running);
    AfterPassIsPass(c, s, mid, st, launched);
    assert Next(c, s, Wake, AfterPass(c, s, mid, st, launched));
  }

  lemma AfterPassIsPass(c: Setting, s: State, mid: Statuses, st: Statuses, launched: set<StepId>)
    requires Shaped(c, s)
    requires UpdatePost(c.g, s.status, mid)
    requires LaunchPost(c.g, c.limit, mid, st, launched, s.running, s.running + |launched|)
    ensures PassStep(c, s, mid, launched, AfterPass(c, s, mid, st, launched))
  {
  }

  lemma LifecycleCanGoOn(c: Setting, rank: map<StepId, nat>, s: State, t: StepId)
    requires Shaped(c, s) && Ranked(c.g, rank) && ActiveStep(s, t) && t in c.g.defs
    ensures exists e: Event, s': State :: !e.Crash? && Next(c, s, e, s')
  {
    if s.phase[t] == Owing {
      assert Next(c, s, FinalNotify(t), Notified(s.(phase := s.phase[t := Done])));
    } else {
      var e := if s.phase[t] == Live then Settle(t) else ReleaseFailed(t);
      var st := if s.phase[t] == Live then s.status[t := c.out[t].status] else s.status;
      var st' := st;
      if c.out[t].skips {
        st' := SkipExists(c.g, rank, t, st);
      }
      assert Next(c, s, e, s.(status := st', phase := s.phase[t := Owing], running := s.running - 1));
    }
  }

  /** A state that is not at rest has a next event, and not only a crash: a run
      can always be continued until it has come to rest. */
  lemma UnfinishedCanGoOn(c: Setting, s: State)
    requires Inv(c, s) && Acyclic(c.g) && !Quiescent(s)
    ensures exists e: Event, s': State :: !e.Crash? && Next(c, s, e, s')
  {
    var rank :| Ranked(c.g, rank);
    if s.loop == Woken {
      LoopCanGoOn(c, s);
      var s' :| Next(c, s, Wake, s');
    } else {
      var t :| ActiveStep(s, t);
      LifecycleCanGoOn(c, rank, s, t);
    }
  }

  // --------------------------------------------------------- safety over runs

  /** Whenever a step executes, every dependency is terminal, allows progress and
      was never passed to `skipDependents`; and no more steps execute than slots. */
  lemma ExecutionIsSafe(c: Setting, r: Run, i: nat, t: StepId)
    requires c.Valid() && r.Of(c) && i < |r.states| && t in c.g.defs
    requires t in r.states[i].status && Executing(r.states[i].status[t])
    ensures forall d :: c.g.Dep(d, t) ==>
              && d in r.states[i].status
              && (r.states[i].status[d] in {SUCCEEDED, INCOMPLETE, OMITTED} ||
                  (r.states[i].status[d] == FAILED && c.g.defs[d].onFailure == Continue && !c.out[d].skips))
  {
    RunKeepsInv(c, r, i);
    assert Ok(c, r.states[i], t);
    forall d | c.g.Dep(d, t) ensures DepOk(c, r.states[i], d) {}
  }

  /** The steps that are executing and whose lifecycle has not crashed. */
  ghost function ExecutingSteps(c: Setting, s: State): set<StepId> {
    set t | t in c.g.defs && t in s.status && Executing(s.status[t]) && t !in s.crashed
  }

  /** The steps that show as RUNNING or CHECKING, those a thrown exception left so too. */
  ghost function ShownExecuting(c: Setting, s: State): set<StepId> {
    set t | t in c.g.defs && t in s.status && Executing(s.status[t])
  }

  lemma ShownAreBounded(c: Setting, s: State)
    requires Inv(c, s)
    ensures ShownExecuting(c, s) == ExecutingSteps(c, s) + s.crashed
    ensures |ShownExecuting(c, s)| == |ExecutingSteps(c, s)| + |s.crashed|
  {
    forall t | t in s.crashed ensures t in ShownExecuting(c, s) {
      assert Ok(c, s, t);
    }
    assert ExecutingSteps(c, s) !! s.crashed;
  }

  /** No more steps execute than there are slots taken, and no more slots are taken than
      the limit allows. A step whose lifecycle threw holds no slot, but still shows as
      executing. */
  lemma SlotsAreBounded(c: Setting, r: Run, i: nat)
    requires c.Valid() && r.Of(c) && i < |r.states|
    ensures |ExecutingSteps(c, r.states[i])| <= r.states[i].running
    ensures |ShownExecuting(c, r.states[i])| <= r.states[i].running + |r.states[i].crashed|
    ensures c.limit.Some? && c.limit.value >= 0 ==> r.states[i].running <= c.limit.value
  {
    var s := r.states[i];
    RunKeepsInv(c, r, i);
    forall t | t in ExecutingSteps(c, s) ensures t in Slots(s) {
      assert Ok(c, s, t);
    }
    SubsetCard(ExecutingSteps(c, s), Slots(s));
    ShownAreBounded(c, s);
  }

  lemma {:induction false} SubsetCard<T>(a: set<T>, b: set<T>)
    requires a <= b
    ensures |a| <= |b|
  {
    if a != {} {
      var x :| x in a;
      SubsetCard(a - {x}, b - {x});
    }
  }

  /** The step goes from one state to the next from not being at work to being at work. */
  ghost predicate Starts(s: State, s': State, t: StepId) {
    t in s.phase && t in s'.phase && s.phase[t] != Live && s'.phase[t] == Live
  }

  lemma PassPhases(c: Setting, s: State, s': State, t: StepId)
    requires Inv(c, s) && WakeStep(c, s, s') && t in s.phase
    ensures t in s'.phase && (s'.phase[t] == s.phase[t] || (s.phase[t] == Idle && s'.phase[t] == Live))
  {
    var mid: Statuses, launched: set<StepId> :| PassStep(c, s, mid, launched, s');
    PassIsPassed(c, s, mid, launched, s');
    PassKeepsAll(c, s, mid, launched, s');
  }

  /** How far a lifecycle comes by one event: it starts only from Idle, and never goes
      back there. */
  lemma PhaseMoves(c: Setting, s: State, e: Event, s': State, t: StepId)
    requires Inv(c, s) && Next(c, s, e, s') && t in s.phase
    ensures t in s'.phase
    ensures Starts(s, s', t) ==> s.phase[t] == Idle
    ensures s'.phase[t] != Idle <==> s.phase[t] != Idle || Starts(s, s', t)
  {
    if e.Wake? {
      PassPhases(c, s, s', t);
    }
  }

  lemma {:induction false} NeverIdleAgain(c: Setting, r: Run, i: nat, j: nat, t: StepId)
    requires c.Valid() && r.Of(c) && i <= j < |r.states| && t in c.g.defs
    requires t in r.states[i].phase && r.states[i].phase[t] != Idle
    ensures t in r.states[j].phase && r.states[j].phase[t] != Idle
  {
    if i < j {
      NeverIdleAgain(c, r, i, j - 1, t);
      RunKeepsInv(c, r, j - 1);
      assert r.StepAt(c, j - 1);
      PhaseMoves(c, r.states[j - 1], r.events[j - 1], r.states[j], t);
    }
  }

  /** A step whose lifecycle was started by one event is started by no later one. */
  lemma LaunchedOnce(c: Setting, r: Run, i: nat, j: nat, t: StepId)
    requires c.Valid() && r.Of(c) && i < j < |r.events| && t in c.g.defs
    requires Starts(r.states[i], r.states[i + 1], t)
    ensures !Starts(r.states[j], r.states[j + 1], t)
  {
    NeverIdleAgain(c, r, i + 1, j, t);
    RunKeepsInv(c, r, j);
    assert r.StepAt(c, j);
    PhaseMoves(c, r.states[j], r.events[j], r.states[j + 1], t);
  }

  // -------------------------------------------------- what one event does

  /** What an event of a lifecycle does to its own step, its slot and the loop. */
  lemma EventExactly(c: Setting, s: State, e: Event, s': State)
    requires Inv(c, s) && Next(c, s, e, s') && !e.Wake?
    ensures var t := e.step;
      && t in s.status && t in s'.status && t in s.phase && t in s'.phase
      && match e
         case Progress(_, checking) =>
           && s'.status[t] == (if checking then CHECKING else RUNNING) && s'.phase[t] == Live
           && s'.running == s.running && s'.loop != Suspended && (s.loop != Suspended ==> s'.pending)
         case Settle(_) => s'.status[t] == c.out[t].status && s'.phase[t] == Owing && s'.running == s.running - 1
         case FailEarly(_) => s'.status[t] == FAILED && s'.phase[t] == Failing && s'.running == s.running
         case ReleaseFailed(_) => s'.status[t] == FAILED && s'.phase[t] == Owing && s'.running == s.running - 1
         case FinalNotify(_) =>
           && s'.status == s.status && s'.phase[t] == Done
           && s'.running == s.running && s'.loop != Suspended && (s.loop != Suspended ==> s'.pending)
         case Crash(_) => s'.status == s.status && s'.phase[t] == Owing && s'.running == s.running - 1
  {
    OwnEvent(c, s, e, s');
  }

  lemma OwnEvent(c: Setting, s: State, e: Event, s': State)
    requires Inv(c, s) && Next(c, s, e, s') && !e.Wake?
    ensures e.step in c.g.defs
    ensures e.Settle? ==> s'.status[e.step] == c.out[e.step].status
    ensures e.ReleaseFailed? ==> s'.status[e.step] == s.status[e.step] == FAILED
  {
    var t := e.step;
    assert Ok(c, s, t) && c.out[t].Valid();
    if e.Settle? && c.out[t].skips {
      assert SkipOk(c.g, t, s.status[t := c.out[t].status], s'.status, t);
    }
    if e.ReleaseFailed? && c.out[t].skips {
      assert SkipOk(c.g, t, s.status, s'.status, t);
    }
  }

  /** As long as a lifecycle is at work and has notifications left, the next can come, to
      RUNNING or to CHECKING. */
  lemma ProgressCanCome(c: Setting, s: State, t: StepId, checking: bool)
    requires Inv(c, s) && t in c.g.defs && s.phase[t] == Live && s.notes[t] > 0
    ensures exists s' :: Next(c, s, Progress(t, checking), s')
  {
    var status := s.status[t := if checking then CHECKING else RUNNING];
    assert Next(c, s, Progress(t, checking), Notified(s.(status := status, notes := s.notes[t := s.notes[t] - 1])));
  }

  // ------------------------------------------------------------- root causes

  ghost predicate HasRootCause(c: Setting, s: State, t: StepId)
    requires Shaped(c, s)
  {
    exists a :: Ancestor(c.g, a, t) && a in c.g.defs && (s.status[a] == FAILED || s.status[a] == CANCELLED)
  }

  /** Every skipped step has a failed or cancelled ancestor. */
  lemma {:induction false} SkippedHasRootCause(c: Setting, rank: map<StepId, nat>, s: State, t: StepId)
    requires Inv(c, s) && Ranked(c.g, rank) && t in c.g.defs && s.status[t] == SKIPPED
    ensures HasRootCause(c, s, t)
    decreases rank[t]
  {
    assert Ok(c, s, t);
    var d :| c.g.Dep(d, t) && DepBad(c, s, d);
    AncestorStep(c.g, d, t);
    if s.status[d] == SKIPPED {
      SkippedHasRootCause(c, rank, s, d);
    }
  }

  /** What a finished run says of each step, without ranking or recursion: it is skipped
      exactly when the own outcome of some ancestor stops its dependents, and otherwise
      ends as its own outcome says. */
  lemma FinishedExactly(c: Setting, r: Run, t: StepId)
    requires c.Valid() && r.Of(c) && Acyclic(c.g) && t in c.g.defs
    requires AllTerminalIn(c, r.Last())
    ensures r.Last().status[t] == if StoppedAbove(c.g, c.out, t) then SKIPPED else c.out[t].status
  {
    var rank :| Ranked(c.g, rank);
    EndsFinal(c, r, rank);
    SkippedExactly(c.g, rank, c.out, t);
  }

  predicate Fails(o: Outcome) {
    o.status == FAILED || o.status == CANCELLED
  }

  predicate Good(s: StepStatus) {
    s == SUCCEEDED || s == INCOMPLETE || s == OMITTED
  }

  lemma SuccessOfStatuses(c: Setting, rank: map<StepId, nat>, s: State)
    requires Inv(c, s) && Ranked(c.g, rank) && AllTerminal(c.g, s.status)
    requires ComputeWorkflowStatus(s.status) == WorkflowSucceeded
    ensures forall t :: t in c.g.defs ==> Good(s.status[t])
  {
    forall t | t in c.g.defs ensures Good(s.status[t]) {
      assert IsTerminal(s.status[t]);
      if s.status[t] == SKIPPED {
        SkippedHasRootCause(c, rank, s, t);
      }
    }
  }

  lemma NoSuccessOfStatuses(st: Statuses)
    requires ComputeWorkflowStatus(st) != WorkflowSucceeded
    ensures exists t :: t in st && !Good(st[t])
  {
    var t :| t in st && (st[t] == FAILED || st[t] == CANCELLED);
  }

  /** A finished workflow reports success exactly when no step failed, was
      cancelled or was skipped. */
  lemma SuccessMeansSuccess(c: Setting, r: Run)
    requires c.Valid() && r.Of(c) && Acyclic(c.g)
    requires AllTerminalIn(c, r.Last())
    ensures ComputeWorkflowStatus(r.Last().status) == WorkflowSucceeded <==>
            forall t :: t in c.g.defs ==> Good(r.Last().status[t])
  {
    var rank :| Ranked(c.g, rank);
    var s := r.Last();
    RunKeepsInv(c, r, |r.states| - 1);
    if ComputeWorkflowStatus(s.status) == WorkflowSucceeded {
      SuccessOfStatuses(c, rank, s);
    } else {
      NoSuccessOfStatuses(s.status);
    }
  }

  /** The step's own outcome has this status, and nothing above it stops the step. */
  ghost predicate EndsAs(c: Setting, t: StepId, status: StepStatus)
    requires c.out.Keys == c.g.defs.Keys
  {
    t in c.g.defs && c.out[t].status == status && !StoppedAbove(c.g, c.out, t)
  }

  lemma StatusIs(c: Setting, r: Run, t: StepId, status: StepStatus)
    requires c.Valid() && r.Of(c) && Acyclic(c.g) && AllTerminalIn(c, r.Last())
    requires status == FAILED || status == CANCELLED
    ensures EndsAs(c, t, status) <==> t in r.Last().status && r.Last().status[t] == status
  {
    if t in c.g.defs {
      FinishedExactly(c, r, t);
      assert c.out[t].Valid();
    }
  }

  /** What a finished workflow reports, by the steps' own outcomes: FAILED when some step
      that nothing stops fails, otherwise CANCELLED when one is cancelled, otherwise
      success; never a timeout. */
  lemma ResultExactly(c: Setting, r: Run)
    requires c.Valid() && r.Of(c) && Acyclic(c.g) && AllTerminalIn(c, r.Last())
    ensures var result := ComputeWorkflowStatus(r.Last().status);
      && (result == WorkflowFailed <==> exists t :: EndsAs(c, t, FAILED))
      && (result == WorkflowCancelled <==>
            !(exists t :: EndsAs(c, t, FAILED)) && exists t :: EndsAs(c, t, CANCELLED))
      && (result == WorkflowSucceeded <==>
            !(exists t :: EndsAs(c, t, FAILED)) && !(exists t :: EndsAs(c, t, CANCELLED)))
  {
    SomeEndsAs(c, r, FAILED);
    SomeEndsAs(c, r, CANCELLED);
  }

  lemma SomeEndsAs(c: Setting, r: Run, status: StepStatus)
    requires c.Valid() && r.Of(c) && Acyclic(c.g) && AllTerminalIn(c, r.Last())
    requires status == FAILED || status == CANCELLED
    ensures (exists t :: EndsAs(c, t, status)) <==> exists t :: t in r.Last().status && r.Last().status[t] == status
  {
    if t :| EndsAs(c, t, status) {
      StatusIs(c, r, t, status);
    }
    if t :| t in r.Last().status && r.Last().status[t] == status {
      StatusIs(c, r, t, status);
    }
  }

  /** With no step failing or cancelled on its own account, no step is skipped. */
  lemma {:induction false} NoFailureNoSkip(g: Graph, rank: map<StepId, nat>, out: Outcomes, t: StepId)
    requires Ranked(g, rank) && ValidOutcomes(g, out) && t in g.defs
    requires forall u :: u in g.defs ==> !Fails(out[u])
    ensures Final(g, rank, out, t) == out[t].status
    decreases rank[t]
  {
    assert forall u :: u in g.defs ==> out[u].Valid();
    forall d | g.Dep(d, t) ensures !Stops(Final(g, rank, out, d), g.Continues(d), out[d].skips) {
      NoFailureNoSkip(g, rank, out, d);
    }
  }

  lemma AllGoodExactly(g: Graph, rank: map<StepId, nat>, out: Outcomes)
    requires Ranked(g, rank) && ValidOutcomes(g, out)
    ensures var st := FinalMap(g, rank, out);
      (forall t :: t in g.defs ==> Good(st[t])) <==> (forall t :: t in g.defs ==> !Fails(out[t]))
  {
    var st := FinalMap(g, rank, out);
    assert forall u :: u in g.defs ==> out[u].Valid();
    if forall t :: t in g.defs ==> !Fails(out[t]) {
      forall t | t in g.defs ensures Good(st[t]) {
        NoFailureNoSkip(g, rank, out, t);
      }
    } else {
      var t :| t in g.defs && Fails(out[t]);
      assert !Good(st[t]);
    }
  }

  /** A finished workflow reports success exactly when no step's own execution fails or
      is cancelled, even though a step that is skipped never gets to fail. */
  lemma SuccessIsNoFailure(c: Setting, r: Run)
    requires c.Valid() && r.Of(c) && Acyclic(c.g)
    requires AllTerminalIn(c, r.Last())
    ensures ComputeWorkflowStatus(r.Last().status) == WorkflowSucceeded <==>
            forall t :: t in c.g.defs ==> !Fails(c.out[t])
  {
    var rank :| Ranked(c.g, rank);
    EndsFinal(c, r, rank);
    SuccessMeansSuccess(c, r);
    AllGoodExactly(c.g, rank, c.out);
  }
}
