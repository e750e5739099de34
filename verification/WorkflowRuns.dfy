/** The scheduler and the lifecycles put together: a workflow whose steps' outcomes are
    those of their lifecycles, with workers and checks chosen by the environment. */
module WorkflowRuns {
  import opened Wrappers
  import opened WorkflowGraph
  import opened Scheduler
  import opened SchedulerInvariant
  import SchedulerTheorems
  import L = StepLifecycle

  /** What the workers and the checks of one step answer. */
  datatype Surroundings = Surroundings(attempt: nat -> L.Attempt, check: nat -> L.Check)

  /** Every step's configuration, which repeats its policy, and its surroundings. */
  ghost predicate Configured(g: Graph, cfgs: map<StepId, L.StepConfig>, around: map<StepId, Surroundings>) {
    && cfgs.Keys == g.defs.Keys == around.Keys
    && forall t :: t in g.defs ==> cfgs[t].onFailure == g.defs[t].onFailure
  }

  ghost function ResultOf(cfg: L.StepConfig, around: Surroundings): L.Result {
    L.LifecycleTerminates(cfg, around.attempt, around.check);
    L.Lifecycle(cfg, L.START, around.attempt, around.check)
  }

  ghost function OutcomesOf(g: Graph, cfgs: map<StepId, L.StepConfig>, around: map<StepId, Surroundings>): Outcomes
    requires Configured(g, cfgs, around)
  {
    map t | t in g.defs :: ResultOf(cfgs[t], around[t]).outcome
  }

  /** Lifecycles yield outcomes the scheduler can work with; one that the convergence
      controller ended fails in the way the scheduler's early failure expects. */
  lemma LifecyclesFit(g: Graph, cfgs: map<StepId, L.StepConfig>, around: map<StepId, Surroundings>)
    requires Configured(g, cfgs, around)
    ensures ValidOutcomes(g, OutcomesOf(g, cfgs, around))
    ensures forall t :: t in g.defs && ResultOf(cfgs[t], around[t]).cause == L.Stalled ==>
      && OutcomesOf(g, cfgs, around)[t].status == FAILED
      && (OutcomesOf(g, cfgs, around)[t].skips <==> !g.Continues(t))
  {
    forall t | t in g.defs
      ensures OutcomesOf(g, cfgs, around)[t].Valid()
      ensures ResultOf(cfgs[t], around[t]).cause == L.Stalled ==>
        && OutcomesOf(g, cfgs, around)[t].status == FAILED
        && (OutcomesOf(g, cfgs, around)[t].skips <==> !g.Continues(t))
    {
      L.LifecycleTerminates(cfgs[t], around[t].attempt, around[t].check);
      L.WhoStopsDependents(cfgs[t], L.START, around[t].attempt, around[t].check);
    }
  }

  /** Every workflow with such outcomes is one that its lifecycles drive. */
  lemma LifecyclesDrive(g: Graph, limit: Option<int>, notes: map<StepId, nat>,
                        cfgs: map<StepId, L.StepConfig>, around: map<StepId, Surroundings>)
    requires Configured(g, cfgs, around)
    ensures DrivenBy(Setting(g, limit, OutcomesOf(g, cfgs, around), notes), cfgs, around)
  {
    var c := Setting(g, limit, OutcomesOf(g, cfgs, around), notes);
    forall t | t in g.defs ensures OutcomeFits(c, cfgs, around, t) {}
  }

  /** A step holds its dependents back: it was skipped itself, or its lifecycle failed
      and its policy is not to continue or its failure stops dependents anyway. */
  ghost predicate HoldsBack(g: Graph, cfgs: map<StepId, L.StepConfig>, around: map<StepId, Surroundings>,
                            st: Statuses, d: StepId)
    requires Configured(g, cfgs, around) && st.Keys == g.defs.Keys && d in g.defs
  {
    || st[d] == SKIPPED
    || (st[d] == FAILED &&
        (!g.Continues(d) || ResultOf(cfgs[d], around[d]).cause in {L.Fatal, L.LostBranch, L.IterationsUsedUp}))
  }

  /** The outcome of step `t` is the one its lifecycle comes to. */
  ghost predicate OutcomeFits(c: Setting, cfgs: map<StepId, L.StepConfig>, around: map<StepId, Surroundings>,
                              t: StepId) {
    t in c.out && t in cfgs && t in around && c.out[t] == ResultOf(cfgs[t], around[t]).outcome
  }

  ghost predicate DrivenBy(c: Setting, cfgs: map<StepId, L.StepConfig>, around: map<StepId, Surroundings>) {
    && Configured(c.g, cfgs, around)
    && forall t {:trigger OutcomeFits(c, cfgs, around, t)} :: t in c.g.defs ==> OutcomeFits(c, cfgs, around, t)
  }

  /** The meaning of a finished workflow, step by step: a step is skipped exactly when
      some dependency holds it back, and otherwise ends as its lifecycle does. */
  lemma FinishedMeans(c: Setting, r: Run, cfgs: map<StepId, L.StepConfig>, around: map<StepId, Surroundings>, t: StepId)
    requires c.Valid() && DrivenBy(c, cfgs, around) && Acyclic(c.g) && t in c.g.defs
    requires r.Of(c) && SchedulerTheorems.AllTerminalIn(c, r.Last())
    ensures var st := r.Last().status;
      st[t] == if exists d :: c.g.Dep(d, t) && HoldsBack(c.g, cfgs, around, st, d) then SKIPPED
               else ResultOf(cfgs[t], around[t]).outcome.status
  {
    var rank :| Ranked(c.g, rank);
    SchedulerTheorems.EndsFinal(c, r, rank);
    var st := r.Last().status;
    assert OutcomeFits(c, cfgs, around, t);
    forall d | c.g.Dep(d, t)
      ensures HoldsBack(c.g, cfgs, around, st, d) <==>
              Stops(Final(c.g, rank, c.out, d), c.g.Continues(d), c.out[d].skips)
    {
      assert OutcomeFits(c, cfgs, around, d);
      HoldsBackIsStops(c.g, cfgs, around, st, d);
    }
  }

  lemma HoldsBackIsStops(g: Graph, cfgs: map<StepId, L.StepConfig>, around: map<StepId, Surroundings>,
                         st: Statuses, d: StepId)
    requires Configured(g, cfgs, around) && st.Keys == g.defs.Keys && d in g.defs
    requires st[d] == SKIPPED || st[d] == ResultOf(cfgs[d], around[d]).outcome.status
    ensures HoldsBack(g, cfgs, around, st, d) <==>
            Stops(st[d], g.Continues(d), ResultOf(cfgs[d], around[d]).outcome.skips)
  {
    L.LifecycleTerminates(cfgs[d], around[d].attempt, around[d].check);
    L.WhoStopsDependents(cfgs[d], L.START, around[d].attempt, around[d].check);
  }

  // ------------------------------------------------------------- worker runs

  /** The worker runs of the lifecycles of those steps of `order` that are in `some`. */
  ghost function RunsIn(order: seq<StepId>, cfgs: map<StepId, L.StepConfig>, around: map<StepId, Surroundings>,
                        some: set<StepId>): nat
    requires forall t :: t in order ==> t in cfgs && t in around
  {
    if order == [] then 0
    else (if order[0] in some then ResultOf(cfgs[order[0]], around[order[0]]).at.runs else 0)
         + RunsIn(order[1..], cfgs, around, some)
  }

  function RunsAllowed(order: seq<StepId>, cfgs: map<StepId, L.StepConfig>): nat
    requires forall t :: t in order ==> t in cfgs
  {
    if order == [] then 0
    else L.Iterations(cfgs[order[0]]) * L.TriesPerIteration(cfgs[order[0]]) + RunsAllowed(order[1..], cfgs)
  }

  lemma {:induction false} RunsAdd(order: seq<StepId>, cfgs: map<StepId, L.StepConfig>,
                                   around: map<StepId, Surroundings>, a: set<StepId>, b: set<StepId>)
    requires forall t :: t in order ==> t in cfgs && t in around
    requires a !! b
    ensures RunsIn(order, cfgs, around, a + b) == RunsIn(order, cfgs, around, a) + RunsIn(order, cfgs, around, b)
  {
    if order != [] {
      RunsAdd(order[1..], cfgs, around, a, b);
    }
  }

  lemma {:induction false} RunsInAreBounded(order: seq<StepId>, cfgs: map<StepId, L.StepConfig>,
                                            around: map<StepId, Surroundings>, some: set<StepId>)
    requires forall t :: t in order ==> t in cfgs && t in around
    ensures RunsIn(order, cfgs, around, some) <= RunsAllowed(order, cfgs)
  {
    if order != [] {
      assert order[0] in order;
      L.LifecycleTerminates(cfgs[order[0]], around[order[0]].attempt, around[order[0]].check);
      RunsInAreBounded(order[1..], cfgs, around, some);
    }
  }

  lemma {:induction false} NoRuns(order: seq<StepId>, cfgs: map<StepId, L.StepConfig>,
                                  around: map<StepId, Surroundings>)
    requires forall t :: t in order ==> t in cfgs && t in around
    ensures RunsIn(order, cfgs, around, {}) == 0
  {
    if order != [] {
      NoRuns(order[1..], cfgs, around);
    }
  }

  /** The steps whose lifecycles one event starts. */
  ghost function Starting(s: State, s': State): set<StepId> {
    set t | t in s.phase && SchedulerTheorems.Starts(s, s', t)
  }

  /** The worker runs of all lifecycles that the first `n` events start, every start
      counted on its own. */
  ghost function RunsStarted(c: Setting, r: Run, cfgs: map<StepId, L.StepConfig>, around: map<StepId, Surroundings>,
                             n: nat): nat
    requires n < |r.states| && forall t :: t in c.g.order ==> t in cfgs && t in around
  {
    if n == 0 then 0
    else RunsStarted(c, r, cfgs, around, n - 1)
         + RunsIn(c.g.order, cfgs, around, Starting(r.states[n - 1], r.states[n]))
  }

  /** The steps that are not waiting to be started any more. */
  ghost function Started(s: State): set<StepId> {
    set t | t in s.phase && s.phase[t] != Idle
  }

  lemma NoneStarted(c: Setting, s: State)
    requires Init(c, s)
    ensures Started(s) == {}
  {
  }

  lemma {:induction false} StartsAddUp(c: Setting, r: Run, cfgs: map<StepId, L.StepConfig>,
                                       around: map<StepId, Surroundings>, n: nat)
    requires c.Valid() && r.Of(c) && n < |r.states| && forall t :: t in c.g.order ==> t in cfgs && t in around
    ensures RunsStarted(c, r, cfgs, around, n) == RunsIn(c.g.order, cfgs, around, Started(r.states[n]))
  {
    if n == 0 {
      NoneStarted(c, r.states[0]);
      NoRuns(c.g.order, cfgs, around);
    } else {
      StartsAddUp(c, r, cfgs, around, n - 1);
      EventOfRun(c, r, n);
      RunsAdd(c.g.order, cfgs, around, Started(r.states[n - 1]), Starting(r.states[n - 1], r.states[n]));
    }
  }

  lemma EventOfRun(c: Setting, r: Run, n: nat)
    requires c.Valid() && r.Of(c) && 0 < n < |r.states|
    ensures Started(r.states[n - 1]) !! Starting(r.states[n - 1], r.states[n])
    ensures Started(r.states[n]) == Started(r.states[n - 1]) + Starting(r.states[n - 1], r.states[n])
  {
    var s, s' := r.states[n - 1], r.states[n];
    assert r.StepAt(c, n - 1);
    RunKeepsInv(c, r, n - 1);
    NextKeepsInv(c, s, r.events[n - 1], s');
    forall t | t in c.g.defs
      ensures t in Starting(s, s') ==> t !in Started(s)
      ensures t in Started(s') <==> t in Started(s) || t in Starting(s, s')
    {
      SchedulerTheorems.PhaseMoves(c, s, r.events[n - 1], s', t);
    }
  }

  lemma StepsAreKnown(c: Setting, cfgs: map<StepId, L.StepConfig>, around: map<StepId, Surroundings>)
    requires c.g.Valid() && DrivenBy(c, cfgs, around)
    ensures forall t :: t in c.g.order ==> t in cfgs && t in around
  {
    forall t | t in c.g.order ensures t in c.g.defs {
      var i :| 0 <= i < |c.g.order| && c.g.order[i] == t;
      assert c.g.order[i] in c.g.defs;
    }
  }

  /** The lifecycles started in any run of the scheduler, whatever the workers and the
      checks do, run at most so many workers: those a step may run, once for each step. */
  lemma WorkflowRunsAreBounded(c: Setting, r: Run, cfgs: map<StepId, L.StepConfig>, around: map<StepId, Surroundings>)
    requires c.g.Valid() && c.Valid() && DrivenBy(c, cfgs, around) && r.Of(c)
    ensures forall t :: t in c.g.order ==> t in cfgs && t in around
    ensures RunsStarted(c, r, cfgs, around, |r.events|) <= RunsAllowed(c.g.order, cfgs)
  {
    StepsAreKnown(c, cfgs, around);
    StartsAddUp(c, r, cfgs, around, |r.events|);
    RunsInAreBounded(c.g.order, cfgs, around, Started(r.Last()));
  }

  // ------------------------------------------------------------- length of runs

  /** A lifecycle notifies before every worker run and before every check. */
  ghost predicate NotesFit(c: Setting, cfgs: map<StepId, L.StepConfig>, around: map<StepId, Surroundings>, t: StepId) {
    && t in c.notes && t in cfgs && t in around
    && var at := ResultOf(cfgs[t], around[t]).at;
    c.notes[t] <= at.runs + at.checks
  }

  function EventsAllowed(cfg: L.StepConfig): nat {
    5 + 2 * (L.Iterations(cfg) * L.TriesPerIteration(cfg) + L.Iterations(cfg))
  }

  function AllEventsAllowed(order: seq<StepId>, cfgs: map<StepId, L.StepConfig>): nat
    requires forall t :: t in order ==> t in cfgs
  {
    if order == [] then 0 else EventsAllowed(cfgs[order[0]]) + AllEventsAllowed(order[1..], cfgs)
  }

  lemma {:induction false} NotesAreBounded(c: Setting, order: seq<StepId>, cfgs: map<StepId, L.StepConfig>,
                                           around: map<StepId, Surroundings>)
    requires forall t {:trigger NotesFit(c, cfgs, around, t)} :: t in order ==> NotesFit(c, cfgs, around, t)
    requires forall t :: t in order ==> t in cfgs && t in c.notes
    ensures 5 * |order| + 2 * SchedulerTheorems.Sum(order, c.notes) <= AllEventsAllowed(order, cfgs)
  {
    if order != [] {
      assert NotesFit(c, cfgs, around, order[0]);
      L.LifecycleTerminates(cfgs[order[0]], around[order[0]].attempt, around[order[0]].check);
      NotesAreBounded(c, order[1..], cfgs, around);
    }
  }

  /** The configuration of a workflow alone bounds the length of all its runs. */
  lemma ConfigurationBoundsRuns(c: Setting, r: Run, cfgs: map<StepId, L.StepConfig>, around: map<StepId, Surroundings>)
    requires c.g.Valid() && c.Valid() && DrivenBy(c, cfgs, around) && r.Of(c)
    requires forall t {:trigger NotesFit(c, cfgs, around, t)} :: t in c.g.defs ==> NotesFit(c, cfgs, around, t)
    ensures forall t :: t in c.g.order ==> t in cfgs
    ensures |r.events| <= AllEventsAllowed(c.g.order, cfgs) + 1
  {
    StepsAreKnown(c, cfgs, around);
    SchedulerTheorems.RunsAreFinite(c, r);
    NotesAreBounded(c, c.g.order, cfgs, around);
  }
}
