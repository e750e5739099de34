/** The scheduling loop and the step lifecycles it launches, as one state machine.
    A transition is one stretch of code between two awaits. The contract of each
    loop over the steps is a relation, so that nothing here depends on the order
    in which the steps are visited. */
module Scheduler {
  import opened Wrappers
  import opened WorkflowGraph

  /** How far the lifecycle of a step has come.
      Failing: FAILED was written, `skipDependents` and the slot release are still due.
      Owing: the slot is released, the final `notify` is still due. */
  datatype Phase = Idle | Live | Failing | Owing | Done

  /** Suspended: `notifyResolve` is set. Woken: the loop will run its body again. */
  datatype Loop = Suspended | Woken | Finished

  datatype State = State(
    status: Statuses,
    phase: map<StepId, Phase>,
    notes: map<StepId, nat>,     // progress notifications each lifecycle still makes
    crashed: set<StepId>,        // lifecycles that left through an exception
    running: int,
    pending: bool,
    loop: Loop)

  datatype Event =
    | Wake
    | Progress(step: StepId, checking: bool)
    | Settle(step: StepId)
    | FailEarly(step: StepId)
    | ReleaseFailed(step: StepId)
    | FinalNotify(step: StepId)
    | Crash(step: StepId)

  /** The fixed surroundings of a run: the workflow, its concurrency limit (None is
      unlimited), what every step's own execution comes to and how often it notifies. */
  datatype Setting = Setting(g: Graph, limit: Option<int>, out: Outcomes, notes: map<StepId, nat>) {
    ghost predicate Valid() {
      ValidOutcomes(g, out) && notes.Keys == g.defs.Keys
    }
  }

  // ---------------------------------------------------------------- one pass

  ghost predicate AllDepsAllow(g: Graph, st: Statuses, s: StepId)
    requires st.Keys == g.defs.Keys
  {
    forall d :: g.Dep(d, s) ==> DepAllowsProgress(st[d], g.Continues(d))
  }

  ghost predicate SomeDepBlocks(g: Graph, st: Statuses, s: StepId)
    requires st.Keys == g.defs.Keys
  {
    exists d :: g.Dep(d, s) && DepBlocksDownstream(st[d], g.Continues(d))
  }

  ghost predicate UpdateOk(g: Graph, old': Statuses, new': Statuses, s: StepId)
    requires s in g.defs && old'.Keys == g.defs.Keys == new'.Keys
  {
    if old'[s] == PENDING then
      && (new'[s] == READY <==> AllDepsAllow(g, old', s))
      && (SomeDepBlocks(g, old', s) ==> new'[s] == SKIPPED)
      && (new'[s] == PENDING || new'[s] == READY || (new'[s] == SKIPPED && SomeDepBlocks(g, new', s)))
    else new'[s] == old'[s]
  }

  /** `updateReadySteps`: PENDING steps become READY exactly when every known
      dependency allows progress; a step is skipped only for a blocking dependency,
      and always for one that blocked when the pass began. */
  ghost predicate UpdatePost(g: Graph, old': Statuses, new': Statuses) {
    && old'.Keys == g.defs.Keys == new'.Keys
    && forall s {:trigger UpdateOk(g, old', new', s)} :: s in g.defs ==> UpdateOk(g, old', new', s)
  }

  predicate SkippedSome(old': Statuses, new': Statuses) {
    exists s | s in old' :: s in new' && old'[s] == PENDING && new'[s] == SKIPPED
  }

  predicate LaunchOk(old': Statuses, new': Statuses, launched: set<StepId>, s: StepId)
    requires s in old' && s in new'
  {
    if s in launched then old'[s] == READY && new'[s] == RUNNING else new'[s] == old'[s]
  }

  /** `launchReadySteps`: READY steps start while slots are free, and a READY step
      is left waiting only when no slot is. */
  ghost predicate LaunchPost(g: Graph, limit: Option<int>, old': Statuses, new': Statuses,
                             launched: set<StepId>, oldRunning: int, newRunning: int)
  {
    && old'.Keys == g.defs.Keys == new'.Keys
    && launched <= g.defs.Keys
    && newRunning == oldRunning + |launched|
    && (forall s {:trigger LaunchOk(old', new', launched, s)} :: s in g.defs ==> LaunchOk(old', new', launched, s))
    && (limit.Some? && launched != {} ==> newRunning <= limit.value)
    && ((exists s :: s in new' && new'[s] == READY) ==> limit.Some? && newRunning >= limit.value)
  }

  ghost predicate SkipOk(g: Graph, failed: StepId, old': Statuses, new': Statuses, s: StepId)
    requires s in g.defs && old'.Keys == g.defs.Keys == new'.Keys
  {
    && (new'[s] == old'[s] || (Waiting(old'[s]) && new'[s] == SKIPPED))
    && (Waiting(new'[s]) ==>
          failed !in g.defs[s].dependsOn && forall d :: g.Dep(d, s) ==> new'[d] != SKIPPED)
    && (new'[s] != old'[s] ==>
          failed in g.defs[s].dependsOn || exists d :: g.Dep(d, s) && new'[d] == SKIPPED)
  }

  /** `skipDependents(failed)`: exactly the waiting steps that depend on `failed`
      or, transitively, on a skipped step become SKIPPED. */
  ghost predicate SkipPost(g: Graph, failed: StepId, old': Statuses, new': Statuses) {
    && old'.Keys == g.defs.Keys == new'.Keys
    && forall s {:trigger SkipOk(g, failed, old', new', s)} :: s in g.defs ==> SkipOk(g, failed, old', new', s)
  }

  // --------------------------------------------------------------- the machine

  function Notified(s: State): (r: State)
    ensures r.status == s.status && r.phase == s.phase && r.running == s.running
    ensures r.notes == s.notes && r.crashed == s.crashed
    ensures r.loop != Suspended
  {
    if s.loop == Suspended then s.(loop := Woken) else s.(pending := true)
  }

  ghost predicate Init(c: Setting, s: State) {
    && s.status == (map t | t in c.g.defs :: PENDING)
    && s.phase == (map t | t in c.g.defs :: Idle)
    && s.notes == c.notes
    && s.crashed == {}
    && s.running == 0
    && !s.pending
    && s.loop == Woken
  }

  /** One turn of the loop: update, launch, test for completion, wait. */
  ghost predicate WakeStep(c: Setting, s: State, s': State) {
    s.loop == Woken && exists mid: Statuses, launched: set<StepId> ::
      PassStep(c, s, mid, launched, s')
  }

  ghost predicate PassStep(c: Setting, s: State, mid: Statuses, launched: set<StepId>, s': State) {
    && UpdatePost(c.g, s.status, mid)
    && LaunchPost(c.g, c.limit, mid, s'.status, launched, s.running, s'.running)
    && s.phase.Keys == c.g.defs.Keys
    && s'.phase == LivePhases(s.phase, launched)
    && s'.notes == s.notes && s'.crashed == s.crashed
    && (var p := s.pending || SkippedSome(s.status, mid);
        if AllTerminal(c.g, s'.status) then s'.loop == Finished && s'.pending == p
        else s'.loop == (if p then Woken else Suspended) && !s'.pending)
  }

  /** The phases once the lifecycles of `launched` have started. */
  ghost function LivePhases(phase: map<StepId, Phase>, launched: set<StepId>): map<StepId, Phase> {
    map t | t in phase :: if t in launched then Live else phase[t]
  }

  ghost predicate InPhase(s: State, t: StepId, ph: Phase) {
    t in s.phase && t in s.status && s.phase[t] == ph
  }

  ghost predicate Next(c: Setting, s: State, e: Event, s': State) {
    match e
    case Wake => WakeStep(c, s, s')
    case Progress(t, checking) =>
      && InPhase(s, t, Live) && t in s.notes && s.notes[t] > 0
      && s' == Notified(s.(status := s.status[t := if checking then CHECKING else RUNNING],
                           notes := s.notes[t := s.notes[t] - 1]))
    case Settle(t) =>
      && InPhase(s, t, Live) && t in c.out
      && var st := s.status[t := c.out[t].status];
      && (if c.out[t].skips then SkipPost(c.g, t, st, s'.status) else s'.status == st)
      && s' == s.(status := s'.status, phase := s.phase[t := Owing], running := s.running - 1)
    case FailEarly(t) =>
      // a convergence failure: never FATAL, so it skips only if the policy is not to continue
      && InPhase(s, t, Live) && t in c.out
      && c.out[t].status == FAILED && (c.out[t].skips ==> !c.g.Continues(t))
      && s' == s.(status := s.status[t := FAILED], phase := s.phase[t := Failing])
    case ReleaseFailed(t) =>
      && InPhase(s, t, Failing) && t in c.out
      && (if c.out[t].skips then SkipPost(c.g, t, s.status, s'.status) else s'.status == s.status)
      && s' == s.(status := s'.status, phase := s.phase[t := Owing], running := s.running - 1)
    case FinalNotify(t) =>
      && InPhase(s, t, Owing)
      && s' == Notified(s.(phase := s.phase[t := Done]))
    case Crash(t) =>
      && InPhase(s, t, Live)
      && s' == s.(phase := s.phase[t := Owing], crashed := s.crashed + {t}, running := s.running - 1)
  }

  /** A run: the states it goes through and the events between them. */
  datatype Run = Run(states: seq<State>, events: seq<Event>) {
    ghost predicate StepAt(c: Setting, i: nat) {
      i < |events| && i + 1 < |states| ==> Next(c, states[i], events[i], states[i + 1])
    }

    ghost predicate Of(c: Setting) {
      && |states| == |events| + 1
      && Init(c, states[0])
      && forall i: nat {:trigger StepAt(c, i)} :: StepAt(c, i)
    }

    ghost function Last(): State
      requires |states| > 0
    {
      states[|states| - 1]
    }
  }

  // -------------------------------------------------------------- the invariant

  ghost predicate ActiveStep(s: State, t: StepId) {
    t in s.phase && (s.phase[t] == Live || s.phase[t] == Failing || s.phase[t] == Owing)
  }

  /** Some launched lifecycle has not made its final `notify` yet. */
  ghost predicate Active(s: State) {
    exists t :: ActiveStep(s, t)
  }

  ghost function Slots(s: State): set<StepId> {
    set t | t in s.phase && (s.phase[t] == Live || s.phase[t] == Failing)
  }

  ghost predicate Shaped(c: Setting, s: State) {
    c.Valid() && s.status.Keys == s.phase.Keys == s.notes.Keys == c.g.defs.Keys
  }

  /** Status and phase of one step fit together. */
  ghost predicate StepOk(c: Setting, s: State, t: StepId)
    requires Shaped(c, s) && t in c.g.defs
  {
    match s.phase[t]
    case Idle => t !in s.crashed && (Waiting(s.status[t]) || s.status[t] == SKIPPED)
    case Live => t !in s.crashed && Executing(s.status[t])
    case Failing =>
      && t !in s.crashed && s.status[t] == FAILED && c.out[t].status == FAILED
      && (c.out[t].skips ==> !c.g.Continues(t))
    case _ =>
      if t in s.crashed then Executing(s.status[t]) else s.status[t] == c.out[t].status
  }

  /** `d` lets its dependents run and was never passed to `skipDependents`. */
  ghost predicate DepOk(c: Setting, s: State, d: StepId)
    requires Shaped(c, s) && d in c.g.defs
  {
    && IsTerminal(s.status[d])
    && DepAllowsProgress(s.status[d], c.g.Continues(d))
    && !(s.status[d] == FAILED && c.out[d].skips)
  }

  ghost predicate DepBad(c: Setting, s: State, d: StepId)
    requires Shaped(c, s) && d in c.g.defs
  {
    Stops(s.status[d], c.g.Continues(d), c.out[d].skips)
  }

  /** What dependencies say about a step. */
  ghost predicate DepsOk(c: Setting, s: State, t: StepId)
    requires Shaped(c, s) && t in c.g.defs
  {
    && (s.phase[t] != Idle || s.status[t] == READY ==>
          forall d :: c.g.Dep(d, t) ==> DepOk(c, s, d))
    && (s.status[t] == SKIPPED ==> exists d :: c.g.Dep(d, t) && DepBad(c, s, d))
    && (Waiting(s.status[t]) ==> forall d :: c.g.Dep(d, t) ==>
          !(s.status[d] == FAILED && c.out[d].skips && c.g.Continues(d)))
  }

  ghost predicate QuietAt(c: Setting, s: State, t: StepId)
    requires Shaped(c, s) && t in c.g.defs
  {
    && (s.status[t] == PENDING ==> !SomeDepBlocks(c.g, s.status, t) && !AllDepsAllow(c.g, s.status, t))
    && (s.status[t] == READY ==> c.limit.Some? && s.running >= c.limit.value)
  }

  /** Another pass would change nothing. */
  ghost predicate Quiet(c: Setting, s: State)
    requires Shaped(c, s)
  {
    forall t {:trigger QuietAt(c, s, t)} :: t in c.g.defs ==> QuietAt(c, s, t)
  }

  ghost predicate LoopOk(c: Setting, s: State)
    requires Shaped(c, s)
  {
    && (s.loop == Suspended ==> !s.pending && (Active(s) || (Quiet(c, s) && !AllTerminal(c.g, s.status))))
    && (s.loop == Finished ==> AllTerminal(c.g, s.status))
  }

  ghost predicate CountOk(c: Setting, s: State) {
    && s.running == |Slots(s)|
    && (c.limit.Some? ==> s.running <= if c.limit.value >= 0 then c.limit.value else 0)
  }

  ghost predicate Ok(c: Setting, s: State, t: StepId)
    requires Shaped(c, s) && t in c.g.defs
  {
    StepOk(c, s, t) && DepsOk(c, s, t)
  }

  ghost predicate AllOk(c: Setting, s: State)
    requires Shaped(c, s)
  {
    forall t {:trigger Ok(c, s, t)} :: t in c.g.defs ==> Ok(c, s, t)
  }

  ghost predicate Inv(c: Setting, s: State) {
    && Shaped(c, s)
    && s.crashed <= c.g.defs.Keys
    && AllOk(c, s)
    && CountOk(c, s)
    && LoopOk(c, s)
  }
}
