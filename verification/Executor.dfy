/** The executor object: its methods update the step statuses, the slot counter and
    the one-bit notification in place. Every method that runs between two awaits is
    proved to be one event of the machine in module Scheduler. */
module Executor {
  import opened Wrappers
  import opened WorkflowGraph
  import opened Scheduler
  import opened StepLifecycle

  datatype AbortReason = Timeout | External | Management

  class WorkflowExecutor {
    const g: Graph
    const concurrency: Option<int>
    var steps: Statuses
    var runningCount: int
    var pendingNotification: bool
    var loop: Loop               // Suspended: `notifyResolve` is set

    // what the environment will do, and how far every lifecycle has come
    ghost const out: Outcomes
    ghost var phase: map<StepId, Phase>
    ghost var notes: map<StepId, nat>
    ghost var crashed: set<StepId>
    ghost const allNotes: map<StepId, nat>

    ghost function Setup(): Setting
    {
      Setting(g, concurrency, out, allNotes)
    }

    ghost function Now(): State
      reads this
    {
      State(steps, phase, notes, crashed, runningCount, pendingNotification, loop)
    }

    ghost predicate Valid()
      reads this
    {
      && g.Valid() && Setup().Valid()
      && steps.Keys == phase.Keys == notes.Keys == g.defs.Keys
    }

    constructor (g: Graph, concurrency: Option<int>, ghost out: Outcomes, ghost notes: map<StepId, nat>)
      requires g.Valid() && Setting(g, concurrency, out, notes).Valid()
      ensures Valid() && Setup() == Setting(g, concurrency, out, notes)
      ensures Init(Setup(), Now())
    {
      this.g := g;
      this.concurrency := concurrency;
      this.out := out;
      this.allNotes := notes;
      steps := map s | s in g.defs :: PENDING;
      runningCount := 0;
      pendingNotification := false;
      loop := Woken;
      phase := map s | s in g.defs :: Idle;
      this.notes := notes;
      crashed := {};
    }

    method Notify()
      modifies this`loop, this`pendingNotification
      ensures Now() == Notified(old(Now()))
      ensures loop == if old(loop) == Suspended then Woken else old(loop)
      ensures pendingNotification == (old(pendingNotification) || old(loop) != Suspended)
    {
      if loop == Suspended {
        loop := Woken;
      } else {
        pendingNotification := true;
      }
    }

    // ------------------------------------------------------------- readiness

    /** The scan of one step's dependencies, which stops at the first blocking one. */
    method ScanDependencies(s: StepId) returns (shouldSkip: bool, allResolved: bool)
      requires Valid() && s in g.defs
      ensures shouldSkip <==> SomeDepBlocks(g, steps, s)
      ensures !shouldSkip ==> (allResolved <==> AllDepsAllow(g, steps, s))
    {
      var deps := g.defs[s].dependsOn;
      shouldSkip, allResolved := false, true;
      for j := 0 to |deps|
        invariant !shouldSkip
        invariant forall i :: 0 <= i < j && deps[i] in g.defs ==>
          !DepBlocksDownstream(steps[deps[i]], g.Continues(deps[i]))
        invariant allResolved <==> forall i :: 0 <= i < j && deps[i] in g.defs ==>
          DepAllowsProgress(steps[deps[i]], g.Continues(deps[i]))
      {
        var dep := deps[j];
        if dep !in steps {
          continue;
        }
        if DepBlocksDownstream(steps[dep], g.Continues(dep)) {
          assert g.Dep(dep, s);
          shouldSkip := true;
          return;
        }
        if !DepAllowsProgress(steps[dep], g.Continues(dep)) {
          allResolved := false;
        }
      }
    }

    /** One PENDING step is skipped, made ready or left alone. */
    method EvaluateStep(s: StepId)
      requires Valid() && loop == Woken && s in g.defs && steps[s] == PENDING
      modifies this`steps, this`pendingNotification, this`loop
      ensures Valid() && loop == Woken
      ensures Scanned(g, old(steps), steps, s)
      ensures pendingNotification <==> old(pendingNotification) || steps[s] == SKIPPED
    {
      var shouldSkip, allResolved := ScanDependencies(s);
      if shouldSkip {
        steps := steps[s := SKIPPED];
        Notify();
      } else if allResolved {
        steps := steps[s := READY];
      }
    }

    method UpdateReadySteps()
      requires Valid() && loop == Woken
      modifies this`steps, this`pendingNotification, this`loop
      ensures Valid() && loop == Woken
      ensures UpdatePost(g, old(steps), steps)
      ensures pendingNotification <==> old(pendingNotification) || SkippedSome(old(steps), steps)
    {
      ghost var before := steps;
      assert PassInv(g, before, steps, 0) by {
        forall s | s in g.defs ensures OnlyPending(before, steps, s) {}
      }
      for k := 0 to |g.order|
        invariant Valid() && loop == Woken
        invariant PassInv(g, before, steps, k)
        invariant pendingNotification <==> old(pendingNotification) || SkippedSome(before, steps)
      {
        var s := g.order[k];
        assert s in g.defs && Untouched(g, before, steps, k);
        if steps[s] != PENDING {
          UpdatePassesBy(g, before, steps, k);
          continue;
        }
        ghost var prior := steps;
        EvaluateStep(s);
        UpdateStep(g, before, prior, steps, k);
        SkippedAfter(g, before, prior, steps, s);
      }
      PassComplete(g, before, steps);
    }

    // ------------------------------------------------------------- launching

    method LaunchStep(s: StepId)
      requires Valid() && s in g.defs && steps[s] == READY
      modifies this`steps, this`runningCount, this`phase
      ensures Valid()
      ensures steps == old(steps)[s := RUNNING] && runningCount == old(runningCount) + 1
      ensures phase == old(phase)[s := Live]
    {
      steps := steps[s := RUNNING];
      runningCount := runningCount + 1;
      phase := phase[s := Live];
    }

    method LaunchReadySteps() returns (ghost launched: set<StepId>)
      requires Valid()
      modifies this`steps, this`runningCount, this`phase
      ensures Valid()
      ensures LaunchPost(g, concurrency, old(steps), steps, launched, old(runningCount), runningCount)
      ensures phase == LivePhases(old(phase), launched)
    {
      launched := {};
      ghost var before, count, phases := steps, runningCount, phase;
      LaunchStart(g, concurrency, before, count);
      assert phase == LivePhases(phases, {});
      for k := 0 to |g.order|
        invariant Valid()
        invariant LaunchInv(g, concurrency, before, steps, launched, count, runningCount, k)
        invariant phase == LivePhases(phases, launched)
      {
        var s := g.order[k];
        assert s in g.defs;
        ghost var prior := steps;
        if steps[s] != READY || (concurrency.Some? && runningCount >= concurrency.value) {
          PassedUnlaunched(g, concurrency, before, steps, launched, count, runningCount, k);
          continue;
        }
        LaunchStep(s);
        PassedLaunched(g, concurrency, before, prior, launched, count, runningCount - 1, k);
        LiveStep(phases, launched, s);
        launched := launched + {s};
      }
      LaunchComplete(g, concurrency, before, steps, launched, count, runningCount);
    }

    // --------------------------------------------------------- the main loop

    method AllStepsTerminal() returns (all: bool)
      requires Valid()
      ensures all <==> AllTerminal(g, steps)
    {
      for k := 0 to |g.order|
        invariant forall i :: 0 <= i < k ==> g.order[i] in steps && IsTerminal(steps[g.order[i]])
      {
        assert g.order[k] in g.defs;
        if !IsTerminal(steps[g.order[k]]) {
          return false;
        }
      }
      forall s | s in g.defs ensures IsTerminal(steps[s]) {
        assert s in g.order;
      }
      return true;
    }

    /** `waitForNotification`: a notification already there is consumed, otherwise
        the loop suspends. */
    method WaitForNotification()
      requires loop == Woken
      modifies this`loop, this`pendingNotification
      ensures loop == if old(pendingNotification) then Woken else Suspended
      ensures !pendingNotification
    {
      if pendingNotification {
        pendingNotification := false;
      } else {
        loop := Suspended;
      }
    }

    /** One turn of `schedulingLoop`, from one wakeup to the next wait or the end. */
    method SchedulingTurn()
      requires Valid() && loop == Woken
      modifies this`steps, this`runningCount, this`pendingNotification, this`loop, this`phase
      ensures Valid()
      ensures Next(Setup(), old(Now()), Wake, Now())
    {
      ghost var before := Now();
      UpdateReadySteps();
      ghost var mid, p := steps, pendingNotification;
      assert UpdatePost(g, before.status, mid);
      ghost var launched := LaunchReadySteps();
      ghost var st, running := steps, runningCount;
      assert LaunchPost(g, concurrency, mid, st, launched, before.running, running);
      var all := AllStepsTerminal();
      FinishOrWait(all);
      TurnIsPass(Setup(), before, mid, launched, p, Now());
    }

    method FinishOrWait(all: bool)
      requires loop == Woken
      modifies this`loop, this`pendingNotification
      ensures loop == if all then Finished else if old(pendingNotification) then Woken else Suspended
      ensures pendingNotification == (all && old(pendingNotification))
    {
      if all {
        loop := Finished;
      } else {
        WaitForNotification();
      }
    }

    // -------------------------------------------------------------- skipping

    /** The direct dependents of the failed step. */
    method SkipDirectDependents(failed: StepId)
      requires Valid()
      modifies this`steps
      ensures Valid()
      ensures SkipFramed(g, failed, old(steps), steps)
      ensures forall s :: s in g.defs && Waiting(steps[s]) ==> failed !in g.defs[s].dependsOn
    {
      ghost var before := steps;
      for k := 0 to |g.order|
        invariant Valid()
        invariant SkipFramed(g, failed, before, steps)
        invariant forall i :: 0 <= i < k && Waiting(steps[g.order[i]]) ==> failed !in g.defs[g.order[i]].dependsOn
      {
        var s := g.order[k];
        if Waiting(steps[s]) && failed in g.defs[s].dependsOn {
          SkipOne(g, failed, before, steps, s);
          steps := steps[s := SKIPPED];
        }
      }
      forall s | s in g.defs && Waiting(steps[s]) ensures failed !in g.defs[s].dependsOn {
        assert s in g.order;
      }
    }

    method HasSkippedDependency(s: StepId) returns (found: bool)
      requires Valid() && s in g.defs
      ensures found <==> exists d :: g.Dep(d, s) && steps[d] == SKIPPED
    {
      var deps := g.defs[s].dependsOn;
      for j := 0 to |deps|
        invariant forall i :: 0 <= i < j && deps[i] in g.defs ==> steps[deps[i]] != SKIPPED
      {
        if deps[j] in steps && steps[deps[j]] == SKIPPED {
          assert g.Dep(deps[j], s);
          return true;
        }
      }
      return false;
    }

    method SkipIfBehind(ghost failed: StepId, ghost before: Statuses, s: StepId) returns (hit: bool)
      requires Valid() && SkipFramed(g, failed, before, steps) && s in g.defs
      modifies this`steps
      ensures Valid() && SkipFramed(g, failed, before, steps)
      ensures hit ==> Waiting(old(steps)[s]) && steps == old(steps)[s := SKIPPED]
      ensures !hit ==> steps == old(steps) && !BehindSkipped(g, steps, s)
    {
      if !Waiting(steps[s]) {
        return false;
      }
      hit := HasSkippedDependency(s);
      if hit {
        SkipOne(g, failed, before, steps, s);
        steps := steps[s := SKIPPED];
      }
    }

    /** One sweep of the transitive loop. */
    method SkipSweep(ghost failed: StepId, ghost before: Statuses) returns (changed: bool)
      requires Valid() && SkipFramed(g, failed, before, steps)
      modifies this`steps
      ensures Valid() && SkipFramed(g, failed, before, steps)
      ensures WaitingSteps(g, steps) <= WaitingSteps(g, old(steps))
      ensures changed ==> WaitingSteps(g, steps) != WaitingSteps(g, old(steps))
      ensures !changed ==> NoneBehindSkipped(g, steps)
    {
      changed := false;
      ghost var start := steps;
      for k := 0 to |g.order|
        invariant Valid() && SkipFramed(g, failed, before, steps)
        invariant SweepInv(g, start, steps, changed, k)
      {
        ghost var prior := steps;
        var hit := SkipIfBehind(failed, before, g.order[k]);
        SweepNext(g, start, prior, steps, changed, k, hit);
        changed := changed || hit;
      }
      SweepDone(g, start, steps, changed);
    }

    method SkipDependents(failed: StepId)
      requires Valid()
      modifies this`steps
      ensures Valid()
      ensures SkipPost(g, failed, old(steps), steps)
    {
      ghost var before := steps;
      SkipDirectDependents(failed);
      ghost var direct := steps;
      var changed := true;
      while changed
        invariant Valid() && SkipFramed(g, failed, before, steps)
        invariant NoDirectWaits(g, failed, steps)
        invariant !changed ==> NoneBehindSkipped(g, steps)
        decreases WaitingSteps(g, steps), changed
      {
        ghost var prior := steps;
        changed := SkipSweep(failed, before);
        NoDirectCarries(g, failed, prior, steps);
      }
      SkipSettled(g, failed, before, steps);
    }

    // ---------------------------------------------------- lifecycle events

    /** FATAL always skips the dependents; otherwise the step's policy decides. */
    method HandleFailurePolicy(s: StepId, fatal: bool)
      requires Valid() && s in g.defs
      modifies this`steps
      ensures Valid()
      ensures if fatal || !g.Continues(s) then SkipPost(g, s, old(steps), steps) else steps == old(steps)
    {
      if fatal {
        SkipDependents(s);
        return;
      }
      if g.defs[s].onFailure != Continue {
        SkipDependents(s);
      }
    }

    /** `finally`: the slot is given back. */
    method ReleaseSlot(s: StepId)
      requires Valid() && s in g.defs
      modifies this`runningCount, this`phase
      ensures Valid()
      ensures runningCount == old(runningCount) - 1 && phase == old(phase)[s := Owing]
    {
      runningCount := runningCount - 1;
      phase := phase[s := Owing];
    }

    /** What a lifecycle that fails for `cause` does to its dependents. */
    method SkipByCause(s: StepId, cause: Cause)
      requires Valid() && s in g.defs
      modifies this`steps
      ensures Valid()
      ensures if cause != NoCause && SkipsItself(g.defs[s].onFailure, cause) then SkipPost(g, s, old(steps), steps)
              else steps == old(steps)
    {
      if cause == Fatal || cause == CheckStuck {
        assert SkipsItself(g.defs[s].onFailure, cause) == (cause == Fatal || !g.Continues(s));
        HandleFailurePolicy(s, cause == Fatal);
      } else if cause == LostBranch || cause == IterationsUsedUp {
        SkipDependents(s);
      } else {
        SkipByPolicy(s, cause);
      }
    }

    method SkipByPolicy(s: StepId, cause: Cause)
      requires Valid() && s in g.defs && !StopsAnyway(cause)
      modifies this`steps
      ensures Valid()
      ensures if cause != NoCause && SkipsItself(g.defs[s].onFailure, cause) then SkipPost(g, s, old(steps), steps)
              else steps == old(steps)
    {
      if cause == CheckSaidFailed {
        if g.defs[s].onFailure == Abort {
          SkipDependents(s);
        }
      } else if cause != NoCause {
        SkipUnlessContinuing(s);
      }
    }

    method SkipAndSettle(s: StepId, status: StepStatus, cause: Cause)
      requires Valid() && s in g.defs
      modifies this`steps, this`phase, this`runningCount
      ensures Valid()
      ensures if cause != NoCause && SkipsItself(g.defs[s].onFailure, cause)
              then SkipPost(g, s, old(steps)[s := status], steps)
              else steps == old(steps)[s := status]
      ensures runningCount == old(runningCount) - 1 && phase == old(phase)[s := Owing]
    {
      steps := steps[s := status];
      SkipByCause(s, cause);
      ReleaseSlot(s);
    }

    /** The lifecycle writes its terminal status, skips dependents as its cause of failure
        demands and releases its slot, all without yielding. */
    method SettleStep(s: StepId, status: StepStatus, cause: Cause)
      requires Valid() && InPhase(Now(), s, Live)
      requires out[s] == Outcome(status, cause != NoCause && SkipsItself(g.defs[s].onFailure, cause))
      modifies this`steps, this`phase, this`runningCount
      ensures Valid()
      ensures Next(Setup(), old(Now()), Settle(s), Now())
    {
      SkipAndSettle(s, status, cause);
    }

    /** A convergence failure writes FAILED and then yields once ... */
    method FailByConvergence(s: StepId)
      requires Valid() && InPhase(Now(), s, Live)
      requires out[s].status == FAILED && out[s].skips == !g.Continues(s)
      modifies this`steps, this`phase
      ensures Valid()
      ensures Next(Setup(), old(Now()), FailEarly(s), Now())
    {
      steps := steps[s := FAILED];
      phase := phase[s := Failing];
    }

    method SkipUnlessContinuing(s: StepId)
      requires Valid() && s in g.defs
      modifies this`steps
      ensures Valid()
      ensures if g.Continues(s) then steps == old(steps) else SkipPost(g, s, old(steps), steps)
    {
      if g.defs[s].onFailure == Abort || g.defs[s].onFailure == Retry {
        SkipDependents(s);
      }
    }

    method SkipAndRelease(s: StepId)
      requires Valid() && s in g.defs
      modifies this`steps, this`phase, this`runningCount
      ensures Valid()
      ensures if g.Continues(s) then steps == old(steps) else SkipPost(g, s, old(steps), steps)
      ensures runningCount == old(runningCount) - 1 && phase == old(phase)[s := Owing]
    {
      SkipUnlessContinuing(s);
      ReleaseSlot(s);
    }

    /** ... before it skips dependents (abort or retry) and releases its slot. */
    method FinishFailing(s: StepId)
      requires Valid() && InPhase(Now(), s, Failing)
      requires out[s].skips == !g.Continues(s)
      modifies this`steps, this`phase, this`runningCount
      ensures Valid()
      ensures Next(Setup(), old(Now()), ReleaseFailed(s), Now())
    {
      SkipAndRelease(s);
    }

    /** An exception leaves the status as it is; the slot is still released. */
    method CrashStep(s: StepId)
      requires Valid() && InPhase(Now(), s, Live)
      modifies this`phase, this`runningCount, this`crashed
      ensures Valid()
      ensures Next(Setup(), old(Now()), Crash(s), Now())
    {
      ReleaseSlot(s);
      crashed := crashed + {s};
    }

    method ReportProgress(s: StepId, checking: bool)
      requires Valid() && InPhase(Now(), s, Live) && notes[s] > 0
      modifies this`steps, this`notes, this`loop, this`pendingNotification
      ensures Valid()
      ensures Next(Setup(), old(Now()), Progress(s, checking), Now())
    {
      steps := steps[s := if checking then CHECKING else RUNNING];
      notes := notes[s := notes[s] - 1];
      Notify();
      ProgressIsNext(Setup(), old(Now()), s, checking, Now());
    }

    /** The last statement of every lifecycle. */
    method FinishLifecycle(s: StepId)
      requires Valid() && InPhase(Now(), s, Owing)
      modifies this`phase, this`loop, this`pendingNotification
      ensures Valid()
      ensures Next(Setup(), old(Now()), FinalNotify(s), Now())
    {
      phase := phase[s := Done];
      Notify();
    }

    method SomeStepIs(wanted: StepStatus) returns (found: bool)
      requires Valid()
      ensures found <==> exists s :: s in steps && steps[s] == wanted
    {
      for k := 0 to |g.order|
        invariant forall i :: 0 <= i < k ==> steps[g.order[i]] != wanted
      {
        if steps[g.order[k]] == wanted {
          return true;
        }
      }
      forall s | s in steps ensures steps[s] != wanted {
        assert s in g.order;
      }
      return false;
    }

    /** `abort` says why the workflow was aborted, if it was. */
    method WorkflowResult(abort: Option<AbortReason>) returns (result: WorkflowStatus)
      requires Valid()
      ensures abort == None ==> result == ComputeWorkflowStatus(steps)
      ensures abort == None ==>
        if exists s :: s in steps && steps[s] == FAILED then result == WorkflowFailed
        else if exists s :: s in steps && steps[s] == CANCELLED then result == WorkflowCancelled
        else result == WorkflowSucceeded
      ensures abort == Some(Timeout) ==> result == WorkflowTimedOut
      ensures abort == Some(External) || abort == Some(Management) ==> result == WorkflowCancelled
    {
      if abort.Some? {
        return if abort.value == Timeout then WorkflowTimedOut else WorkflowCancelled;
      }
      var failed := SomeStepIs(FAILED);
      if failed {
        return WorkflowFailed;
      }
      var cancelled := SomeStepIs(CANCELLED);
      if cancelled {
        return WorkflowCancelled;
      }
      return WorkflowSucceeded;
    }
  }

  /** During a pass only PENDING steps move, to READY or SKIPPED. */
  ghost predicate OnlyPending(before: Statuses, now: Statuses, s: StepId) {
    s in before && s in now &&
    (now[s] == before[s] || (before[s] == PENDING && (now[s] == READY || now[s] == SKIPPED)))
  }

  ghost predicate PassedOver(g: Graph, before: Statuses, now: Statuses) {
    && before.Keys == g.defs.Keys == now.Keys
    && forall s {:trigger OnlyPending(before, now, s)} :: s in g.defs ==> OnlyPending(before, now, s)
  }

  /** In the middle of a pass a dependency allows progress just when it did at the
      start, and still blocks if it blocked at the start. */
  lemma SameView(g: Graph, before: Statuses, now: Statuses, s: StepId)
    requires PassedOver(g, before, now)
    ensures AllDepsAllow(g, before, s) <==> AllDepsAllow(g, now, s)
    ensures SomeDepBlocks(g, before, s) ==> SomeDepBlocks(g, now, s)
    ensures AllDepsAllow(g, now, s) ==> !SomeDepBlocks(g, now, s)
  {
    forall d | g.Dep(d, s)
      ensures DepAllowsProgress(before[d], g.Continues(d)) <==> DepAllowsProgress(now[d], g.Continues(d))
      ensures DepBlocksDownstream(before[d], g.Continues(d)) ==> DepBlocksDownstream(now[d], g.Continues(d))
    {
      assert OnlyPending(before, now, d);
    }
  }

  ghost predicate Untouched(g: Graph, before: Statuses, now: Statuses, k: nat)
    requires g.Valid() && before.Keys == g.defs.Keys == now.Keys
  {
    forall i :: k <= i < |g.order| ==> g.order[i] in before && now[g.order[i]] == before[g.order[i]]
  }

  ghost predicate Updated(g: Graph, before: Statuses, now: Statuses, i: nat)
    requires g.Valid() && before.Keys == g.defs.Keys == now.Keys && i < |g.order|
  {
    g.order[i] in g.defs && UpdateOk(g, before, now, g.order[i])
  }

  /** A pass that has visited the first `k` steps. */
  ghost predicate PassInv(g: Graph, before: Statuses, now: Statuses, k: nat)
    requires g.Valid() && k <= |g.order|
  {
    && PassedOver(g, before, now)
    && Untouched(g, before, now, k)
    && forall i {:trigger Updated(g, before, now, i)} :: 0 <= i < k ==> Updated(g, before, now, i)
  }

  lemma PassComplete(g: Graph, before: Statuses, now: Statuses)
    requires g.Valid() && PassInv(g, before, now, |g.order|)
    ensures UpdatePost(g, before, now)
  {
    forall s | s in g.defs ensures UpdateOk(g, before, now, s) {
      assert s in g.order;
      var i :| 0 <= i < |g.order| && g.order[i] == s;
      assert Updated(g, before, now, i);
    }
  }

  /** `now` is what the scan of `s` makes of `prior`. */
  ghost predicate Scanned(g: Graph, prior: Statuses, now: Statuses, s: StepId)
    requires prior.Keys == g.defs.Keys
  {
    if SomeDepBlocks(g, prior, s) then now == prior[s := SKIPPED]
    else if AllDepsAllow(g, prior, s) then now == prior[s := READY]
    else now == prior
  }

  lemma ScannedSelf(g: Graph, before: Statuses, prior: Statuses, now: Statuses, s: StepId)
    requires PassedOver(g, before, prior) && s in g.defs && before[s] == prior[s] == PENDING
    requires Scanned(g, prior, now, s)
    ensures now.Keys == g.defs.Keys && UpdateOk(g, before, now, s)
  {
    SameView(g, before, prior, s);
    if SomeDepBlocks(g, prior, s) {
      var d :| g.Dep(d, s) && DepBlocksDownstream(prior[d], g.Continues(d));
      assert now[d] == prior[d] || d == s;
      assert DepBlocksDownstream(now[d], g.Continues(d));
    }
  }

  lemma ScannedOther(g: Graph, before: Statuses, prior: Statuses, now: Statuses, s: StepId, x: StepId)
    requires before.Keys == prior.Keys == g.defs.Keys && s in g.defs && prior[s] == PENDING
    requires Scanned(g, prior, now, s) && x in g.defs && x != s
    requires UpdateOk(g, before, prior, x)
    ensures now.Keys == g.defs.Keys && UpdateOk(g, before, now, x)
  {
    if SomeDepBlocks(g, prior, x) {
      var d :| g.Dep(d, x) && DepBlocksDownstream(prior[d], g.Continues(d));
      assert now[d] == prior[d];
      assert SomeDepBlocks(g, now, x);
    }
  }

  lemma ScannedPasses(g: Graph, before: Statuses, prior: Statuses, now: Statuses, s: StepId)
    requires PassedOver(g, before, prior) && s in g.defs && before[s] == prior[s] == PENDING
    requires Scanned(g, prior, now, s)
    ensures PassedOver(g, before, now)
  {
    forall x | x in g.defs ensures OnlyPending(before, now, x) {
      assert OnlyPending(before, prior, x);
    }
  }

  lemma UpdateStep(g: Graph, before: Statuses, prior: Statuses, now: Statuses, k: nat)
    requires g.Valid() && k < |g.order| && PassInv(g, before, prior, k)
    requires g.order[k] in g.defs && prior[g.order[k]] == PENDING && Scanned(g, prior, now, g.order[k])
    ensures PassInv(g, before, now, k + 1)
  {
    var s := g.order[k];
    ScannedPasses(g, before, prior, now, s);
    forall i | 0 <= i < k + 1 ensures Updated(g, before, now, i) {
      if i < k {
        assert Updated(g, before, prior, i);
        ScannedOther(g, before, prior, now, s, g.order[i]);
      } else {
        ScannedSelf(g, before, prior, now, s);
      }
    }
    assert Untouched(g, before, now, k + 1) by {
      forall i | k + 1 <= i < |g.order|
        ensures g.order[i] in before && now[g.order[i]] == before[g.order[i]]
      {
        assert g.order[i] in g.defs && g.order[i] != s;
      }
    }
  }

  lemma UpdatePassesBy(g: Graph, before: Statuses, now: Statuses, k: nat)
    requires g.Valid() && k < |g.order| && PassInv(g, before, now, k)
    requires g.order[k] in g.defs && before[g.order[k]] == now[g.order[k]] != PENDING
    ensures PassInv(g, before, now, k + 1)
  {
    assert Updated(g, before, now, k);
  }

  lemma SkippedAfter(g: Graph, before: Statuses, prior: Statuses, now: Statuses, s: StepId)
    requires PassedOver(g, before, prior) && s in g.defs && before[s] == prior[s] == PENDING
    requires Scanned(g, prior, now, s)
    ensures SkippedSome(before, now) <==> SkippedSome(before, prior) || now[s] == SKIPPED
  {
    if SkippedSome(before, prior) {
      var x :| x in before && x in prior && before[x] == PENDING && prior[x] == SKIPPED;
      assert now[x] == SKIPPED;
    }
    if SkippedSome(before, now) && now[s] != SKIPPED {
      var x :| x in before && x in now && before[x] == PENDING && now[x] == SKIPPED;
      assert prior[x] == SKIPPED;
    }
  }

  lemma ProgressIsNext(c: Setting, s: State, t: StepId, checking: bool, s': State)
    requires InPhase(s, t, Live) && t in s.notes && s.notes[t] > 0
    requires s' == Notified(s.(status := s.status[t := if checking then CHECKING else RUNNING],
                               notes := s.notes[t := s.notes[t] - 1]))
    ensures Next(c, s, Progress(t, checking), s')
  {
  }

  // ------------------------------------------------------------- launching

  lemma TurnIsPass(c: Setting, s: State, mid: Statuses, launched: set<StepId>, p: bool, s': State)
    requires s.loop == Woken && s.phase.Keys == c.g.defs.Keys
    requires UpdatePost(c.g, s.status, mid)
    requires LaunchPost(c.g, c.limit, mid, s'.status, launched, s.running, s'.running)
    requires p <==> s.pending || SkippedSome(s.status, mid)
    requires s'.phase == LivePhases(s.phase, launched) && s'.notes == s.notes && s'.crashed == s.crashed
    requires s'.loop == if AllTerminal(c.g, s'.status) then Finished else if p then Woken else Suspended
    requires s'.pending == (AllTerminal(c.g, s'.status) && p)
    ensures Next(c, s, Wake, s')
  {
    assert PassStep(c, s, mid, launched, s');
  }

  ghost predicate LaunchedAt(g: Graph, before: Statuses, now: Statuses, launched: set<StepId>, i: nat)
    requires i < |g.order|
  {
    && g.order[i] in before && g.order[i] in now
    && LaunchOk(before, now, launched, g.order[i])
  }

  ghost predicate UnlaunchedAt(g: Graph, before: Statuses, now: Statuses, launched: set<StepId>, i: nat)
    requires i < |g.order|
  {
    && g.order[i] in before && g.order[i] in now
    && g.order[i] !in launched && now[g.order[i]] == before[g.order[i]]
  }

  ghost predicate HeldBack(g: Graph, now: Statuses, i: nat)
    requires i < |g.order|
  {
    g.order[i] in now && now[g.order[i]] == READY
  }

  /** A launching pass that has visited the first `k` steps. */
  ghost predicate LaunchInv(g: Graph, limit: Option<int>, before: Statuses, now: Statuses,
                            launched: set<StepId>, count: int, running: int, k: nat)
    requires k <= |g.order|
  {
    && before.Keys == g.defs.Keys == now.Keys && launched <= g.defs.Keys
    && running == count + |launched|
    && (forall i {:trigger LaunchedAt(g, before, now, launched, i)} :: 0 <= i < k ==>
          LaunchedAt(g, before, now, launched, i))
    && (forall i {:trigger UnlaunchedAt(g, before, now, launched, i)} :: k <= i < |g.order| ==>
          UnlaunchedAt(g, before, now, launched, i))
    && (limit.Some? && launched != {} ==> running <= limit.value)
    && (forall i {:trigger HeldBack(g, now, i)} :: 0 <= i < k && HeldBack(g, now, i) ==>
          limit.Some? && running >= limit.value)
  }

  lemma LiveStep(phases: map<StepId, Phase>, launched: set<StepId>, s: StepId)
    requires s in phases
    ensures LivePhases(phases, launched + {s}) == LivePhases(phases, launched)[s := Live]
  {
  }

  lemma LaunchStart(g: Graph, limit: Option<int>, before: Statuses, count: int)
    requires g.Valid() && before.Keys == g.defs.Keys
    ensures LaunchInv(g, limit, before, before, {}, count, count, 0)
  {
    forall i | 0 <= i < |g.order| ensures UnlaunchedAt(g, before, before, {}, i) {
      assert g.order[i] in g.defs;
    }
  }

  lemma PassedUnlaunched(g: Graph, limit: Option<int>, before: Statuses, now: Statuses,
                         launched: set<StepId>, count: int, running: int, k: nat)
    requires g.Valid() && k < |g.order|
    requires LaunchInv(g, limit, before, now, launched, count, running, k)
    requires g.order[k] in now
    requires now[g.order[k]] != READY || (limit.Some? && running >= limit.value)
    ensures LaunchInv(g, limit, before, now, launched, count, running, k + 1)
  {
    assert UnlaunchedAt(g, before, now, launched, k);
    assert LaunchedAt(g, before, now, launched, k);
  }

  lemma PassedLaunched(g: Graph, limit: Option<int>, before: Statuses, prior: Statuses,
                       launched: set<StepId>, count: int, running: int, k: nat)
    requires g.Valid() && k < |g.order|
    requires LaunchInv(g, limit, before, prior, launched, count, running, k)
    requires g.order[k] in prior && prior[g.order[k]] == READY
    requires limit.Some? ==> running < limit.value
    ensures LaunchInv(g, limit, before, prior[g.order[k] := RUNNING], launched + {g.order[k]},
                      count, running + 1, k + 1)
  {
    var s := g.order[k];
    var now := prior[s := RUNNING];
    assert UnlaunchedAt(g, before, prior, launched, k);
    forall i | 0 <= i < k + 1 ensures LaunchedAt(g, before, now, launched + {s}, i) {
      if i < k {
        assert LaunchedAt(g, before, prior, launched, i);
        assert g.order[i] != s;
      }
    }
    forall i | k + 1 <= i < |g.order| ensures UnlaunchedAt(g, before, now, launched + {s}, i) {
      assert UnlaunchedAt(g, before, prior, launched, i);
      assert g.order[i] != s;
    }
    forall i | 0 <= i < k + 1 ensures !HeldBack(g, now, i) {
      assert HeldBack(g, now, i) ==> i != k && HeldBack(g, prior, i);
    }
  }

  lemma LaunchComplete(g: Graph, limit: Option<int>, before: Statuses, now: Statuses,
                       launched: set<StepId>, count: int, running: int)
    requires g.Valid() && LaunchInv(g, limit, before, now, launched, count, running, |g.order|)
    ensures LaunchPost(g, limit, before, now, launched, count, running)
  {
    forall s | s in g.defs
      ensures LaunchOk(before, now, launched, s)
      ensures now[s] == READY ==> limit.Some? && running >= limit.value
    {
      assert s in g.order;
      var i :| 0 <= i < |g.order| && g.order[i] == s;
      assert LaunchedAt(g, before, now, launched, i);
      assert HeldBack(g, now, i) <==> now[s] == READY;
    }
  }

  // -------------------------------------------------------------- skipping

  ghost predicate SkipFramedAt(g: Graph, failed: StepId, before: Statuses, now: Statuses, s: StepId)
    requires s in g.defs && before.Keys == g.defs.Keys == now.Keys
  {
    && (now[s] == before[s] || (Waiting(before[s]) && now[s] == SKIPPED))
    && (now[s] != before[s] ==>
          failed in g.defs[s].dependsOn || exists d :: g.Dep(d, s) && now[d] == SKIPPED)
  }

  /** Steps have only been skipped, each for a reason. */
  ghost predicate SkipFramed(g: Graph, failed: StepId, before: Statuses, now: Statuses) {
    && before.Keys == g.defs.Keys == now.Keys
    && forall s {:trigger SkipFramedAt(g, failed, before, now, s)} :: s in g.defs ==>
         SkipFramedAt(g, failed, before, now, s)
  }

  ghost function WaitingSteps(g: Graph, st: Statuses): set<StepId>
    requires st.Keys == g.defs.Keys
  {
    set s | s in g.defs && Waiting(st[s])
  }

  ghost predicate BehindSkipped(g: Graph, st: Statuses, s: StepId) {
    st.Keys == g.defs.Keys && s in g.defs && Waiting(st[s]) && exists d :: g.Dep(d, s) && st[d] == SKIPPED
  }

  /** A sweep that has visited the first `k` steps. */
  ghost predicate SweepInv(g: Graph, start: Statuses, now: Statuses, changed: bool, k: nat)
    requires start.Keys == g.defs.Keys == now.Keys && k <= |g.order|
  {
    && WaitingSteps(g, now) <= WaitingSteps(g, start)
    && (changed ==> WaitingSteps(g, now) != WaitingSteps(g, start))
    && (!changed ==> now == start && forall i {:trigger BehindSkipped(g, now, g.order[i])} ::
          0 <= i < k ==> !BehindSkipped(g, now, g.order[i]))
  }

  lemma SweepNext(g: Graph, start: Statuses, prior: Statuses, now: Statuses, changed: bool, k: nat, hit: bool)
    requires g.Valid() && k < |g.order| && start.Keys == g.defs.Keys == prior.Keys == now.Keys
    requires SweepInv(g, start, prior, changed, k)
    requires hit ==> Waiting(prior[g.order[k]]) && now == prior[g.order[k] := SKIPPED]
    requires !hit ==> now == prior && !BehindSkipped(g, now, g.order[k])
    ensures SweepInv(g, start, now, changed || hit, k + 1)
  {
    if hit {
      WaitingShrinks(g, prior, g.order[k]);
    }
  }

  lemma SweepDone(g: Graph, start: Statuses, now: Statuses, changed: bool)
    requires g.Valid() && start.Keys == g.defs.Keys == now.Keys
    requires SweepInv(g, start, now, changed, |g.order|)
    ensures !changed ==> NoneBehindSkipped(g, now)
  {
    if !changed {
      forall s | s in g.defs ensures !BehindSkipped(g, now, s) {
        assert s in g.order;
        var i :| 0 <= i < |g.order| && g.order[i] == s;
        assert !BehindSkipped(g, now, g.order[i]);
      }
    }
  }

  ghost predicate NoneBehindSkipped(g: Graph, st: Statuses) {
    forall s {:trigger BehindSkipped(g, st, s)} :: s in g.defs ==> !BehindSkipped(g, st, s)
  }

  ghost predicate NoDirectWaits(g: Graph, failed: StepId, st: Statuses)
    requires st.Keys == g.defs.Keys
  {
    forall s :: s in g.defs && Waiting(st[s]) ==> failed !in g.defs[s].dependsOn
  }

  lemma SkipOne(g: Graph, failed: StepId, before: Statuses, now: Statuses, s: StepId)
    requires SkipFramed(g, failed, before, now) && s in g.defs && Waiting(now[s])
    requires failed in g.defs[s].dependsOn || exists d :: g.Dep(d, s) && now[d] == SKIPPED
    ensures SkipFramed(g, failed, before, now[s := SKIPPED])
  {
    var next := now[s := SKIPPED];
    forall x | x in g.defs ensures SkipFramedAt(g, failed, before, next, x) {
      assert SkipFramedAt(g, failed, before, now, x);
      if d :| g.Dep(d, x) && now[d] == SKIPPED {
        assert next[d] == SKIPPED;
      }
    }
  }

  lemma WaitingShrinks(g: Graph, st: Statuses, s: StepId)
    requires st.Keys == g.defs.Keys && s in g.defs && Waiting(st[s])
    ensures WaitingSteps(g, st[s := SKIPPED]) == WaitingSteps(g, st) - {s}
    ensures s in WaitingSteps(g, st)
  {
  }

  lemma NoDirectCarries(g: Graph, failed: StepId, prior: Statuses, now: Statuses)
    requires prior.Keys == g.defs.Keys == now.Keys && NoDirectWaits(g, failed, prior)
    requires WaitingSteps(g, now) <= WaitingSteps(g, prior)
    ensures NoDirectWaits(g, failed, now)
  {
    forall s | s in g.defs && Waiting(now[s]) ensures failed !in g.defs[s].dependsOn {
      assert s in WaitingSteps(g, now);
    }
  }

  lemma SkipSettled(g: Graph, failed: StepId, before: Statuses, now: Statuses)
    requires SkipFramed(g, failed, before, now) && NoDirectWaits(g, failed, now) && NoneBehindSkipped(g, now)
    ensures SkipPost(g, failed, before, now)
  {
    forall s | s in g.defs ensures SkipOk(g, failed, before, now, s) {
      assert SkipFramedAt(g, failed, before, now, s);
      assert !BehindSkipped(g, now, s);
    }
  }
}
