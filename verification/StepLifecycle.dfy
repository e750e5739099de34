/** The loop inside one step: worker attempts with retries, completion checks with
    iterations, infrastructure failures and convergence, up to a terminal status. */
module StepLifecycle {
  import opened Wrappers
  import opened WorkflowGraph
  import Convergence

  const INFRA_FAILURE_LIMIT := 2

  datatype OnExhausted = AbortExhausted | ContinueExhausted

  datatype StepConfig = StepConfig(
    onFailure: OnFailure,
    maxRetries: int,
    maxIterations: int,
    hasCheck: bool,
    onExhausted: OnExhausted,
    convergence: Option<Convergence.Config>)

  /** One trip through the worker part of the loop, as the environment decides it. */
  datatype Attempt =
    | LockLost                     // the branch lock assertion throws before the worker runs
    | WorkerThrew
    | WorkerFailed(fatal: bool)
    | TransitionLost               // the worker succeeds, the branch check after it throws
    | WorkerSucceeded

  datatype Check =
    | CheckThrew
    | CheckStalled(fatal: bool)
    | CheckReturned(failed: bool, guardThrows: bool, complete: bool, infra: bool, signal: Option<Convergence.Key>)

  /** Why a step failed. */
  datatype Cause =
    | NoCause | Fatal | LostBranch | WorkerGaveUp | CheckSaidFailed | CheckStuck
    | GuardBroke | InfraBroke | Stalled | IterationsUsedUp

  /** The local variables of the loop and the counters of the step state. */
  datatype Locals = Locals(
    iteration: int, retryCount: int, infraCount: int, progress: Convergence.Progress,
    attempts: nat, runs: nat, checks: nat)

  const START := Locals(1, 0, 0, Convergence.FRESH, 0, 0, 0)

  datatype Result = Result(outcome: Outcome, cause: Cause, at: Locals)

  datatype Round = Finish(result: Result) | Again(next: Locals)

  function Failed(cause: Cause, skips: bool, at: Locals): Round {
    Finish(Result(Outcome(FAILED, skips), cause, at))
  }

  /** What follows an incomplete check. */
  function AfterIncomplete(cfg: StepConfig, l: Locals, infra: bool, signal: Option<Convergence.Key>): Round {
    var policySkips := cfg.onFailure != Continue;
    var l1 := l.(infraCount := if infra then l.infraCount + 1 else 0);
    if l1.infraCount >= INFRA_FAILURE_LIMIT then Failed(InfraBroke, policySkips, l1)
    else
      var stalls := cfg.convergence.Some? && Convergence.Fails(cfg.convergence.value, l.progress, signal);
      var l2 := if cfg.convergence.Some?
                then l1.(progress := Convergence.After(cfg.convergence.value, l.progress, signal)) else l1;
      if stalls then Failed(Stalled, policySkips, l2)
      else if l2.iteration >= cfg.maxIterations then
        (if cfg.onExhausted == AbortExhausted then Failed(IterationsUsedUp, true, l2)
         else Finish(Result(Outcome(INCOMPLETE, false), NoCause, l2)))
      else Again(l2.(iteration := l2.iteration + 1, retryCount := 0))
  }

  function AfterCheck(cfg: StepConfig, l: Locals, c: Check): Round {
    match c
    case CheckThrew => Failed(Fatal, true, l)
    case CheckStalled(fatal) =>
      Failed(if fatal then Fatal else CheckStuck, fatal || cfg.onFailure != Continue, l)
    case CheckReturned(failed, guardThrows, complete, infra, signal) =>
      if failed then Failed(CheckSaidFailed, cfg.onFailure == Abort, l)
      else if cfg.convergence.Some? && guardThrows then Failed(GuardBroke, cfg.onFailure != Continue, l)
      else if complete then Finish(Result(Outcome(SUCCEEDED, false), NoCause, l))
      else AfterIncomplete(cfg, l, infra, signal)
  }

  function OneRound(cfg: StepConfig, l: Locals, a: Attempt, c: Check): Round {
    var tried := l.(attempts := l.attempts + 1);
    var ran := tried.(runs := l.runs + 1);
    match a
    case LockLost => Failed(LostBranch, true, tried)
    case WorkerThrew => Failed(Fatal, true, ran)
    case WorkerFailed(fatal) =>
      if fatal then Failed(Fatal, true, ran)
      else if cfg.onFailure == Retry && l.retryCount < cfg.maxRetries then
        Again(ran.(retryCount := l.retryCount + 1))
      else Failed(WorkerGaveUp, cfg.onFailure != Continue, ran)
    case TransitionLost => Failed(LostBranch, true, ran)
    case WorkerSucceeded =>
      if !cfg.hasCheck then Finish(Result(Outcome(SUCCEEDED, false), NoCause, ran))
      else AfterCheck(cfg, ran.(checks := l.checks + 1), c)
  }

  function Max(a: int, b: int): int {
    if a > b then a else b
  }

  /** A step without a completion check never iterates ... */
  function Iterations(cfg: StepConfig): int {
    if cfg.hasCheck then Max(1, cfg.maxIterations) else 1
  }

  /** ... and only the retry policy tries again. */
  function TriesPerIteration(cfg: StepConfig): int {
    if cfg.onFailure == Retry then Max(0, cfg.maxRetries) + 1 else 1
  }

  ghost predicate InBounds(cfg: StepConfig, l: Locals) {
    && 1 <= l.iteration <= Iterations(cfg)
    && 0 <= l.retryCount < TriesPerIteration(cfg)
  }

  /** Every round either ends the lifecycle in a terminal status or leaves fewer
      iterations, or as many iterations and fewer retries. */
  lemma RoundProgress(cfg: StepConfig, l: Locals, a: Attempt, c: Check)
    requires InBounds(cfg, l)
    ensures var r := OneRound(cfg, l, a, c);
      match r
      case Finish(result) =>
        && result.outcome.Valid() && result.outcome.status in {SUCCEEDED, FAILED, INCOMPLETE}
        && result.at.iteration == l.iteration
      case Again(next) =>
        && InBounds(cfg, next)
        && (next.iteration == l.iteration + 1 || (next.iteration == l.iteration && next.retryCount == l.retryCount + 1))
  {
  }

  /** The whole lifecycle, for an environment that answers the n-th attempt and the
      n-th check. */
  function Lifecycle(cfg: StepConfig, l: Locals, attempt: nat -> Attempt, check: nat -> Check): Result
    requires InBounds(cfg, l)
    decreases Iterations(cfg) - l.iteration, TriesPerIteration(cfg) - l.retryCount
  {
    RoundProgress(cfg, l, attempt(l.attempts), check(l.checks));
    match OneRound(cfg, l, attempt(l.attempts), check(l.checks))
    case Finish(result) => result
    case Again(next) => Lifecycle(cfg, next, attempt, check)
  }

  // ---------------------------------------------------------- the code's own loop

  /** The loop as the executor runs it. */
  method RunStepLifecycle(cfg: StepConfig, attempt: nat -> Attempt, check: nat -> Check)
    returns (outcome: Outcome, runs: nat, checks: nat)
    ensures Lifecycle(cfg, START, attempt, check).outcome == outcome
    ensures runs == Lifecycle(cfg, START, attempt, check).at.runs
    ensures checks == Lifecycle(cfg, START, attempt, check).at.checks
  {
    var iteration, retryCount, attempts := 1, 0, 0;
    var infraCount := 0;
    var state := new Convergence.StepProgress();
    runs, checks := 0, 0;
    while true
      invariant fresh(state)
      invariant InBounds(cfg, Locals(iteration, retryCount, infraCount, state.Now(), attempts, runs, checks))
      invariant Lifecycle(cfg, START, attempt, check) ==
        Lifecycle(cfg, Locals(iteration, retryCount, infraCount, state.Now(), attempts, runs, checks), attempt, check)
      decreases Iterations(cfg) - iteration, TriesPerIteration(cfg) - retryCount
    {
      var a, c := attempt(attempts), check(checks);
      attempts := attempts + 1;
      if a == LockLost {
        return Outcome(FAILED, true), runs, checks;
      }
      runs := runs + 1;
      if a == WorkerThrew {
        return Outcome(FAILED, true), runs, checks;
      }
      if a.WorkerFailed? {
        if a.fatal {
          return Outcome(FAILED, true), runs, checks;
        }
        if cfg.onFailure == Retry && retryCount < cfg.maxRetries {
          retryCount := retryCount + 1;
          continue;
        }
        return Outcome(FAILED, cfg.onFailure == Abort || cfg.onFailure == Retry), runs, checks;
      }
      if a == TransitionLost {
        return Outcome(FAILED, true), runs, checks;
      }
      if !cfg.hasCheck {
        return Outcome(SUCCEEDED, false), runs, checks;
      }
      checks := checks + 1;
      if c == CheckThrew {
        return Outcome(FAILED, true), runs, checks;
      }
      if c.CheckStalled? {
        return Outcome(FAILED, c.fatal || cfg.onFailure != Continue), runs, checks;
      }
      if c.failed {
        return Outcome(FAILED, cfg.onFailure == Abort), runs, checks;
      }
      if cfg.convergence.Some? && c.guardThrows {
        return Outcome(FAILED, cfg.onFailure == Abort || cfg.onFailure == Retry), runs, checks;
      }
      if c.complete {
        return Outcome(SUCCEEDED, false), runs, checks;
      }
      if c.infra {
        infraCount := infraCount + 1;
        if infraCount >= INFRA_FAILURE_LIMIT {
          return Outcome(FAILED, cfg.onFailure == Abort || cfg.onFailure == Retry), runs, checks;
        }
      } else {
        infraCount := 0;
      }
      if cfg.convergence.Some? {
        var shouldFail := state.UpdateConvergenceState(cfg.convergence.value, c.signal);
        if shouldFail {
          return Outcome(FAILED, cfg.onFailure == Abort || cfg.onFailure == Retry), runs, checks;
        }
      }
      if iteration >= cfg.maxIterations {
        if cfg.onExhausted == AbortExhausted {
          return Outcome(FAILED, true), runs, checks;
        }
        return Outcome(INCOMPLETE, false), runs, checks;
      }
      iteration := iteration + 1;
      retryCount := 0;
    }
  }

  // -------------------------------------------------------------------- theorems

  ghost predicate Counted(cfg: StepConfig, l: Locals) {
    && InBounds(cfg, l)
    && l.checks == l.iteration - 1
    && l.runs == l.attempts
    && l.runs <= (l.iteration - 1) * TriesPerIteration(cfg) + l.retryCount
  }

  lemma RoundCounts(cfg: StepConfig, l: Locals, a: Attempt, c: Check)
    requires Counted(cfg, l)
    ensures match OneRound(cfg, l, a, c)
      case Finish(result) =>
        && result.at.runs <= (l.iteration - 1) * TriesPerIteration(cfg) + l.retryCount + 1
        && result.at.checks <= l.iteration && result.at.checks <= result.at.runs + l.checks
      case Again(next) => Counted(cfg, next)
  {
    var t := TriesPerIteration(cfg);
    assert l.iteration * t == (l.iteration - 1) * t + t;
  }

  lemma {:induction false} LifecycleCounts(cfg: StepConfig, l: Locals, attempt: nat -> Attempt, check: nat -> Check)
    requires Counted(cfg, l)
    ensures var r := Lifecycle(cfg, l, attempt, check);
      && r.at.runs <= Iterations(cfg) * TriesPerIteration(cfg)
      && r.at.checks <= Iterations(cfg)
      && r.outcome.Valid() && r.outcome.status in {SUCCEEDED, FAILED, INCOMPLETE}
    decreases Iterations(cfg) - l.iteration, TriesPerIteration(cfg) - l.retryCount
  {
    var a, c := attempt(l.attempts), check(l.checks);
    RoundProgress(cfg, l, a, c);
    RoundCounts(cfg, l, a, c);
    match OneRound(cfg, l, a, c)
    case Finish(result) =>
      var t := TriesPerIteration(cfg);
      Monotone(l.iteration, Iterations(cfg), t);
      assert l.iteration * t == (l.iteration - 1) * t + t;
    case Again(next) =>
      LifecycleCounts(cfg, next, attempt, check);
  }

  lemma Monotone(a: int, b: int, t: int)
    requires a <= b && t >= 0
    ensures a * t <= b * t
  {
  }

  lemma RunsWithinLimits(cfg: StepConfig)
    ensures Iterations(cfg) * TriesPerIteration(cfg) <= Max(1, cfg.maxIterations) * (Max(0, cfg.maxRetries) + 1)
  {
    var tries := Max(0, cfg.maxRetries) + 1;
    Monotone(Iterations(cfg), Max(1, cfg.maxIterations), tries);
    Monotone(TriesPerIteration(cfg), tries, Iterations(cfg));
  }

  /** Every lifecycle ends in a terminal status after a bounded number of worker runs
      and checks, whatever the environment does. */
  lemma LifecycleTerminates(cfg: StepConfig, attempt: nat -> Attempt, check: nat -> Check)
    ensures InBounds(cfg, START)
    ensures var r := Lifecycle(cfg, START, attempt, check);
      && r.at.runs <= Iterations(cfg) * TriesPerIteration(cfg)
      && r.at.runs <= Max(1, cfg.maxIterations) * (Max(0, cfg.maxRetries) + 1)
      && r.at.checks <= Iterations(cfg) <= Max(1, cfg.maxIterations)
      && r.outcome.Valid() && r.outcome.status in {SUCCEEDED, FAILED, INCOMPLETE}
  {
    LifecycleCounts(cfg, START, attempt, check);
    RunsWithinLimits(cfg);
  }

  /** The causes that stop the dependents whatever the policy says. */
  predicate StopsAnyway(cause: Cause) {
    cause == Fatal || cause == LostBranch || cause == IterationsUsedUp
  }

  predicate SkipsItself(policy: OnFailure, cause: Cause) {
    StopsAnyway(cause) || policy == Abort || (policy == Retry && cause != CheckSaidFailed)
  }

  /** A failed step stops its dependents exactly when its policy is not to continue or
      the failure was fatal, lost the branch or used up the iterations. The lifecycle
      skips them itself in all these cases but one: a check that says "failed" under the
      retry policy leaves it to the scheduler's next pass. */
  lemma {:induction false} WhoStopsDependents(cfg: StepConfig, l: Locals, attempt: nat -> Attempt, check: nat -> Check)
    requires InBounds(cfg, l)
    ensures var r := Lifecycle(cfg, l, attempt, check);
      && (r.outcome.status == FAILED <==> r.cause != NoCause)
      && (Stops(r.outcome.status, cfg.onFailure == Continue, r.outcome.skips) <==>
            r.outcome.status == FAILED && (cfg.onFailure != Continue || StopsAnyway(r.cause)))
      && (r.outcome.skips <==> r.cause != NoCause && SkipsItself(cfg.onFailure, r.cause))
    decreases Iterations(cfg) - l.iteration, TriesPerIteration(cfg) - l.retryCount
  {
    var a, c := attempt(l.attempts), check(l.checks);
    RoundProgress(cfg, l, a, c);
    match OneRound(cfg, l, a, c)
    case Finish(_) =>
    case Again(next) => WhoStopsDependents(cfg, next, attempt, check);
  }

  /** The last attempt succeeded and the last check, if there is one, said complete. */
  ghost predicate LastsGood(cfg: StepConfig, attempt: nat -> Attempt, check: nat -> Check,
                            at: Locals, checksBefore: nat) {
    && at.attempts > 0 && attempt(at.attempts - 1) == WorkerSucceeded
    && (cfg.hasCheck ==> at.checks > checksBefore && Says(cfg, check(at.checks - 1)))
  }

  lemma SuccessRound(cfg: StepConfig, l: Locals, attempt: nat -> Attempt, check: nat -> Check)
    ensures match OneRound(cfg, l, attempt(l.attempts), check(l.checks))
      case Finish(r) =>
        && r.at.attempts == l.attempts + 1 && r.at.checks >= l.checks
        && (attempt(l.attempts) == WorkerSucceeded && cfg.hasCheck ==> r.at.checks > l.checks)
        && (r.outcome.status == SUCCEEDED <==> LastsGood(cfg, attempt, check, r.at, l.checks))
      case Again(next) => next.attempts == l.attempts + 1 && next.checks >= l.checks
  {
  }

  /** Success is exactly a last attempt that succeeded and, where there is a check, a
      last check that said complete. */
  lemma {:induction false} SuccessExactly(cfg: StepConfig, l: Locals, attempt: nat -> Attempt, check: nat -> Check)
    requires InBounds(cfg, l)
    ensures var r := Lifecycle(cfg, l, attempt, check);
      && r.at.attempts > l.attempts && r.at.checks >= l.checks
      && (attempt(r.at.attempts - 1) == WorkerSucceeded && cfg.hasCheck ==> r.at.checks > l.checks)
      && (r.outcome.status == SUCCEEDED <==> LastsGood(cfg, attempt, check, r.at, l.checks))
    decreases Iterations(cfg) - l.iteration, TriesPerIteration(cfg) - l.retryCount
  {
    var a, c := attempt(l.attempts), check(l.checks);
    RoundProgress(cfg, l, a, c);
    SuccessRound(cfg, l, attempt, check);
    match OneRound(cfg, l, a, c)
    case Finish(_) =>
    case Again(next) => SuccessExactly(cfg, next, attempt, check);
  }

  predicate Says(cfg: StepConfig, c: Check) {
    c.CheckReturned? && !c.failed && c.complete && !(cfg.convergence.Some? && c.guardThrows)
  }

  /** A step is INCOMPLETE only after its last allowed iteration, under the policy to
      continue. */
  lemma {:induction false} IncompleteMeansUsedUp(cfg: StepConfig, l: Locals,
                                                 attempt: nat -> Attempt, check: nat -> Check)
    requires Counted(cfg, l)
    ensures var r := Lifecycle(cfg, l, attempt, check);
      r.outcome.status == INCOMPLETE || r.cause == IterationsUsedUp ==>
        && r.at.checks == Iterations(cfg)
        && (r.outcome.status == INCOMPLETE <==> cfg.onExhausted == ContinueExhausted)
    decreases Iterations(cfg) - l.iteration, TriesPerIteration(cfg) - l.retryCount
  {
    var a, c := attempt(l.attempts), check(l.checks);
    RoundProgress(cfg, l, a, c);
    RoundCounts(cfg, l, a, c);
    match OneRound(cfg, l, a, c)
    case Finish(_) =>
    case Again(next) => IncompleteMeansUsedUp(cfg, next, attempt, check);
  }

  /** An incomplete check that broke down for reasons of infrastructure. */
  predicate InfraFailure(cfg: StepConfig, c: Check) {
    c.CheckReturned? && !c.failed && !(cfg.convergence.Some? && c.guardThrows) && !c.complete && c.infra
  }

  /** The last two of the first `n` checks broke down. */
  ghost predicate BrokeTwice(cfg: StepConfig, check: nat -> Check, n: nat) {
    n >= 2 && InfraFailure(cfg, check(n - 1)) && InfraFailure(cfg, check(n - 2))
  }

  ghost predicate InfraCounted(cfg: StepConfig, l: Locals, check: nat -> Check) {
    && l.infraCount == (if l.checks > 0 && InfraFailure(cfg, check(l.checks - 1)) then 1 else 0)
    && !BrokeTwice(cfg, check, l.checks)
  }

  lemma InfraRound(cfg: StepConfig, l: Locals, a: Attempt, check: nat -> Check)
    requires InfraCounted(cfg, l, check)
    ensures match OneRound(cfg, l, a, check(l.checks))
      case Finish(r) => r.cause == InfraBroke <==> BrokeTwice(cfg, check, r.at.checks)
      case Again(next) => InfraCounted(cfg, next, check)
  {
  }

  /** A step is given up for its infrastructure exactly when its last two checks broke
      down, one right after the other, whatever came before. */
  lemma {:induction false} InfraExactly(cfg: StepConfig, l: Locals, attempt: nat -> Attempt, check: nat -> Check)
    requires InBounds(cfg, l) && InfraCounted(cfg, l, check)
    ensures var r := Lifecycle(cfg, l, attempt, check);
      r.cause == InfraBroke <==> BrokeTwice(cfg, check, r.at.checks)
    decreases Iterations(cfg) - l.iteration, TriesPerIteration(cfg) - l.retryCount
  {
    var a, c := attempt(l.attempts), check(l.checks);
    RoundProgress(cfg, l, a, c);
    InfraRound(cfg, l, a, check);
    match OneRound(cfg, l, a, c)
    case Finish(_) =>
    case Again(next) => InfraExactly(cfg, next, attempt, check);
  }

  // ------------------------------------------------- what the answers decide

  /** A check that lets the loop go on, as far as the check itself is concerned. */
  predicate Incomplete(cfg: StepConfig, c: Check) {
    c.CheckReturned? && !c.failed && !c.complete && !(cfg.convergence.Some? && c.guardThrows)
  }

  /** How many of the attempts up to the `n`-th failed in a row, none of them fatally. */
  function Streak(attempt: nat -> Attempt, n: nat): nat {
    if n > 0 && attempt(n - 1) == WorkerFailed(false) then 1 + Streak(attempt, n - 1) else 0
  }

  function SignalsOf(check: nat -> Check, n: nat): seq<Option<Convergence.Key>> {
    seq(n, i requires 0 <= i < n => if check(i).CheckReturned? then check(i).signal else None)
  }

  /** After attempt `j` another can follow: it succeeded and is to be checked, or it failed
      without being fatal, under the retry policy, and no more often in a row than that
      policy tries again. */
  ghost predicate CanGoOn(cfg: StepConfig, attempt: nat -> Attempt, j: nat) {
    || (attempt(j) == WorkerSucceeded && cfg.hasCheck)
    || (attempt(j) == WorkerFailed(false) && cfg.onFailure == Retry && Streak(attempt, j + 1) <= cfg.maxRetries)
  }

  /** The first `k` checks of the step gave no reason to end it. */
  ghost predicate ChecksGoOn(cfg: StepConfig, check: nat -> Check, k: nat) {
    && (k > 0 ==> k < cfg.maxIterations)
    && (forall i: nat :: i < k ==> Incomplete(cfg, check(i)) && !BrokeTwice(cfg, check, i + 1))
    && (cfg.convergence.Some? ==> !StallsWithin(cfg, check, k))
  }

  /** The convergence controller fails the step on the signals of the first `k` checks. */
  ghost predicate StallsWithin(cfg: StepConfig, check: nat -> Check, k: nat)
    requires cfg.convergence.Some?
  {
    Convergence.FailsDuring(cfg.convergence.value, Convergence.FRESH, SignalsOf(check, k))
  }

  /** Where the loop stands: every answer so far let it go on, and its variables sum up
      those answers. */
  ghost predicate Reached(cfg: StepConfig, l: Locals, attempt: nat -> Attempt, check: nat -> Check) {
    && Counted(cfg, l)
    && InfraCounted(cfg, l, check)
    && l.retryCount == Streak(attempt, l.attempts)
    && (forall j: nat :: j < l.attempts ==> CanGoOn(cfg, attempt, j))
    && ChecksGoOn(cfg, check, l.checks)
    && (cfg.convergence.Some? ==>
          l.progress == Convergence.AfterAll(cfg.convergence.value, Convergence.FRESH, SignalsOf(check, l.checks)))
  }

  /** The last check, if the last attempt came to one. */
  ghost function LastCheck(cfg: StepConfig, attempt: nat -> Attempt, check: nat -> Check, at: Locals): Option<Check> {
    if cfg.hasCheck && at.attempts > 0 && attempt(at.attempts - 1) == WorkerSucceeded && at.checks > 0
    then Some(check(at.checks - 1)) else None
  }

  /** The cause of failure, by the last answers. */
  ghost predicate CausedBy(cfg: StepConfig, cause: Cause, a: Attempt, c: Option<Check>) {
    && (cause == LostBranch <==> a == LockLost || a == TransitionLost)
    && (cause == Fatal <==>
          a == WorkerThrew || a == WorkerFailed(true) || c == Some(CheckThrew) || c == Some(CheckStalled(true)))
    && (cause == WorkerGaveUp <==> a == WorkerFailed(false))
    && (cause == CheckStuck <==> c == Some(CheckStalled(false)))
    && (cause == CheckSaidFailed <==> c.Some? && c.value.CheckReturned? && c.value.failed)
    && (cause == GuardBroke <==>
          c.Some? && c.value.CheckReturned? && !c.value.failed && cfg.convergence.Some? && c.value.guardThrows)
  }

  /** The outcome, by the cause of failure and the policy alone. */
  ghost predicate OutcomeOf(cfg: StepConfig, outcome: Outcome, cause: Cause) {
    && (cause in {Fatal, LostBranch, IterationsUsedUp} ==> outcome == Outcome(FAILED, true))
    && (cause in {WorkerGaveUp, CheckStuck, GuardBroke, InfraBroke, Stalled} ==>
          outcome == Outcome(FAILED, cfg.onFailure != Continue))
    && (cause == CheckSaidFailed ==> outcome == Outcome(FAILED, cfg.onFailure == Abort))
    && (cause == NoCause ==> outcome == Outcome(SUCCEEDED, false) || outcome == Outcome(INCOMPLETE, false))
  }

  /** Of an incomplete last check, the `k`-th: two breakdowns in a row come first, then the
      controller, then the iterations. */
  ghost predicate IncompleteEnd(cfg: StepConfig, r: Result, check: nat -> Check, k: nat) {
    if BrokeTwice(cfg, check, k) then r.cause == InfraBroke
    else if cfg.convergence.Some? && StallsWithin(cfg, check, k) then r.cause == Stalled
    else
      && k >= cfg.maxIterations
      && (cfg.onExhausted == AbortExhausted ==> r.cause == IterationsUsedUp)
      && (cfg.onExhausted == ContinueExhausted ==> r.outcome.status == INCOMPLETE)
  }

  /** How a lifecycle that ends with `r` came to its end. */
  ghost predicate EndedBy(cfg: StepConfig, attempt: nat -> Attempt, check: nat -> Check, r: Result) {
    var n, k := r.at.attempts, r.at.checks;
    && n > 0
    && var c := LastCheck(cfg, attempt, check, r.at);
    && (forall j: nat :: j < n - 1 ==> CanGoOn(cfg, attempt, j))
    && ChecksGoOn(cfg, check, if c.Some? then k - 1 else k)
    && CausedBy(cfg, r.cause, attempt(n - 1), c)
    && OutcomeOf(cfg, r.outcome, r.cause)
    && (r.cause == WorkerGaveUp && cfg.onFailure == Retry ==> Streak(attempt, n) > cfg.maxRetries)
    && (attempt(n - 1) == WorkerSucceeded && cfg.hasCheck ==> c.Some?)
    && (c.Some? && Incomplete(cfg, c.value) ==> IncompleteEnd(cfg, r, check, k))
    && (r.outcome.status == SUCCEEDED <==>
          attempt(n - 1) == WorkerSucceeded && (cfg.hasCheck ==> c.Some? && Says(cfg, c.value)))
  }

  /** The end of the lifecycle, by the answers alone and for every policy: no answer but
      the last could have ended it, the last one did, and it says with which cause and
      outcome. */
  lemma {:induction false} EndIsDecided(cfg: StepConfig, l: Locals, attempt: nat -> Attempt, check: nat -> Check)
    requires Reached(cfg, l, attempt, check)
    ensures EndedBy(cfg, attempt, check, Lifecycle(cfg, l, attempt, check))
    decreases Iterations(cfg) - l.iteration, TriesPerIteration(cfg) - l.retryCount
  {
    var a, c := attempt(l.attempts), check(l.checks);
    RoundProgress(cfg, l, a, c);
    RoundDecides(cfg, l, attempt, check);
    match OneRound(cfg, l, a, c)
    case Finish(_) =>
    case Again(next) => EndIsDecided(cfg, next, attempt, check);
  }

  ghost predicate RoundDecided(cfg: StepConfig, l: Locals, attempt: nat -> Attempt, check: nat -> Check) {
    match OneRound(cfg, l, attempt(l.attempts), check(l.checks))
    case Finish(r) => EndedBy(cfg, attempt, check, r)
    case Again(next) => Reached(cfg, next, attempt, check)
  }

  /** A failed attempt that is tried again. */
  lemma RetryGoesOn(cfg: StepConfig, l: Locals, attempt: nat -> Attempt, check: nat -> Check)
    requires Reached(cfg, l, attempt, check) && attempt(l.attempts) == WorkerFailed(false)
    requires cfg.onFailure == Retry && l.retryCount < cfg.maxRetries
    ensures RoundDecided(cfg, l, attempt, check)
  {
    RoundCounts(cfg, l, attempt(l.attempts), check(l.checks));
    assert Streak(attempt, l.attempts + 1) == l.retryCount + 1;
    assert CanGoOn(cfg, attempt, l.attempts);
  }

  /** An attempt that ends the step without a check. */
  lemma AttemptEnds(cfg: StepConfig, l: Locals, attempt: nat -> Attempt, check: nat -> Check)
    requires Reached(cfg, l, attempt, check) && !(attempt(l.attempts) == WorkerSucceeded && cfg.hasCheck)
    requires OneRound(cfg, l, attempt(l.attempts), check(l.checks)).Finish?
    ensures RoundDecided(cfg, l, attempt, check)
  {
    var r := OneRound(cfg, l, attempt(l.attempts), check(l.checks)).result;
    assert r.at.attempts == l.attempts + 1 && r.at.checks == l.checks;
    assert LastCheck(cfg, attempt, check, r.at) == None;
  }

  /** A round whose check ends the step at once. */
  lemma CheckDecides(cfg: StepConfig, l: Locals, attempt: nat -> Attempt, check: nat -> Check)
    requires Reached(cfg, l, attempt, check) && attempt(l.attempts) == WorkerSucceeded && cfg.hasCheck
    requires !Incomplete(cfg, check(l.checks))
    ensures RoundDecided(cfg, l, attempt, check)
  {
  }

  /** One more incomplete check, seen from the controller. */
  lemma SignalsNext(cfg: StepConfig, l: Locals, attempt: nat -> Attempt, check: nat -> Check)
    requires Reached(cfg, l, attempt, check) && Incomplete(cfg, check(l.checks)) && cfg.convergence.Some?
    ensures var signal := check(l.checks).signal;
      && (StallsWithin(cfg, check, l.checks + 1) <==> Convergence.Fails(cfg.convergence.value, l.progress, signal))
      && Convergence.AfterAll(cfg.convergence.value, Convergence.FRESH, SignalsOf(check, l.checks + 1)) ==
         Convergence.After(cfg.convergence.value, l.progress, signal)
  {
    var before, signal := SignalsOf(check, l.checks), check(l.checks).signal;
    assert SignalsOf(check, l.checks + 1) == before + [signal];
    Convergence.OneCheckMore(cfg.convergence.value, Convergence.FRESH, before, signal);
  }

  lemma OneCheckOn(cfg: StepConfig, check: nat -> Check, k: nat)
    requires ChecksGoOn(cfg, check, k) && Incomplete(cfg, check(k)) && k + 1 < cfg.maxIterations
    requires !BrokeTwice(cfg, check, k + 1) && (cfg.convergence.Some? ==> !StallsWithin(cfg, check, k + 1))
    ensures ChecksGoOn(cfg, check, k + 1)
  {
  }

  lemma OneAttemptOn(cfg: StepConfig, attempt: nat -> Attempt, n: nat)
    requires forall j: nat :: j < n ==> CanGoOn(cfg, attempt, j)
    requires attempt(n) == WorkerSucceeded && cfg.hasCheck
    ensures forall j: nat :: j < n + 1 ==> CanGoOn(cfg, attempt, j)
    ensures Streak(attempt, n + 1) == 0
  {
    assert CanGoOn(cfg, attempt, n);
  }

  /** A round whose check is incomplete and ends the step. */
  lemma IncompleteEnds(cfg: StepConfig, l: Locals, attempt: nat -> Attempt, check: nat -> Check)
    requires Reached(cfg, l, attempt, check) && attempt(l.attempts) == WorkerSucceeded && cfg.hasCheck
    requires Incomplete(cfg, check(l.checks)) && OneRound(cfg, l, attempt(l.attempts), check(l.checks)).Finish?
    ensures EndedBy(cfg, attempt, check, OneRound(cfg, l, attempt(l.attempts), check(l.checks)).result)
  {
    var r := OneRound(cfg, l, attempt(l.attempts), check(l.checks)).result;
    InfraRound(cfg, l, attempt(l.attempts), check);
    if cfg.convergence.Some? {
      SignalsNext(cfg, l, attempt, check);
    }
    assert r.at.attempts == l.attempts + 1 && r.at.checks == l.checks + 1;
    assert LastCheck(cfg, attempt, check, r.at) == Some(check(l.checks));
    assert IncompleteEnd(cfg, r, check, r.at.checks);
  }

  /** A round whose check is incomplete and leads to another round. */
  lemma IncompleteGoesOn(cfg: StepConfig, l: Locals, attempt: nat -> Attempt, check: nat -> Check)
    requires Reached(cfg, l, attempt, check) && attempt(l.attempts) == WorkerSucceeded && cfg.hasCheck
    requires Incomplete(cfg, check(l.checks)) && OneRound(cfg, l, attempt(l.attempts), check(l.checks)).Again?
    ensures Reached(cfg, OneRound(cfg, l, attempt(l.attempts), check(l.checks)).next, attempt, check)
  {
    var next := OneRound(cfg, l, attempt(l.attempts), check(l.checks)).next;
    RoundCounts(cfg, l, attempt(l.attempts), check(l.checks));
    InfraRound(cfg, l, attempt(l.attempts), check);
    if cfg.convergence.Some? {
      SignalsNext(cfg, l, attempt, check);
    }
    assert next.attempts == l.attempts + 1 && next.checks == l.checks + 1;
    OneCheckOn(cfg, check, l.checks);
    OneAttemptOn(cfg, attempt, l.attempts);
  }

  lemma RoundDecides(cfg: StepConfig, l: Locals, attempt: nat -> Attempt, check: nat -> Check)
    requires Reached(cfg, l, attempt, check)
    ensures RoundDecided(cfg, l, attempt, check)
  {
    if OneRound(cfg, l, attempt(l.attempts), check(l.checks)).Again? && attempt(l.attempts) != WorkerSucceeded {
      RetryGoesOn(cfg, l, attempt, check);
    } else if !(attempt(l.attempts) == WorkerSucceeded && cfg.hasCheck) {
      AttemptEnds(cfg, l, attempt, check);
    } else if !Incomplete(cfg, check(l.checks)) {
      CheckDecides(cfg, l, attempt, check);
    } else if OneRound(cfg, l, attempt(l.attempts), check(l.checks)).Finish? {
      IncompleteEnds(cfg, l, attempt, check);
    } else {
      IncompleteGoesOn(cfg, l, attempt, check);
    }
  }

  /** From the start: how every lifecycle ends, by its answers. */
  lemma EndedByAnswers(cfg: StepConfig, attempt: nat -> Attempt, check: nat -> Check)
    ensures InBounds(cfg, START) && EndedBy(cfg, attempt, check, Lifecycle(cfg, START, attempt, check))
  {
    EndIsDecided(cfg, START, attempt, check);
  }

  predicate FatalAttempt(a: Attempt) {
    a == LockLost || a == TransitionLost || a == WorkerThrew || a == WorkerFailed(true)
  }

  predicate FatalCheck(c: Check) {
    c == CheckThrew || c == CheckStalled(true)
  }

  /** A fatal answer is the last one, and the step fails and skips its dependents whatever
      the policy is. */
  lemma FatalIsFinal(cfg: StepConfig, attempt: nat -> Attempt, check: nat -> Check)
    ensures InBounds(cfg, START)
    ensures var r := Lifecycle(cfg, START, attempt, check);
      && (forall j: nat :: j < r.at.attempts && FatalAttempt(attempt(j)) ==>
            j == r.at.attempts - 1 && r.outcome == Outcome(FAILED, true))
      && (forall i: nat :: i < r.at.checks && FatalCheck(check(i)) ==>
            i == r.at.checks - 1 && r.outcome == Outcome(FAILED, true))
  {
    EndedByAnswers(cfg, attempt, check);
    var r := Lifecycle(cfg, START, attempt, check);
    forall j: nat | j < r.at.attempts && FatalAttempt(attempt(j))
      ensures j == r.at.attempts - 1 && r.outcome == Outcome(FAILED, true)
    {
      assert !CanGoOn(cfg, attempt, j);
    }
    forall i: nat | i < r.at.checks && FatalCheck(check(i))
      ensures i == r.at.checks - 1 && r.outcome == Outcome(FAILED, true)
    {
      assert !Incomplete(cfg, check(i));
    }
  }

  /** A failure that is not fatal is tried again exactly as often as the retry policy says,
      and under no other policy; otherwise the step fails by its policy. */
  lemma RetriesExactly(cfg: StepConfig, attempt: nat -> Attempt, check: nat -> Check, j: nat)
    requires InBounds(cfg, START) && j < Lifecycle(cfg, START, attempt, check).at.attempts
    requires attempt(j) == WorkerFailed(false)
    ensures var r := Lifecycle(cfg, START, attempt, check);
      && (j < r.at.attempts - 1 <==> cfg.onFailure == Retry && Streak(attempt, j + 1) <= cfg.maxRetries)
      && (j == r.at.attempts - 1 ==> r.outcome == Outcome(FAILED, cfg.onFailure != Continue))
  {
    EndedByAnswers(cfg, attempt, check);
    var r := Lifecycle(cfg, START, attempt, check);
    if j < r.at.attempts - 1 {
      assert CanGoOn(cfg, attempt, j);
    } else {
      assert j + 1 == r.at.attempts;
    }
  }

  // --------------------------------------------------- convergence in the loop

  /** Every check comes back incomplete with the signal `key` and is otherwise sound. */
  ghost predicate SameSignal(check: nat -> Check, key: Convergence.Key) {
    forall n: nat :: check(n) == CheckReturned(false, false, false, false, Some(key))
  }

  lemma {:induction false} StallChecks(cfg: StepConfig, l: Locals, attempt: nat -> Attempt, check: nat -> Check,
                                       key: Convergence.Key)
    requires InBounds(cfg, l) && l.infraCount == 0
    requires cfg.convergence.Some? && cfg.convergence.value.Valid() && cfg.convergence.value.failOnMaxStage
    requires Convergence.InRange(cfg.convergence.value, l.progress)
    requires SameSignal(check, key)
    ensures var r := Lifecycle(cfg, l, attempt, check);
      var last := l.checks + Convergence.Remaining(cfg.convergence.value, l.progress, key);
      r.at.checks <= last && (r.cause == Stalled <==> r.at.checks == last)
    decreases Iterations(cfg) - l.iteration, TriesPerIteration(cfg) - l.retryCount
  {
    var a, c := attempt(l.attempts), check(l.checks);
    RoundProgress(cfg, l, a, c);
    Convergence.RemainingStep(cfg.convergence.value, l.progress, key);
    match OneRound(cfg, l, a, c)
    case Finish(_) =>
    case Again(next) => StallChecks(cfg, next, attempt, check, key);
  }

  /** A step whose checks keep reporting the same failure makes at most as many as the
      bound of the convergence controller, however many iterations it is allowed, and is
      failed by the controller exactly when it makes that many. */
  lemma StallEndsStep(cfg: StepConfig, attempt: nat -> Attempt, check: nat -> Check, key: Convergence.Key)
    requires cfg.convergence.Some? && cfg.convergence.value.Valid() && cfg.convergence.value.failOnMaxStage
    requires SameSignal(check, key)
    ensures InBounds(cfg, START)
    ensures var r := Lifecycle(cfg, START, attempt, check);
      var bound := Convergence.Bound(cfg.convergence.value);
      && r.at.checks <= bound
      && (r.cause == Stalled <==> r.at.checks == bound)
      && (r.at.checks == bound ==> r.outcome == Outcome(FAILED, SkipsItself(cfg.onFailure, Stalled)))
  {
    StallChecks(cfg, START, attempt, check, key);
    WhoStopsDependents(cfg, START, attempt, check);
  }

  // ------------------------------------------------------- the bound is reached

  /** Every iteration fails as often as it may, then succeeds; no check is complete. */
  function StubbornAttempt(tries: int, n: nat): Attempt
    requires tries >= 1
  {
    if n % tries < tries - 1 then WorkerFailed(false) else WorkerSucceeded
  }

  lemma TryInIteration(k: nat, t: int, r: nat)
    requires r < t
    ensures (k * t + r) % t == r
  {
    var n := k * t + r;
    var q, m := n / t, n % t;
    assert n == q * t + m && 0 <= m < t;
    SameQuotient(q, k, t, m - r);
  }

  lemma SameQuotient(a: int, b: int, t: int, d: int)
    requires t >= 1 && -t < d < t && (b - a) * t == d
    ensures d == 0
  {
    if b - a >= 1 {
      Monotone(1, b - a, t);
    } else if a - b >= 1 {
      Monotone(1, a - b, t);
    }
  }

  /** No signals: nothing for the convergence controller to count. */
  const SILENT_CHECK := CheckReturned(false, false, false, false, None)

  lemma StubbornRound(cfg: StepConfig, l: Locals)
    requires Counted(cfg, l) && l.runs == (l.iteration - 1) * TriesPerIteration(cfg) + l.retryCount && l.infraCount == 0
    ensures match OneRound(cfg, l, StubbornAttempt(TriesPerIteration(cfg), l.attempts), SILENT_CHECK)
      case Finish(r) => r.at.runs == Iterations(cfg) * TriesPerIteration(cfg)
      case Again(next) =>
        && Counted(cfg, next) && next.infraCount == 0
        && next.runs == (next.iteration - 1) * TriesPerIteration(cfg) + next.retryCount
  {
    var t := TriesPerIteration(cfg);
    RoundProgress(cfg, l, StubbornAttempt(t, l.attempts), SILENT_CHECK);
    RoundCounts(cfg, l, StubbornAttempt(t, l.attempts), SILENT_CHECK);
    TryInIteration(l.iteration - 1, t, l.retryCount);
    assert l.iteration * t == (l.iteration - 1) * t + t;
  }

  lemma {:induction false} StubbornRuns(cfg: StepConfig, l: Locals, attempt: nat -> Attempt, check: nat -> Check)
    requires Counted(cfg, l) && l.runs == (l.iteration - 1) * TriesPerIteration(cfg) + l.retryCount && l.infraCount == 0
    requires forall n: nat :: attempt(n) == StubbornAttempt(TriesPerIteration(cfg), n)
    requires forall n: nat :: check(n) == SILENT_CHECK
    ensures Lifecycle(cfg, l, attempt, check).at.runs == Iterations(cfg) * TriesPerIteration(cfg)
    decreases Iterations(cfg) - l.iteration, TriesPerIteration(cfg) - l.retryCount
  {
    var a, c := attempt(l.attempts), check(l.checks);
    RoundProgress(cfg, l, a, c);
    StubbornRound(cfg, l);
    match OneRound(cfg, l, a, c)
    case Finish(_) =>
    case Again(next) => StubbornRuns(cfg, next, attempt, check);
  }

  /** The bound on worker runs is exact for every configuration: some environment uses
      it up. */
  lemma RunBoundIsReached(cfg: StepConfig)
    ensures InBounds(cfg, START)
    ensures exists attempt: nat -> Attempt, check: nat -> Check ::
      Lifecycle(cfg, START, attempt, check).at.runs == Iterations(cfg) * TriesPerIteration(cfg)
  {
    var t := TriesPerIteration(cfg);
    var attempt: nat -> Attempt := (n: nat) => StubbornAttempt(t, n);
    var check: nat -> Check := (n: nat) => SILENT_CHECK;
    StubbornRuns(cfg, START, attempt, check);
  }
}
