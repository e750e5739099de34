/** The convergence controller of a step with a completion check: it counts repeated
    identical failure signals, escalates stage by stage and finally fails the step. */
module Convergence {
  import opened Wrappers
  import SignalLists
  import StallSignal

  type Key = string

  /** The workflow parser rejects thresholds and stages below one. */
  datatype Config = Config(stallThreshold: int, maxStage: int, failOnMaxStage: bool) {
    predicate Valid() {
      stallThreshold >= 1 && maxStage >= 1
    }
  }

  /** The three optional fields of the step state. */
  datatype Progress = Progress(stage: Option<int>, stallCount: Option<int>, lastKey: Option<Key>)

  const FRESH := Progress(None, None, None)

  function OrElse(o: Option<int>, default: int): int {
    if o.Some? then o.value else default
  }

  function Min(a: int, b: int): int {
    if a < b then a else b
  }

  /** The object whose fields `updateConvergenceState` changes. */
  class StepProgress {
    var convergenceStage: Option<int>
    var convergenceStallCount: Option<int>
    var convergenceLastStallKey: Option<Key>

    ghost function Now(): Progress
      reads this
    {
      Progress(convergenceStage, convergenceStallCount, convergenceLastStallKey)
    }

    constructor ()
      ensures Now() == FRESH
    {
      convergenceStage, convergenceStallCount, convergenceLastStallKey := None, None, None;
    }

    /** One incomplete check. No key means that the check gave no signals. */
    method UpdateConvergenceState(cfg: Config, signal: Option<Key>) returns (shouldFail: bool)
      modifies this
      ensures Now() == After(cfg, old(Now()), signal)
      ensures shouldFail <==> Fails(cfg, old(Now()), signal)
    {
      if convergenceStage.None? {
        convergenceStage := Some(1);
      }
      if signal.None? {
        return false;
      }
      if convergenceLastStallKey == signal {
        convergenceStallCount := Some(OrElse(convergenceStallCount, 0) + 1);
      } else {
        convergenceLastStallKey := signal;
        convergenceStallCount := Some(1);
      }
      if OrElse(convergenceStallCount, 0) < cfg.stallThreshold {
        return false;
      }
      var nextStage := Min(OrElse(convergenceStage, 1) + 1, cfg.maxStage);
      convergenceStage := Some(nextStage);
      convergenceStallCount := Some(0);
      return nextStage >= cfg.maxStage && cfg.failOnMaxStage;
    }
  }

  function Stage(p: Progress): int {
    OrElse(p.stage, 1)
  }

  /** Repeats of `key` in a row once one more check reports it. */
  function CountWith(p: Progress, key: Key): int {
    if p.lastKey == Some(key) then OrElse(p.stallCount, 0) + 1 else 1
  }

  function After(cfg: Config, p: Progress, signal: Option<Key>): Progress {
    if signal.None? then p.(stage := Some(Stage(p)))
    else if CountWith(p, signal.value) < cfg.stallThreshold then
      Progress(Some(Stage(p)), Some(CountWith(p, signal.value)), signal)
    else Progress(Some(Min(Stage(p) + 1, cfg.maxStage)), Some(0), signal)
  }

  predicate Fails(cfg: Config, p: Progress, signal: Option<Key>) {
    && signal.Some? && CountWith(p, signal.value) >= cfg.stallThreshold
    && Min(Stage(p) + 1, cfg.maxStage) >= cfg.maxStage && cfg.failOnMaxStage
  }

  /** A sequence of incomplete checks, up to the first that fails the step. */
  function FailsDuring(cfg: Config, p: Progress, signals: seq<Option<Key>>): bool
    decreases |signals|
  {
    signals != [] && (Fails(cfg, p, signals[0]) || FailsDuring(cfg, After(cfg, p, signals[0]), signals[1..]))
  }

  function AfterAll(cfg: Config, p: Progress, signals: seq<Option<Key>>): Progress
    decreases |signals|
  {
    if signals == [] then p else AfterAll(cfg, After(cfg, p, signals[0]), signals[1..])
  }

  lemma {:induction false} OneCheckMore(cfg: Config, p: Progress, signals: seq<Option<Key>>, last: Option<Key>)
    ensures AfterAll(cfg, p, signals + [last]) == After(cfg, AfterAll(cfg, p, signals), last)
    ensures FailsDuring(cfg, p, signals + [last]) <==>
            FailsDuring(cfg, p, signals) || Fails(cfg, AfterAll(cfg, p, signals), last)
    decreases |signals|
  {
    if signals == [] {
      assert [] + [last] == [last] && [last][1..] == [];
    } else {
      assert (signals + [last])[1..] == signals[1..] + [last];
      OneCheckMore(cfg, After(cfg, p, signals[0]), signals[1..], last);
    }
  }

  /** The progress of a step that has not been failed by the controller. */
  ghost predicate Reachable(cfg: Config, p: Progress) {
    exists signals :: !FailsDuring(cfg, FRESH, signals) && p == AfterAll(cfg, FRESH, signals)
  }

  predicate InRange(cfg: Config, p: Progress) {
    && 1 <= Stage(p) <= cfg.maxStage
    && 0 <= OrElse(p.stallCount, 0) < cfg.stallThreshold
    && (cfg.failOnMaxStage && cfg.maxStage > 1 ==> Stage(p) < cfg.maxStage)
  }

  lemma {:induction false} StaysInRange(cfg: Config, p: Progress, signals: seq<Option<Key>>)
    requires cfg.Valid() && InRange(cfg, p) && !FailsDuring(cfg, p, signals)
    ensures InRange(cfg, AfterAll(cfg, p, signals))
    ensures Stage(p) <= Stage(AfterAll(cfg, p, signals))
    decreases |signals|
  {
    if signals != [] {
      StaysInRange(cfg, After(cfg, p, signals[0]), signals[1..]);
    }
  }

  /** Every reachable stage lies between one and the maximum and the count below the
      threshold; from there the stage never goes down. */
  lemma StageIsMonotone(cfg: Config, p: Progress, signals: seq<Option<Key>>)
    requires cfg.Valid() && Reachable(cfg, p) && !FailsDuring(cfg, p, signals)
    ensures InRange(cfg, p) && InRange(cfg, AfterAll(cfg, p, signals))
    ensures Stage(p) <= Stage(AfterAll(cfg, p, signals))
  {
    var before :| !FailsDuring(cfg, FRESH, before) && p == AfterAll(cfg, FRESH, before);
    StaysInRange(cfg, FRESH, before);
    StaysInRange(cfg, p, signals);
  }

  /** How many of the checks carry a signal. */
  function Signalled(signals: seq<Option<Key>>): nat {
    if signals == [] then 0 else (if signals[0].Some? then 1 else 0) + Signalled(signals[1..])
  }

  /** The checks with signal `key` it still takes to fail the step. */
  function Remaining(cfg: Config, p: Progress, key: Key): int {
    var levels := if cfg.maxStage == 1 then 1 else cfg.maxStage - Stage(p);
    var counted := if p.lastKey == Some(key) then OrElse(p.stallCount, 0) else 0;
    levels * cfg.stallThreshold - counted
  }

  lemma RemainingStep(cfg: Config, p: Progress, key: Key)
    requires cfg.Valid() && cfg.failOnMaxStage && InRange(cfg, p)
    ensures Remaining(cfg, p, key) >= 1
    ensures Fails(cfg, p, Some(key)) <==> Remaining(cfg, p, key) == 1
    ensures !Fails(cfg, p, Some(key)) ==> Remaining(cfg, After(cfg, p, Some(key)), key) == Remaining(cfg, p, key) - 1
  {
    var t := cfg.stallThreshold;
    var levels := if cfg.maxStage == 1 then 1 else cfg.maxStage - Stage(p);
    assert levels * t == (levels - 1) * t + t;
    if levels > 1 {
      assert (levels - 1) * t >= t;
    }
  }

  /** Exactly `Remaining` checks with one and the same signal fail the step; checks
      without signals in between neither help nor hurt. */
  lemma {:induction false} FailsExactlyAt(cfg: Config, p: Progress, key: Key, signals: seq<Option<Key>>)
    requires cfg.Valid() && cfg.failOnMaxStage && InRange(cfg, p)
    requires forall i :: 0 <= i < |signals| ==> signals[i] == None || signals[i] == Some(key)
    ensures FailsDuring(cfg, p, signals) <==> Signalled(signals) >= Remaining(cfg, p, key)
    decreases |signals|
  {
    RemainingStep(cfg, p, key);
    if signals != [] {
      var p' := After(cfg, p, signals[0]);
      if signals[0].None? {
        assert Remaining(cfg, p', key) == Remaining(cfg, p, key);
        FailsExactlyAt(cfg, p', key, signals[1..]);
      } else if !Fails(cfg, p, signals[0]) {
        FailsExactlyAt(cfg, p', key, signals[1..]);
      }
    }
  }

  function Bound(cfg: Config): int {
    (if cfg.maxStage - 1 > 1 then cfg.maxStage - 1 else 1) * cfg.stallThreshold
  }

  /** The convergence bound: from any reachable progress, that many checks with the
      same signal fail the step, and from a fresh step no fewer do. */
  lemma ConvergenceBound(cfg: Config, p: Progress, key: Key, signals: seq<Option<Key>>)
    requires cfg.Valid() && cfg.failOnMaxStage && Reachable(cfg, p)
    requires forall i :: 0 <= i < |signals| ==> signals[i] == None || signals[i] == Some(key)
    ensures Signalled(signals) >= Bound(cfg) ==> FailsDuring(cfg, p, signals)
    ensures p == FRESH ==> (FailsDuring(cfg, p, signals) <==> Signalled(signals) >= Bound(cfg))
  {
    StageIsMonotone(cfg, p, []);
    FailsExactlyAt(cfg, p, key, signals);
    var t := cfg.stallThreshold;
    if cfg.maxStage > 1 {
      LevelsBound(cfg.maxStage - Stage(p), cfg.maxStage - 1, t);
    }
  }

  lemma LevelsBound(a: int, b: int, t: int)
    requires a <= b && t >= 1
    ensures a * t <= b * t
  {
  }

  /** Without `fail_on_max_stage` the controller never fails a step. */
  lemma {:induction false} NeverFailsWithoutPolicy(cfg: Config, p: Progress, signals: seq<Option<Key>>)
    requires !cfg.failOnMaxStage
    ensures !FailsDuring(cfg, p, signals)
    decreases |signals|
  {
    if signals != [] {
      NeverFailsWithoutPolicy(cfg, After(cfg, p, signals[0]), signals[1..]);
    }
  }

  // ----------------------------------------------------- from lists to failure

  /** What one incomplete check reports. */
  datatype Report = Report(fingerprints: Option<seq<string>>, reasons: Option<seq<string>>)

  function SignalOf(r: Report): Option<Key> {
    StallSignal.StallKey(r.fingerprints, r.reasons)
  }

  function SignalsOf(reports: seq<Report>): seq<Option<Key>> {
    seq(|reports|, i requires 0 <= i < |reports| => SignalOf(reports[i]))
  }

  /** The two reports name the same failure, in whatever order, repetition or white space. */
  ghost predicate SameFailure(a: Report, b: Report) {
    && SignalLists.WithinLimit(a.fingerprints) && SignalLists.WithinLimit(a.reasons)
    && SignalLists.WithinLimit(b.fingerprints) && SignalLists.WithinLimit(b.reasons)
    && SignalLists.Meaning(a.fingerprints) == SignalLists.Meaning(b.fingerprints)
    && (SignalLists.Meaning(a.fingerprints) == {} ==> SignalLists.Meaning(a.reasons) == SignalLists.Meaning(b.reasons))
  }

  lemma {:induction false} AllSignalled(signals: seq<Option<Key>>)
    requires forall i :: 0 <= i < |signals| ==> signals[i].Some?
    ensures Signalled(signals) == |signals|
  {
    if signals != [] {
      AllSignalled(signals[1..]);
    }
  }

  /** As many reports of the same failure as the bound says end the step, from wherever the
      controller stands, however each check words its lists. */
  lemma SameFailureEndsStep(cfg: Config, p: Progress, reports: seq<Report>)
    requires cfg.Valid() && cfg.failOnMaxStage && Reachable(cfg, p)
    requires reports != [] && |reports| >= Bound(cfg) && SignalOf(reports[0]).Some?
    requires forall i :: 0 <= i < |reports| ==> SameFailure(reports[0], reports[i])
    ensures FailsDuring(cfg, p, SignalsOf(reports))
  {
    var signals, key := SignalsOf(reports), SignalOf(reports[0]).value;
    forall i | 0 <= i < |signals| ensures signals[i] == Some(key) {
      var a, b := reports[0], reports[i];
      StallSignal.SignalOfSets(a.fingerprints, a.reasons, b.fingerprints, b.reasons);
    }
    AllSignalled(signals);
    ConvergenceBound(cfg, p, key, signals);
  }
}
