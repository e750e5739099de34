/** Steps of a workflow, the dependency graph they form, and what a finished
    workflow means: the status every step has to end in once the outcome of
    every step's own execution is fixed. */
module WorkflowGraph {

  /** Step names are only ever compared, so a number stands for a name. */
  type StepId = nat

  datatype StepStatus =
    | PENDING | READY | RUNNING | CHECKING
    | SUCCEEDED | FAILED | INCOMPLETE | SKIPPED | CANCELLED | OMITTED

  datatype OnFailure = Abort | Retry | Continue

  datatype StepDef = StepDef(dependsOn: seq<StepId>, onFailure: OnFailure)

  datatype WorkflowStatus = WorkflowSucceeded | WorkflowFailed | WorkflowCancelled | WorkflowTimedOut

  /** `order` is the insertion order in which every loop visits the steps. */
  datatype Graph = Graph(order: seq<StepId>, defs: map<StepId, StepDef>) {

    ghost predicate Valid() {
      && (forall i, j :: 0 <= i < j < |order| ==> order[i] != order[j])
      && (forall i :: 0 <= i < |order| ==> order[i] in defs)
      && (forall s {:trigger s in order} :: s in defs ==> s in order)
    }

    /** `d` is listed in `depends_on` of `s` and is itself a step of the workflow. */
    predicate Dep(d: StepId, s: StepId) {
      s in defs && d in defs && d in defs[s].dependsOn
    }

    predicate Continues(s: StepId) {
      s in defs && defs[s].onFailure == Continue
    }
  }

  /** What the worker, the checks and the retry rules of one step come to, and
      whether its lifecycle called `skipDependents`. */
  datatype Outcome = Outcome(status: StepStatus, skips: bool) {

    predicate Valid() {
      IsTerminal(status) && status != SKIPPED && (skips ==> status == FAILED)
    }
  }

  type Statuses = map<StepId, StepStatus>
  type Outcomes = map<StepId, Outcome>

  predicate IsTerminal(s: StepStatus) {
    s.SUCCEEDED? || s.FAILED? || s.INCOMPLETE? || s.SKIPPED? || s.CANCELLED? || s.OMITTED?
  }

  predicate Waiting(s: StepStatus) {
    s == PENDING || s == READY
  }

  predicate Executing(s: StepStatus) {
    s == RUNNING || s == CHECKING
  }

  predicate DepAllowsProgress(dep: StepStatus, continues: bool) {
    dep == SUCCEEDED || dep == INCOMPLETE || dep == OMITTED || (dep == FAILED && continues)
  }

  predicate DepBlocksDownstream(dep: StepStatus, continues: bool) {
    dep == SKIPPED || dep == CANCELLED || (dep == FAILED && !continues)
  }

  /** Blocking as seen over a whole run: a step whose lifecycle called
      `skipDependents` blocks even when its policy is to continue. */
  predicate Stops(status: StepStatus, continues: bool, skips: bool) {
    DepBlocksDownstream(status, continues) || (status == FAILED && skips)
  }

  predicate AllTerminal(g: Graph, st: Statuses)
    requires st.Keys == g.defs.Keys
  {
    forall s :: s in g.defs ==> IsTerminal(st[s])
  }

  /** A ranking of the steps in which every known dependency ranks lower. */
  ghost predicate Ranked(g: Graph, rank: map<StepId, nat>) {
    && rank.Keys == g.defs.Keys
    && forall d, s :: g.Dep(d, s) ==> rank[d] < rank[s]
  }

  ghost predicate Acyclic(g: Graph) {
    exists rank :: Ranked(g, rank)
  }

  ghost predicate ValidOutcomes(g: Graph, out: Outcomes) {
    out.Keys == g.defs.Keys && forall s :: s in out ==> out[s].Valid()
  }

  /** The status `s` has to end in. */
  ghost function Final(g: Graph, rank: map<StepId, nat>, out: Outcomes, s: StepId): StepStatus
    requires Ranked(g, rank) && ValidOutcomes(g, out) && s in g.defs
    decreases rank[s]
  {
    if exists d :: g.Dep(d, s) && Stops(Final(g, rank, out, d), g.Continues(d), out[d].skips)
    then SKIPPED
    else out[s].status
  }

  ghost function FinalMap(g: Graph, rank: map<StepId, nat>, out: Outcomes): Statuses
    requires Ranked(g, rank) && ValidOutcomes(g, out)
  {
    map s | s in g.defs :: Final(g, rank, out, s)
  }

  /** The final map does not depend on the ranking that makes it well defined. */
  lemma {:induction false} FinalIgnoresRanking(
    g: Graph, r0: map<StepId, nat>, r1: map<StepId, nat>, out: Outcomes, s: StepId)
    requires Ranked(g, r0) && Ranked(g, r1) && ValidOutcomes(g, out) && s in g.defs
    ensures Final(g, r0, out, s) == Final(g, r1, out, s)
    decreases r0[s]
  {
    forall d | g.Dep(d, s) ensures Final(g, r0, out, d) == Final(g, r1, out, d) {
      FinalIgnoresRanking(g, r0, r1, out, d);
    }
  }

  /** A path along known dependency edges, from a dependency to a dependent. */
  ghost predicate DepPath(g: Graph, p: seq<StepId>) {
    |p| >= 1 && forall i :: 0 <= i < |p| - 1 ==> g.Dep(p[i], p[i + 1])
  }

  /** `a` reaches `s` along one or more dependency edges. */
  ghost predicate Ancestor(g: Graph, a: StepId, s: StepId) {
    exists p :: DepPath(g, p) && |p| >= 2 && p[0] == a && p[|p| - 1] == s
  }

  lemma AncestorStep(g: Graph, d: StepId, s: StepId)
    requires g.Dep(d, s)
    ensures Ancestor(g, d, s)
    ensures forall a :: Ancestor(g, a, d) ==> Ancestor(g, a, s)
  {
    assert DepPath(g, [d, s]);
    forall a | Ancestor(g, a, d) ensures Ancestor(g, a, s) {
      var p :| DepPath(g, p) && |p| >= 2 && p[0] == a && p[|p| - 1] == d;
      var q := p + [s];
      assert DepPath(g, q);
    }
  }

  /** The step's own outcome stops its dependents: it is cancelled, or fails with a policy
      that is not to continue or with its dependents skipped by its lifecycle. */
  ghost predicate StopsOthers(g: Graph, out: Outcomes, a: StepId) {
    && a in g.defs && a in out
    && (out[a].status == CANCELLED ||
        (out[a].status == FAILED && (g.defs[a].onFailure != Continue || out[a].skips)))
  }

  /** Some ancestor of `s` ends, by its own outcome, in a way that stops its dependents. */
  ghost predicate StoppedAbove(g: Graph, out: Outcomes, s: StepId) {
    exists a :: Ancestor(g, a, s) && StopsOthers(g, out, a)
  }

  /** Along a path from a step that stops its dependents every later step is skipped. */
  lemma {:induction false} PathSkips(g: Graph, rank: map<StepId, nat>, out: Outcomes, p: seq<StepId>, i: nat)
    requires Ranked(g, rank) && ValidOutcomes(g, out) && DepPath(g, p) && 1 <= i < |p|
    requires StopsOthers(g, out, p[0])
    ensures p[i] in g.defs && Final(g, rank, out, p[i]) == SKIPPED
  {
    assert g.Dep(p[i - 1], p[i]);
    if i > 1 {
      PathSkips(g, rank, out, p, i - 1);
    }
    assert Stops(Final(g, rank, out, p[i - 1]), g.Continues(p[i - 1]), out[p[i - 1]].skips);
  }

  lemma {:induction false} SkippedIsStopped(g: Graph, rank: map<StepId, nat>, out: Outcomes, s: StepId)
    requires Ranked(g, rank) && ValidOutcomes(g, out) && s in g.defs
    requires Final(g, rank, out, s) == SKIPPED
    ensures StoppedAbove(g, out, s)
    decreases rank[s]
  {
    assert out[s].Valid();
    var d :| g.Dep(d, s) && Stops(Final(g, rank, out, d), g.Continues(d), out[d].skips);
    AncestorStep(g, d, s);
    if Final(g, rank, out, d) == SKIPPED {
      SkippedIsStopped(g, rank, out, d);
    } else {
      assert StopsOthers(g, out, d);
    }
  }

  /** The final map in closed form: a step is skipped exactly when some ancestor's own
      outcome stops its dependents. */
  lemma SkippedExactly(g: Graph, rank: map<StepId, nat>, out: Outcomes, s: StepId)
    requires Ranked(g, rank) && ValidOutcomes(g, out) && s in g.defs
    ensures Final(g, rank, out, s) == if StoppedAbove(g, out, s) then SKIPPED else out[s].status
  {
    if Final(g, rank, out, s) == SKIPPED {
      SkippedIsStopped(g, rank, out, s);
    }
    if StoppedAbove(g, out, s) {
      var a :| Ancestor(g, a, s) && StopsOthers(g, out, a);
      var p :| DepPath(g, p) && |p| >= 2 && p[0] == a && p[|p| - 1] == s;
      PathSkips(g, rank, out, p, |p| - 1);
    }
  }

  ghost function ComputeWorkflowStatus(st: Statuses): WorkflowStatus {
    if exists s :: s in st && st[s] == FAILED then WorkflowFailed
    else if exists s :: s in st && st[s] == CANCELLED then WorkflowCancelled
    else WorkflowSucceeded
  }
}
