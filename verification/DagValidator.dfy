/** Validation of a workflow before it runs: what each step declares must be sound,
    every dependency must be a known step, and Kahn's algorithm must find no cycle. */
module DagValidator {
  import opened Wrappers
  import opened WorkflowGraph

  datatype Output = Output(name: string, path: string)

  /** What a step declares besides its dependencies; `exports` has the names under which a
      subworkflow step exports, and is empty for other steps. */
  datatype Declared = Declared(
    inputs: seq<StepId>, outputs: seq<Output>, hasCheck: bool, maxIterations: Option<int>, exports: seq<string>)

  datatype ValidationError =
    | UnknownDependency(step: StepId, dep: StepId)
    | InputNotInDeps(step: StepId, from: StepId)
    | DuplicateOutput(step: StepId, name: string)
    | UnsafePath(step: StepId, output: Output)
    | FewIterations(step: StepId)
    | DuplicateExport(step: StepId, name: string)
    | Cycle(steps: seq<StepId>)

  ghost predicate LoopsAt(g: Graph, u: set<StepId>, s: StepId) {
    exists d :: d in u && g.Dep(d, s)
  }

  /** A set of steps in which every step waits for a step of the set. */
  ghost predicate Looping(g: Graph, u: set<StepId>) {
    u <= g.defs.Keys && forall s {:trigger LoopsAt(g, u, s)} :: s in u ==> LoopsAt(g, u, s)
  }

  /** `s` is on a dependency cycle or depends, directly or not, on one. */
  ghost predicate OnOrBehindCycle(g: Graph, s: StepId) {
    exists u :: s in u && Looping(g, u)
  }

  ghost predicate Distinct(q: seq<StepId>) {
    forall i, j :: 0 <= i < j < |q| ==> q[i] != q[j]
  }

  function Members(q: seq<StepId>): set<StepId> {
    set s | s in q
  }

  /** Every known dependency of a listed step is listed before it. */
  ghost predicate Topological(g: Graph, q: seq<StepId>) {
    forall i, d :: 0 <= i < |q| && g.Dep(d, q[i]) ==> d in q[..i]
  }

  /** The occurrences in `deps` of known steps that are not done yet. */
  ghost function Pending(g: Graph, deps: seq<StepId>, done: set<StepId>): nat {
    if deps == [] then 0
    else Pending(g, deps[..|deps| - 1], done) +
         (if deps[|deps| - 1] in g.defs && deps[|deps| - 1] !in done then 1 else 0)
  }

  lemma {:induction false} PendingZero(g: Graph, deps: seq<StepId>, done: set<StepId>)
    ensures Pending(g, deps, done) == 0 <==> forall d :: d in deps && d in g.defs ==> d in done
  {
    if deps != [] {
      var front, last := deps[..|deps| - 1], deps[|deps| - 1];
      PendingZero(g, front, done);
      assert deps == front + [last];
    }
  }

  lemma {:induction false} PendingAfter(g: Graph, deps: seq<StepId>, done: set<StepId>, x: StepId)
    requires x in g.defs && x !in done
    ensures Pending(g, deps, done) == Pending(g, deps, done + {x}) + multiset(deps)[x]
  {
    if deps != [] {
      var front, last := deps[..|deps| - 1], deps[|deps| - 1];
      PendingAfter(g, front, done, x);
      assert deps == front + [last];
    }
  }

  lemma {:induction false} DistinctCard(q: seq<StepId>)
    requires Distinct(q)
    ensures |Members(q)| == |q|
  {
    if q != [] {
      var front, last := q[..|q| - 1], q[|q| - 1];
      DistinctCard(front);
      assert q == front + [last];
      assert Members(q) == Members(front) + {last};
    }
  }

  /** A topological listing of every step is a ranking, read as positions. */
  lemma ListingRanks(g: Graph, q: seq<StepId>)
    requires Distinct(q) && Topological(g, q) && Members(q) == g.defs.Keys
    ensures Acyclic(g)
  {
    var rank := map s | s in g.defs :: Position(q, s);
    forall d, s | g.Dep(d, s) ensures rank[d] < rank[s] {
      assert s in Members(q) && d in Members(q);
      var i := Position(q, s);
      assert d in q[..i];
    }
    assert Ranked(g, rank);
  }

  ghost function Position(q: seq<StepId>, s: StepId): (i: nat)
    ensures s in q ==> i < |q| && q[i] == s && s !in q[..i]
  {
    if q == [] || q[0] == s then 0
    else
      var i := Position(q[1..], s);
      assert s in q ==> s in q[1..];
      assert s in q ==> q[..i + 1] == [q[0]] + q[1..][..i];
      i + 1
  }

  /** In a ranked graph no non-empty set loops. */
  lemma RankedHasNoLoop(g: Graph, u: set<StepId>)
    requires Acyclic(g) && Looping(g, u)
    ensures u == {}
  {
    var rank :| Ranked(g, rank);
    if s :| s in u {
      Descend(g, rank, u, s);
    }
  }

  lemma {:induction false} Descend(g: Graph, rank: map<StepId, nat>, u: set<StepId>, s: StepId)
    requires Ranked(g, rank) && Looping(g, u) && s in u
    ensures false
    decreases rank[s]
  {
    assert LoopsAt(g, u, s);
    var d :| d in u && g.Dep(d, s);
    Descend(g, rank, u, d);
  }

  /** A loop never gets into a topological listing. */
  lemma {:induction false} LoopStaysOut(g: Graph, q: seq<StepId>, u: set<StepId>, i: nat)
    requires Topological(g, q) && Looping(g, u) && i < |q| && q[i] in u
    ensures false
  {
    assert LoopsAt(g, u, q[i]);
    var d :| d in u && g.Dep(d, q[i]);
    var j :| 0 <= j < i && q[..i][j] == d;
    LoopStaysOut(g, q, u, j);
  }

  // ------------------------------------------------------------ the algorithm

  ghost predicate Tables(g: Graph, inDegree: map<StepId, nat>, adjacency: map<StepId, seq<StepId>>) {
    inDegree.Keys == g.defs.Keys == adjacency.Keys
  }

  ghost predicate DegreeOk(g: Graph, built: set<StepId>, inDegree: map<StepId, nat>, s: StepId)
    requires s in g.defs && inDegree.Keys == g.defs.Keys
  {
    inDegree[s] == if s in built then Pending(g, g.defs[s].dependsOn, {}) else 0
  }

  ghost predicate EdgeOk(g: Graph, built: set<StepId>, adjacency: map<StepId, seq<StepId>>, d: StepId, s: StepId)
    requires d in g.defs && adjacency.Keys == g.defs.Keys
  {
    multiset(adjacency[d])[s] == if s in built && s in g.defs then multiset(g.defs[s].dependsOn)[d] else 0
  }

  /** What the two tables hold once the steps of `built` have been entered. */
  ghost predicate TablesOf(g: Graph, built: set<StepId>,
                           inDegree: map<StepId, nat>, adjacency: map<StepId, seq<StepId>>) {
    && Tables(g, inDegree, adjacency)
    && (forall s {:trigger DegreeOk(g, built, inDegree, s)} :: s in g.defs ==> DegreeOk(g, built, inDegree, s))
    && (forall d, s {:trigger EdgeOk(g, built, adjacency, d, s)} :: d in g.defs ==> EdgeOk(g, built, adjacency, d, s))
  }

  method BuildTables(g: Graph) returns (inDegree: map<StepId, nat>, adjacency: map<StepId, seq<StepId>>)
    requires g.Valid()
    ensures TablesOf(g, g.defs.Keys, inDegree, adjacency)
  {
    inDegree := map s | s in g.defs :: 0;
    adjacency := map s | s in g.defs :: [];
    for k := 0 to |g.order|
      invariant TablesOf(g, Members(g.order[..k]), inDegree, adjacency)
    {
      var s := g.order[k];
      ghost var built := Members(g.order[..k]);
      NextMember(g.order, k);
      inDegree, adjacency := EnterStep(g, s, built, inDegree, adjacency);
    }
    assert g.order[..|g.order|] == g.order;
    assert Members(g.order) == g.defs.Keys;
  }

  lemma NextMember(q: seq<StepId>, k: nat)
    requires k < |q|
    ensures Members(q[..k + 1]) == Members(q[..k]) + {q[k]}
    ensures Distinct(q) ==> q[k] !in Members(q[..k])
  {
    assert q[..k + 1] == q[..k] + [q[k]];
  }

  /** The tables after the first `j` entries of `depends_on` of `s`. */
  ghost predicate EnteredTo(g: Graph, s: StepId, j: nat,
                            inDegree0: map<StepId, nat>, adjacency0: map<StepId, seq<StepId>>,
                            inDegree: map<StepId, nat>, adjacency: map<StepId, seq<StepId>>)
    requires s in g.defs && j <= |g.defs[s].dependsOn| && Tables(g, inDegree0, adjacency0)
  {
    var deps := g.defs[s].dependsOn[..j];
    && Tables(g, inDegree, adjacency)
    && inDegree == inDegree0[s := Pending(g, deps, {})]
    && forall d, v {:trigger LinkedOk(s, deps, adjacency0, adjacency, d, v)} :: d in g.defs ==>
         LinkedOk(s, deps, adjacency0, adjacency, d, v)
  }

  /** How often `v` is linked to its dependency `d`. */
  ghost predicate LinkedOk(s: StepId, deps: seq<StepId>, adjacency0: map<StepId, seq<StepId>>,
                           adjacency: map<StepId, seq<StepId>>, d: StepId, v: StepId)
    requires d in adjacency0 && d in adjacency
  {
    multiset(adjacency[d])[v] == if v == s then multiset(deps)[d] else multiset(adjacency0[d])[v]
  }

  /** One more occurrence of a known dependency is one more link. */
  lemma LinkedKnown(g: Graph, s: StepId, deps: seq<StepId>, dep: StepId,
                    adjacency0: map<StepId, seq<StepId>>, adjacency: map<StepId, seq<StepId>>)
    requires adjacency0.Keys == adjacency.Keys == g.defs.Keys && dep in g.defs
    requires forall d, v {:trigger LinkedOk(s, deps, adjacency0, adjacency, d, v)} :: d in g.defs ==>
      LinkedOk(s, deps, adjacency0, adjacency, d, v)
    ensures var linked := adjacency[dep := adjacency[dep] + [s]];
      forall d, v {:trigger LinkedOk(s, deps + [dep], adjacency0, linked, d, v)} :: d in g.defs ==>
        LinkedOk(s, deps + [dep], adjacency0, linked, d, v)
  {
    var longer, linked := deps + [dep], adjacency[dep := adjacency[dep] + [s]];
    OneMore(deps, dep);
    OneMore(adjacency[dep], s);
    forall d, v | d in g.defs ensures LinkedOk(s, longer, adjacency0, linked, d, v) {
      assert LinkedOk(s, deps, adjacency0, adjacency, d, v);
    }
  }

  /** Entering one more dependency that is a known step links and counts it. */
  lemma EnteredKnown(g: Graph, s: StepId, j: nat,
                     inDegree0: map<StepId, nat>, adjacency0: map<StepId, seq<StepId>>,
                     inDegree: map<StepId, nat>, adjacency: map<StepId, seq<StepId>>)
    requires s in g.defs && j < |g.defs[s].dependsOn| && Tables(g, inDegree0, adjacency0)
    requires EnteredTo(g, s, j, inDegree0, adjacency0, inDegree, adjacency)
    requires g.defs[s].dependsOn[j] in inDegree
    ensures var dep := g.defs[s].dependsOn[j];
      EnteredTo(g, s, j + 1, inDegree0, adjacency0,
                inDegree[s := inDegree[s] + 1], adjacency[dep := adjacency[dep] + [s]])
  {
    var deps, dep := g.defs[s].dependsOn, g.defs[s].dependsOn[j];
    LinkedKnown(g, s, deps[..j], dep, adjacency0, adjacency);
    assert deps[..j + 1] == deps[..j] + [dep];
    assert deps[..j + 1][..j] == deps[..j];
    assert inDegree[s := inDegree[s] + 1] == inDegree0[s := Pending(g, deps[..j + 1], {})];
  }

  /** An unknown one changes nothing. */
  lemma EnteredUnknown(g: Graph, s: StepId, j: nat,
                       inDegree0: map<StepId, nat>, adjacency0: map<StepId, seq<StepId>>,
                       inDegree: map<StepId, nat>, adjacency: map<StepId, seq<StepId>>)
    requires s in g.defs && j < |g.defs[s].dependsOn| && Tables(g, inDegree0, adjacency0)
    requires EnteredTo(g, s, j, inDegree0, adjacency0, inDegree, adjacency)
    requires g.defs[s].dependsOn[j] !in inDegree
    ensures EnteredTo(g, s, j + 1, inDegree0, adjacency0, inDegree, adjacency)
  {
    var deps := g.defs[s].dependsOn;
    var longer := deps[..j + 1];
    assert longer == deps[..j] + [deps[j]];
    assert longer[..j] == deps[..j];
    OneMore(deps[..j], deps[j]);
    forall d, v | d in g.defs ensures LinkedOk(s, longer, adjacency0, adjacency, d, v) {
      assert LinkedOk(s, deps[..j], adjacency0, adjacency, d, v);
    }
  }

  lemma OneMore(q: seq<StepId>, last: StepId)
    ensures forall x :: multiset(q + [last])[x] == multiset(q)[x] + if x == last then 1 else 0
  {
  }

  method EnterStep(g: Graph, s: StepId, ghost built: set<StepId>,
                   inDegree0: map<StepId, nat>, adjacency0: map<StepId, seq<StepId>>)
    returns (inDegree: map<StepId, nat>, adjacency: map<StepId, seq<StepId>>)
    requires s in g.defs && s !in built && TablesOf(g, built, inDegree0, adjacency0)
    ensures TablesOf(g, built + {s}, inDegree, adjacency)
  {
    inDegree, adjacency := inDegree0, adjacency0;
    var deps := g.defs[s].dependsOn;
    assert DegreeOk(g, built, inDegree0, s);
    forall d, v | d in g.defs ensures LinkedOk(s, deps[..0], adjacency0, adjacency0, d, v) {
      assert EdgeOk(g, built, adjacency0, d, s);
    }
    for j := 0 to |deps|
      invariant EnteredTo(g, s, j, inDegree0, adjacency0, inDegree, adjacency)
    {
      var dep := deps[j];
      if dep in inDegree {
        EnteredKnown(g, s, j, inDegree0, adjacency0, inDegree, adjacency);
        adjacency := adjacency[dep := adjacency[dep] + [s]];
        inDegree := inDegree[s := inDegree[s] + 1];
      } else {
        EnteredUnknown(g, s, j, inDegree0, adjacency0, inDegree, adjacency);
      }
    }
    EnteredAll(g, s, built, inDegree0, adjacency0, inDegree, adjacency);
  }

  lemma EnteredAll(g: Graph, s: StepId, built: set<StepId>,
                   inDegree0: map<StepId, nat>, adjacency0: map<StepId, seq<StepId>>,
                   inDegree: map<StepId, nat>, adjacency: map<StepId, seq<StepId>>)
    requires s in g.defs && s !in built && TablesOf(g, built, inDegree0, adjacency0)
    requires EnteredTo(g, s, |g.defs[s].dependsOn|, inDegree0, adjacency0, inDegree, adjacency)
    ensures TablesOf(g, built + {s}, inDegree, adjacency)
  {
    var deps := g.defs[s].dependsOn;
    assert deps[..|deps|] == deps;
    forall v | v in g.defs ensures DegreeOk(g, built + {s}, inDegree, v) {
      assert DegreeOk(g, built, inDegree0, v);
    }
    forall d, v | d in g.defs ensures EdgeOk(g, built + {s}, adjacency, d, v) {
      assert EdgeOk(g, built, adjacency0, d, v);
      assert LinkedOk(s, deps, adjacency0, adjacency, d, v);
    }
  }

  // ------------------------------------------------------------- Kahn's loop

  ghost predicate RemainsOk(g: Graph, done: set<StepId>, rest: seq<StepId>, inDegree: map<StepId, nat>, s: StepId)
    requires s in g.defs && inDegree.Keys == g.defs.Keys
  {
    inDegree[s] == Pending(g, g.defs[s].dependsOn, done) + multiset(rest)[s]
  }

  ghost predicate QueuedOk(seen: seq<StepId>, inDegree: map<StepId, nat>, s: StepId)
    requires s in inDegree
  {
    s in seen <==> inDegree[s] == 0
  }

  /** `done` has been visited, `queue` has yet to be; of the neighbours of the last
      visited step only those in `rest` have not been told yet. */
  ghost predicate KahnInv(g: Graph, done: seq<StepId>, queue: seq<StepId>, rest: seq<StepId>,
                          inDegree: map<StepId, nat>)
  {
    && inDegree.Keys == g.defs.Keys
    && Distinct(done + queue) && Members(done + queue) <= g.defs.Keys
    && Topological(g, done)
    && (forall s {:trigger RemainsOk(g, Members(done), rest, inDegree, s)} :: s in g.defs ==>
          RemainsOk(g, Members(done), rest, inDegree, s))
    && (forall s {:trigger QueuedOk(done + queue, inDegree, s)} :: s in g.defs ==>
          QueuedOk(done + queue, inDegree, s))
  }

  method FirstQueue(g: Graph, inDegree: map<StepId, nat>) returns (queue: seq<StepId>)
    requires g.Valid() && inDegree.Keys == g.defs.Keys
    ensures Distinct(queue)
    ensures forall s :: s in queue <==> s in g.defs && inDegree[s] == 0
  {
    queue := [];
    for k := 0 to |g.order|
      invariant Distinct(queue)
      invariant forall s :: s in queue <==> s in g.order[..k] && s in g.defs && inDegree[s] == 0
    {
      assert g.order[k] in g.defs;
      NextMember(g.order, k);
      assert g.order[k] in Members(g.order[..k]) ==> false;
      assert g.order[..k + 1] == g.order[..k] + [g.order[k]];
      if inDegree[g.order[k]] == 0 {
        queue := queue + [g.order[k]];
      }
    }
    assert g.order[..|g.order|] == g.order;
  }

  lemma FirstInv(g: Graph, queue: seq<StepId>, inDegree: map<StepId, nat>, adjacency: map<StepId, seq<StepId>>)
    requires TablesOf(g, g.defs.Keys, inDegree, adjacency) && Distinct(queue)
    requires forall s :: s in queue <==> s in g.defs && inDegree[s] == 0
    ensures KahnInv(g, [], queue, [], inDegree)
  {
    assert [] + queue == queue;
    forall s | s in g.defs ensures RemainsOk(g, Members([]), [], inDegree, s) {
      assert DegreeOk(g, g.defs.Keys, inDegree, s);
      assert Members([]) == {};
    }
    forall s | s in g.defs ensures QueuedOk([] + queue, inDegree, s) {}
  }

  lemma HeadIsNew(done: seq<StepId>, queue: seq<StepId>)
    requires Distinct(done + queue) && queue != []
    ensures queue[0] !in Members(done) && queue[0] in Members(done + queue)
  {
    var seen := done + queue;
    assert seen[|done|] == queue[0];
    forall i | 0 <= i < |done| ensures done[i] != queue[0] {
      assert seen[i] == done[i];
    }
  }

  /** Taking the head of the queue: its neighbours are now to be told. */
  lemma ShiftInv(g: Graph, done: seq<StepId>, queue: seq<StepId>,
                 inDegree0: map<StepId, nat>, inDegree: map<StepId, nat>, adjacency: map<StepId, seq<StepId>>)
    requires KahnInv(g, done, queue, [], inDegree) && queue != []
    requires TablesOf(g, g.defs.Keys, inDegree0, adjacency)
    ensures queue[0] in g.defs
    ensures KahnInv(g, done + [queue[0]], queue[1..], adjacency[queue[0]], inDegree)
  {
    var x := queue[0];
    var seen := done + queue;
    HeadIsNew(done, queue);
    var done' := done + [x];
    assert done' + queue[1..] == seen;
    assert Members(done') == Members(done) + {x};
    forall s | s in g.defs ensures RemainsOk(g, Members(done'), adjacency[x], inDegree, s) {
      assert RemainsOk(g, Members(done), [], inDegree, s);
      PendingAfter(g, g.defs[s].dependsOn, Members(done), x);
      assert EdgeOk(g, g.defs.Keys, adjacency, x, s);
    }
    forall s | s in g.defs ensures QueuedOk(done' + queue[1..], inDegree, s) {
      assert QueuedOk(done + queue, inDegree, s);
    }
    ShiftTopological(g, done, queue, inDegree);
  }

  lemma ShiftTopological(g: Graph, done: seq<StepId>, queue: seq<StepId>, inDegree: map<StepId, nat>)
    requires KahnInv(g, done, queue, [], inDegree) && queue != []
    ensures Topological(g, done + [queue[0]])
  {
    var x, done' := queue[0], done + [queue[0]];
    assert (done + queue)[|done|] == x;
    assert x in Members(done + queue);
    assert QueuedOk(done + queue, inDegree, x) && RemainsOk(g, Members(done), [], inDegree, x);
    PendingZero(g, g.defs[x].dependsOn, Members(done));
    forall i, d | 0 <= i < |done'| && g.Dep(d, done'[i]) ensures d in done'[..i] {
      if i < |done| {
        assert d in done[..i];
        assert done'[..i] == done[..i];
      } else {
        assert d in Members(done);
        assert done'[..i] == done;
      }
    }
  }

  /** What telling neighbour `n` does to the entry of `s`. */
  lemma ToldOk(g: Graph, done: seq<StepId>, queue: seq<StepId>, queue': seq<StepId>, rest: seq<StepId>,
               inDegree: map<StepId, nat>, n: StepId, s: StepId)
    requires inDegree.Keys == g.defs.Keys && rest != [] && n == rest[0] && n in g.defs && s in g.defs && inDegree[n] > 0
    requires RemainsOk(g, Members(done), rest, inDegree, s) && QueuedOk(done + queue, inDegree, s)
    requires queue' == if inDegree[n] == 1 then queue + [n] else queue
    ensures RemainsOk(g, Members(done), rest[1..], inDegree[n := inDegree[n] - 1], s)
    ensures QueuedOk(done + queue', inDegree[n := inDegree[n] - 1], s)
  {
    assert rest == [n] + rest[1..];
    if inDegree[n] == 1 {
      assert done + queue' == (done + queue) + [n];
    }
  }

  /** Telling one neighbour. */
  lemma TellInv(g: Graph, done: seq<StepId>, queue: seq<StepId>, rest: seq<StepId>, inDegree: map<StepId, nat>)
    requires KahnInv(g, done, queue, rest, inDegree) && rest != [] && rest[0] in g.defs
    ensures inDegree[rest[0]] > 0
    ensures var n := rest[0];
      var degrees := inDegree[n := inDegree[n] - 1];
      KahnInv(g, done, if degrees[n] == 0 then queue + [n] else queue, rest[1..], degrees)
  {
    var n := rest[0];
    assert RemainsOk(g, Members(done), rest, inDegree, n);
    assert QueuedOk(done + queue, inDegree, n);
    var degrees := inDegree[n := inDegree[n] - 1];
    var queue' := if degrees[n] == 0 then queue + [n] else queue;
    forall s | s in g.defs
      ensures RemainsOk(g, Members(done), rest[1..], degrees, s) && QueuedOk(done + queue', degrees, s)
    {
      assert RemainsOk(g, Members(done), rest, inDegree, s) && QueuedOk(done + queue, inDegree, s);
      ToldOk(g, done, queue, queue', rest, inDegree, n, s);
    }
    if degrees[n] == 0 {
      assert done + queue' == (done + queue) + [n];
      assert Members(done + queue') == Members(done + queue) + {n};
    }
  }

  lemma NeighborKnown(g: Graph, inDegree0: map<StepId, nat>, adjacency: map<StepId, seq<StepId>>, d: StepId, n: StepId)
    requires TablesOf(g, g.defs.Keys, inDegree0, adjacency) && d in g.defs && n in adjacency[d]
    ensures n in g.defs
  {
    assert EdgeOk(g, g.defs.Keys, adjacency, d, n);
    assert multiset(adjacency[d])[n] > 0;
  }

  /** Kahn's algorithm. It reports nothing exactly when the known dependencies can be
      ranked; otherwise it names, in order, exactly the steps on or behind a cycle. */
  method DetectCycles(g: Graph) returns (errors: seq<ValidationError>)
    requires g.Valid()
    ensures errors == [] <==> Acyclic(g)
    ensures errors != [] ==> |errors| == 1 && errors[0].Cycle? && Distinct(errors[0].steps)
    ensures errors != [] ==> forall s :: s in errors[0].steps <==> s in g.defs && OnOrBehindCycle(g, s)
  {
    var inDegree, adjacency := BuildTables(g);
    ghost var inDegree0 := inDegree;
    var queue := FirstQueue(g, inDegree);
    FirstInv(g, queue, inDegree, adjacency);
    var visited := 0;
    ghost var done: seq<StepId> := [];
    while |queue| > 0
      invariant KahnInv(g, done, queue, [], inDegree) && visited == |done|
      decreases g.defs.Keys - Members(done)
    {
      var current := queue[0];
      ShiftInv(g, done, queue, inDegree0, inDegree, adjacency);
      ghost var before := g.defs.Keys - Members(done);
      ShiftShrinks(g, done, queue, inDegree);
      queue := queue[1..];
      done := done + [current];
      visited := visited + 1;
      var neighbors := adjacency[current];
      for j := 0 to |neighbors|
        invariant KahnInv(g, done, queue, neighbors[j..], inDegree)
      {
        var neighbor := neighbors[j];
        NeighborKnown(g, inDegree0, adjacency, current, neighbor);
        assert neighbors[j..][0] == neighbor && neighbors[j..][1..] == neighbors[j + 1..];
        TellInv(g, done, queue, neighbors[j..], inDegree);
        var newDegree := inDegree[neighbor] - 1;
        inDegree := inDegree[neighbor := newDegree];
        if newDegree == 0 {
          queue := queue + [neighbor];
        }
      }
      assert neighbors[|neighbors|..] == [];
    }
    VisitedAll(g, done, inDegree);
    if visited < |g.order| {
      var inCycle := StepsWithDegree(g, inDegree);
      LeftoversLoop(g, done, inDegree);
      errors := [Cycle(inCycle)];
    } else {
      errors := [];
    }
  }

  lemma ShiftShrinks(g: Graph, done: seq<StepId>, queue: seq<StepId>, inDegree: map<StepId, nat>)
    requires KahnInv(g, done, queue, [], inDegree) && queue != []
    ensures g.defs.Keys - Members(done + [queue[0]]) < g.defs.Keys - Members(done)
  {
    var x := queue[0];
    HeadIsNew(done, queue);
    assert x in g.defs.Keys - Members(done) && x in Members(done + [x]);
    assert Members(done + [x]) == Members(done) + {x};
  }

  method StepsWithDegree(g: Graph, inDegree: map<StepId, nat>) returns (steps: seq<StepId>)
    requires g.Valid() && inDegree.Keys == g.defs.Keys
    ensures Distinct(steps)
    ensures forall s :: s in steps <==> s in g.defs && inDegree[s] > 0
  {
    steps := [];
    for k := 0 to |g.order|
      invariant Distinct(steps)
      invariant forall s :: s in steps <==> s in g.order[..k] && s in g.defs && inDegree[s] > 0
    {
      assert g.order[k] in g.defs;
      NextMember(g.order, k);
      assert g.order[k] in Members(g.order[..k]) ==> false;
      assert g.order[..k + 1] == g.order[..k] + [g.order[k]];
      if inDegree[g.order[k]] > 0 {
        steps := steps + [g.order[k]];
      }
    }
    assert g.order[..|g.order|] == g.order;
  }

  lemma {:induction false} ProperCard(a: set<StepId>, b: set<StepId>)
    requires a <= b
    ensures |a| <= |b| && (|a| == |b| ==> a == b)
    ensures |a| < |b| ==> exists x :: x in b && x !in a
  {
    if a != {} {
      var x :| x in a;
      ProperCard(a - {x}, b - {x});
      assert a == (a - {x}) + {x} && b == (b - {x}) + {x};
    } else if b != {} {
      var x :| x in b;
    }
  }

  lemma VisitedAll(g: Graph, done: seq<StepId>, inDegree: map<StepId, nat>)
    requires g.Valid() && KahnInv(g, done, [], [], inDegree)
    ensures |done| == |g.order| ==> Acyclic(g)
    ensures |done| <= |g.order|
    ensures |done| < |g.order| ==> exists s :: s in g.defs && inDegree[s] > 0
  {
    assert done + [] == done;
    DistinctCard(done);
    DistinctCard(g.order);
    assert Members(g.order) == g.defs.Keys;
    ProperCard(Members(done), g.defs.Keys);
    if |done| == |g.order| {
      ListingRanks(g, done);
    } else {
      var s :| s in g.defs && s !in Members(done);
      assert QueuedOk(done + [], inDegree, s);
    }
  }

  /** The steps never visited wait for each other, and only such steps do. */
  lemma LeftoversLoop(g: Graph, done: seq<StepId>, inDegree: map<StepId, nat>)
    requires KahnInv(g, done, [], [], inDegree)
    requires exists s :: s in g.defs && inDegree[s] > 0
    ensures forall s :: s in g.defs && inDegree[s] > 0 <==> s in g.defs && OnOrBehindCycle(g, s)
    ensures !Acyclic(g)
  {
    assert done + [] == done;
    var u := set s | s in g.defs && inDegree[s] > 0;
    forall s | s in u ensures LoopsAt(g, u, s) {
      LeftoverWaits(g, done, inDegree, u, s);
    }
    assert Looping(g, u);
    forall s | s in g.defs && OnOrBehindCycle(g, s) ensures inDegree[s] > 0 {
      var w :| s in w && Looping(g, w);
      assert QueuedOk(done + [], inDegree, s);
      if s in done {
        var i :| 0 <= i < |done| && done[i] == s;
        LoopStaysOut(g, done, w, i);
      }
    }
    var x :| x in g.defs && inDegree[x] > 0;
    assert x in u;
    if Acyclic(g) {
      RankedHasNoLoop(g, u);
    }
  }

  lemma LeftoverWaits(g: Graph, done: seq<StepId>, inDegree: map<StepId, nat>, u: set<StepId>, s: StepId)
    requires KahnInv(g, done, [], [], inDegree) && s in g.defs && inDegree[s] > 0
    requires forall x :: x in u <==> x in g.defs && inDegree[x] > 0
    ensures LoopsAt(g, u, s)
  {
    assert done + [] == done;
    assert RemainsOk(g, Members(done), [], inDegree, s);
    PendingZero(g, g.defs[s].dependsOn, Members(done));
    var d :| d in g.defs[s].dependsOn && d in g.defs && d !in Members(done);
    assert QueuedOk(done + [], inDegree, d);
  }

  // ------------------------------------------------------------ declarations

  predicate HasDots(path: string) {
    exists i :: 0 <= i < |path| - 1 && path[i] == '.' && path[i + 1] == '.'
  }

  predicate SafePath(path: string) {
    !HasDots(path) && (path == "" || path[0] != '/')
  }

  /** A path is unsafe exactly when it is absolute or has two dots in a row. */
  lemma SafePathExactly(path: string)
    ensures SafePath(path) <==>
      !(exists rest :: path == "/" + rest) && !(exists before, after :: path == before + ".." + after)
  {
    if path != "" && path[0] == '/' {
      assert path == "/" + path[1..];
    }
    if HasDots(path) {
      var i :| 0 <= i < |path| - 1 && path[i] == '.' && path[i + 1] == '.';
      assert path == path[..i] + ".." + path[i + 2..];
    }
    if before, after :| path == before + ".." + after {
      assert path[|before|] == '.' && path[|before| + 1] == '.';
    }
  }

  ghost predicate NoRepeats(names: seq<string>) {
    forall i, j :: 0 <= i < j < |names| ==> names[i] != names[j]
  }

  function OutputNames(outputs: seq<Output>): seq<string> {
    seq(|outputs|, i requires 0 <= i < |outputs| => outputs[i].name)
  }

  ghost predicate StepSound(g: Graph, s: StepId, own: Declared)
    requires s in g.defs
  {
    var deps := g.defs[s].dependsOn;
    && (forall d :: d in deps ==> d in g.defs)
    && (forall f :: f in own.inputs ==> f in deps)
    && NoRepeats(OutputNames(own.outputs))
    && (forall o :: o in own.outputs ==> SafePath(o.path))
    && (own.hasCheck ==> own.maxIterations.Some? && own.maxIterations.value >= 2)
    && NoRepeats(own.exports)
  }

  /** The names that repeat an earlier one, in the order in which they come. */
  function Repeated(names: seq<string>): seq<string> {
    if names == [] then []
    else
      var front, last := names[..|names| - 1], names[|names| - 1];
      Repeated(front) + if last in front then [last] else []
  }

  /** Every name is repeated once less often than it occurs. */
  lemma {:induction false} RepeatedExactly(names: seq<string>)
    ensures Repeated(names) == [] <==> NoRepeats(names)
    ensures forall x :: x in names ==> multiset(Repeated(names))[x] == multiset(names)[x] - 1
    ensures forall x :: x in Repeated(names) ==> x in names
  {
    if names != [] {
      var front, last := names[..|names| - 1], names[|names| - 1];
      assert names == front + [last];
      RepeatedExactly(front);
      NoRepeatsNext(front, last);
    }
  }

  lemma NoRepeatsNext(front: seq<string>, last: string)
    ensures NoRepeats(front + [last]) <==> NoRepeats(front) && last !in front
  {
    var names := front + [last];
    if last in front {
      var i :| 0 <= i < |front| && front[i] == last;
      assert names[i] == names[|front|];
    }
    if !NoRepeats(front) {
      var i, j :| 0 <= i < j < |front| && front[i] == front[j];
      assert names[i] == names[j];
    }
  }

  function ExportErrors(s: StepId, names: seq<string>): seq<ValidationError> {
    var again := Repeated(names);
    seq(|again|, i requires 0 <= i < |again| => DuplicateExport(s, again[i]))
  }

  method CheckExports(s: StepId, names: seq<string>) returns (errors: seq<ValidationError>)
    ensures errors == ExportErrors(s, names)
    ensures errors == [] <==> NoRepeats(names)
  {
    errors := [];
    var seen: set<string> := {};
    for j := 0 to |names|
      invariant forall x :: x in seen <==> x in names[..j]
      invariant errors == ExportErrors(s, names[..j])
    {
      assert names[..j + 1][..j] == names[..j];
      assert names[..j + 1] == names[..j] + [names[j]];
      if names[j] in seen {
        errors := errors + [DuplicateExport(s, names[j])];
      }
      seen := seen + {names[j]};
    }
    assert names[..|names|] == names;
    RepeatedExactly(names);
  }

  method CheckInputs(s: StepId, deps: seq<StepId>, inputs: seq<StepId>) returns (errors: seq<ValidationError>)
    ensures errors == [] <==> forall f :: f in inputs ==> f in deps
    ensures forall e :: e in errors <==> exists f :: f in inputs && f !in deps && e == InputNotInDeps(s, f)
  {
    errors := [];
    for j := 0 to |inputs|
      invariant errors == [] <==> forall f :: f in inputs[..j] ==> f in deps
      invariant forall e :: e in errors <==> exists f :: f in inputs[..j] && f !in deps && e == InputNotInDeps(s, f)
    {
      assert inputs[..j + 1] == inputs[..j] + [inputs[j]];
      if inputs[j] !in deps {
        errors := errors + [InputNotInDeps(s, inputs[j])];
      }
    }
    assert inputs[..|inputs|] == inputs;
  }

  /** A name that repeats an earlier one and an unsafe path are reported side by side. */
  function OutputErrors(s: StepId, outputs: seq<Output>): seq<ValidationError> {
    if outputs == [] then []
    else
      var front, last := outputs[..|outputs| - 1], outputs[|outputs| - 1];
      OutputErrors(s, front)
      + (if last.name in OutputNames(front) then [DuplicateOutput(s, last.name)] else [])
      + (if SafePath(last.path) then [] else [UnsafePath(s, last)])
  }

  lemma {:induction false} OutputErrorsExactly(s: StepId, outputs: seq<Output>)
    ensures OutputErrors(s, outputs) == [] <==>
            NoRepeats(OutputNames(outputs)) && forall o :: o in outputs ==> SafePath(o.path)
    ensures forall o :: UnsafePath(s, o) in OutputErrors(s, outputs) <==> o in outputs && !SafePath(o.path)
    ensures forall x :: DuplicateOutput(s, x) in OutputErrors(s, outputs) <==> x in Repeated(OutputNames(outputs))
  {
    if outputs != [] {
      var front, last := outputs[..|outputs| - 1], outputs[|outputs| - 1];
      assert outputs == front + [last];
      NamesNext(front, last);
      OutputErrorsExactly(s, front);
      NoRepeatsNext(OutputNames(front), last.name);
    }
  }

  lemma NamesNext(front: seq<Output>, last: Output)
    ensures OutputNames(front + [last]) == OutputNames(front) + [last.name]
    ensures Repeated(OutputNames(front + [last])) ==
            Repeated(OutputNames(front)) + if last.name in OutputNames(front) then [last.name] else []
  {
    var names := OutputNames(front + [last]);
    assert names == OutputNames(front) + [last.name];
    assert names[..|names| - 1] == OutputNames(front);
  }

  method CheckOutputs(s: StepId, outputs: seq<Output>) returns (errors: seq<ValidationError>)
    ensures errors == OutputErrors(s, outputs)
    ensures errors == [] <==> NoRepeats(OutputNames(outputs)) && forall o :: o in outputs ==> SafePath(o.path)
  {
    errors := [];
    var seen: set<string> := {};
    for j := 0 to |outputs|
      invariant forall x :: x in seen <==> x in OutputNames(outputs[..j])
      invariant errors == OutputErrors(s, outputs[..j])
    {
      var o := outputs[j];
      assert outputs[..j + 1][..j] == outputs[..j];
      assert outputs[..j + 1] == outputs[..j] + [o];
      NamesNext(outputs[..j], o);
      if o.name in seen {
        errors := errors + [DuplicateOutput(s, o.name)];
      }
      seen := seen + {o.name};
      if !SafePath(o.path) {
        errors := errors + [UnsafePath(s, o)];
      }
    }
    assert outputs[..|outputs|] == outputs;
    OutputErrorsExactly(s, outputs);
  }

  /** All checks of one step. */
  method CheckStep(g: Graph, s: StepId, own: Declared) returns (errors: seq<ValidationError>)
    requires s in g.defs
    ensures errors == [] <==> StepSound(g, s, own)
  {
    var deps := g.defs[s].dependsOn;
    errors := UnknownDeps(g, s, deps);
    var inputErrors := CheckInputs(s, deps, own.inputs);
    var outputErrors := CheckOutputs(s, own.outputs);
    errors := errors + inputErrors + outputErrors;
    if own.hasCheck && (own.maxIterations.None? || own.maxIterations.value < 2) {
      errors := errors + [FewIterations(s)];
    }
    var exportErrors := CheckExports(s, own.exports);
    errors := errors + exportErrors;
  }

  /** An empty result, which is what lets a run start, means that every step is sound and
      the graph acyclic. */
  method ValidateDag(g: Graph, declared: map<StepId, Declared>) returns (errors: seq<ValidationError>)
    requires g.Valid() && declared.Keys == g.defs.Keys
    ensures errors == [] <==> Acyclic(g) && forall s :: s in g.defs ==> StepSound(g, s, declared[s])
  {
    errors := [];
    for k := 0 to |g.order|
      invariant errors == [] <==>
        forall s :: s in g.order[..k] && s in g.defs ==> StepSound(g, s, declared[s])
    {
      var s := g.order[k];
      assert s in g.defs;
      assert g.order[..k + 1] == g.order[..k] + [s];
      var found := CheckStep(g, s, declared[s]);
      errors := errors + found;
    }
    assert g.order[..|g.order|] == g.order;
    var cycleErrors := DetectCycles(g);
    errors := errors + cycleErrors;
  }

  /** One error for each occurrence of an unknown dependency. */
  method UnknownDeps(g: Graph, s: StepId, deps: seq<StepId>) returns (errors: seq<ValidationError>)
    ensures errors == [] <==> forall d :: d in deps ==> d in g.defs
    ensures forall e :: e in errors <==> exists d :: d in deps && d !in g.defs && e == UnknownDependency(s, d)
    ensures forall d :: multiset(errors)[UnknownDependency(s, d)] == if d in g.defs then 0 else multiset(deps)[d]
  {
    errors := [];
    for j := 0 to |deps|
      invariant errors == [] <==> forall d :: d in deps[..j] ==> d in g.defs
      invariant forall e :: e in errors <==> exists d :: d in deps[..j] && d !in g.defs && e == UnknownDependency(s, d)
      invariant forall d :: multiset(errors)[UnknownDependency(s, d)] ==
                            if d in g.defs then 0 else multiset(deps[..j])[d]
    {
      assert deps[..j + 1] == deps[..j] + [deps[j]];
      if deps[j] !in g.defs {
        errors := errors + [UnknownDependency(s, deps[j])];
      }
    }
    assert deps[..|deps|] == deps;
  }
}
