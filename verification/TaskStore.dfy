/** The agent task store: one file per task, moved between five directories. Every
    operation is one step here; the race inside `claimTask` is in module ClaimRace. */
module TaskStore {
  import opened Wrappers

  /** Ids are only compared, so numbers stand for them; zero stands for the empty
      string, which the code treats like a missing value. */
  type TaskId = nat
  type MemberId = nat

  datatype Status = PENDING | IN_PROGRESS | COMPLETED | BLOCKED | SUPERSEDED

  /** `dir` is where the file lies, `status` what its JSON says. */
  datatype Task = Task(
    dir: Status, status: Status, dependsOn: seq<TaskId>,
    assignedTo: Option<MemberId>, claimedBy: Option<MemberId>, replacement: Option<TaskId>)

  type Tasks = map<TaskId, Task>

  predicate Truthy(o: Option<nat>) {
    o.Some? && o.value != 0
  }

  predicate IsTaskClaimableBy(t: Task, member: MemberId) {
    if Truthy(t.claimedBy) then t.claimedBy == Some(member)
    else t.assignedTo == None || t.assignedTo == Some(member)
  }

  // ------------------------------------------------------------- dependencies

  /** The recursion of the code, over the set of ids being visited. */
  predicate IsDependencyResolved(s: Tasks, id: TaskId, visiting: set<TaskId>)
    decreases s.Keys - visiting
  {
    if id !in s then false
    else if s[id].status == COMPLETED then true
    else if s[id].status != SUPERSEDED then false
    else if !Truthy(s[id].replacement) then true
    else if id in visiting then false
    else IsDependencyResolved(s, s[id].replacement.value, visiting + {id})
  }

  predicate Resolved(s: Tasks, id: TaskId) {
    IsDependencyResolved(s, id, {})
  }

  /** After `n` replacements the chain from `id` is at a completed task or at a
      superseded one that was not replaced. */
  predicate ChainEnds(s: Tasks, id: TaskId, n: nat)
    decreases n
  {
    && id in s
    && if n == 0 then s[id].status == COMPLETED || (s[id].status == SUPERSEDED && !Truthy(s[id].replacement))
       else s[id].status == SUPERSEDED && Truthy(s[id].replacement) && ChainEnds(s, s[id].replacement.value, n - 1)
  }

  /** The replacement chain from `id` gets to a completed or dropped task. */
  ghost predicate EndsWell(s: Tasks, id: TaskId) {
    exists n: nat :: ChainEnds(s, id, n)
  }

  lemma {:induction false} ChainLengthUnique(s: Tasks, id: TaskId, n: nat, m: nat)
    requires ChainEnds(s, id, n) && ChainEnds(s, id, m)
    ensures n == m
    decreases n
  {
    if n > 0 && m > 0 {
      ChainLengthUnique(s, s[id].replacement.value, n - 1, m - 1);
    }
  }

  lemma {:induction false} ResolvedHasChain(s: Tasks, id: TaskId, visiting: set<TaskId>)
    requires IsDependencyResolved(s, id, visiting)
    ensures EndsWell(s, id)
    decreases s.Keys - visiting
  {
    if s[id].status == COMPLETED || !Truthy(s[id].replacement) {
      assert ChainEnds(s, id, 0);
    } else {
      var next := s[id].replacement.value;
      ResolvedHasChain(s, next, visiting + {id});
      var n: nat :| ChainEnds(s, next, n);
      assert ChainEnds(s, id, n + 1);
    }
  }

  lemma {:induction false} ChainResolves(s: Tasks, id: TaskId, n: nat, visiting: set<TaskId>)
    requires ChainEnds(s, id, n)
    requires forall v, m: nat :: v in visiting && m <= n ==> !ChainEnds(s, v, m)
    ensures IsDependencyResolved(s, id, visiting)
    decreases n
  {
    if n > 0 {
      forall v, m: nat | v in visiting + {id} && m <= n - 1 ensures !ChainEnds(s, v, m) {
        if v == id && ChainEnds(s, v, m) {
          ChainLengthUnique(s, id, n, m);
        }
      }
      ChainResolves(s, s[id].replacement.value, n - 1, visiting + {id});
    }
  }

  /** A dependency counts as resolved exactly when its replacement chain ends well;
      on a cyclic chain the recursion ends and says no. */
  lemma ResolvedIffChain(s: Tasks, id: TaskId)
    ensures Resolved(s, id) <==> EndsWell(s, id)
  {
    if Resolved(s, id) {
      ResolvedHasChain(s, id, {});
    }
    if n: nat :| ChainEnds(s, id, n) {
      ChainResolves(s, id, n, {});
    }
  }

  predicate AreTaskDependenciesSatisfied(s: Tasks, t: Task) {
    forall d :: d in t.dependsOn ==> Resolved(s, d)
  }

  // ---------------------------------------------------------------- operations

  datatype Outcome =
    | Ok
    | NotFound | NotClaimable | UnmetDependencies | TooLarge | NotOwner | BadArtifact

  datatype Op =
    | Add(id: TaskId, dependsOn: seq<TaskId>, assignedTo: Option<MemberId>, fits: bool)
    | Claim(id: TaskId, member: MemberId, fits: bool)
    | Complete(id: TaskId, member: MemberId, artifactsOk: bool, fits: bool)
    | Supersede(id: TaskId, replacement: Option<TaskId>, fits: bool)
    | Housekeep(stale: set<TaskId>)
    | Poll                         // `hasActionableTaskForMember`: unblocks, then only reads

  /** Ids given to new tasks are fresh. */
  predicate Allowed(s: Tasks, op: Op) {
    op.Add? ==> op.id !in s
  }

  function Requeued(t: Task): Task {
    t.(dir := PENDING, status := PENDING, claimedBy := None)
  }

  function Unblocked(s: Tasks): Tasks {
    map id | id in s ::
      if s[id].dir == BLOCKED && AreTaskDependenciesSatisfied(s, s[id]) then Requeued(s[id]) else s[id]
  }

  function AfterClaim(s: Tasks, id: TaskId, member: MemberId, fits: bool): (Tasks, Outcome) {
    if id !in s || s[id].dir != PENDING then (s, NotFound)
    else if !IsTaskClaimableBy(s[id], member) then (s, NotClaimable)
    else if !AreTaskDependenciesSatisfied(s, s[id]) then
      (s[id := s[id].(dir := BLOCKED, status := BLOCKED)], UnmetDependencies)
    else if !fits then (s, TooLarge)
    else (s[id := s[id].(dir := IN_PROGRESS, status := IN_PROGRESS, claimedBy := Some(member))], Ok)
  }

  function AfterComplete(s: Tasks, id: TaskId, member: MemberId, artifactsOk: bool, fits: bool): (Tasks, Outcome) {
    if id !in s || s[id].dir != IN_PROGRESS then (s, NotFound)
    else if Truthy(s[id].claimedBy) && s[id].claimedBy != Some(member) then (s, NotOwner)
    else if !artifactsOk then (s[id := s[id].(dir := COMPLETED)], BadArtifact)
    else if !fits then (s, TooLarge)
    else (Unblocked(s[id := s[id].(dir := COMPLETED, status := COMPLETED)]), Ok)
  }

  predicate Open(dir: Status) {
    dir == PENDING || dir == IN_PROGRESS || dir == BLOCKED
  }

  function AfterSupersede(s: Tasks, id: TaskId, replacement: Option<TaskId>, fits: bool): (Tasks, Outcome) {
    if id !in s || !Open(s[id].dir) then (s, NotFound)
    else if !fits then (s, TooLarge)
    else (Unblocked(s[id := s[id].(dir := SUPERSEDED, status := SUPERSEDED, replacement := replacement)]), Ok)
  }

  function AfterHousekeep(s: Tasks, stale: set<TaskId>): Tasks {
    map id | id in s :: if s[id].dir == IN_PROGRESS && id in stale then Requeued(s[id]) else s[id]
  }

  function Apply(s: Tasks, op: Op): Tasks {
    match op
    case Add(id, dependsOn, assignedTo, fits) =>
      if fits then s[id := Task(PENDING, PENDING, dependsOn, assignedTo, None, None)] else s
    case Claim(id, member, fits) => AfterClaim(s, id, member, fits).0
    case Complete(id, member, artifactsOk, fits) => AfterComplete(s, id, member, artifactsOk, fits).0
    case Supersede(id, replacement, fits) => AfterSupersede(s, id, replacement, fits).0
    case Housekeep(stale) => AfterHousekeep(s, stale)
    case Poll => Unblocked(s)
  }

  function Run(s: Tasks, ops: seq<Op>): Tasks
    decreases |ops|
  {
    if ops == [] then s else Run(Apply(s, ops[0]), ops[1..])
  }

  predicate RunAllowed(s: Tasks, ops: seq<Op>)
    decreases |ops|
  {
    ops != [] ==> Allowed(s, ops[0]) && RunAllowed(Apply(s, ops[0]), ops[1..])
  }

  // --------------------------------------------------- how one step changes a task

  /** The moves one operation can make with one task. */
  predicate Moves(before: Task, after: Task) {
    || after == before
    || (before.dir == PENDING && after == before.(dir := BLOCKED, status := BLOCKED))
    || (before.dir == PENDING && after.claimedBy.Some? && IsTaskClaimableBy(before, after.claimedBy.value) &&
        after == before.(dir := IN_PROGRESS, status := IN_PROGRESS, claimedBy := after.claimedBy))
    || ((before.dir == IN_PROGRESS || before.dir == BLOCKED) && after == Requeued(before))
    || (before.dir == IN_PROGRESS && after == before.(dir := COMPLETED, status := COMPLETED))
    || (before.dir == IN_PROGRESS && after == before.(dir := COMPLETED))
    || (Open(before.dir) && after == before.(dir := SUPERSEDED, status := SUPERSEDED, replacement := after.replacement))
  }

  predicate Closed(t: Task) {
    t.status == COMPLETED || t.status == SUPERSEDED
  }

  predicate Shaped(t: Task) {
    && (t.dir == t.status || (t.dir == COMPLETED && t.status == IN_PROGRESS))
    && (t.status == PENDING || t.status == BLOCKED ==> t.claimedBy == None)
    && (t.dir == IN_PROGRESS || t.dir == COMPLETED ==>
          t.claimedBy.Some? && (t.assignedTo == None || t.assignedTo == t.claimedBy))
  }

  lemma StepMoves(s: Tasks, op: Op, id: TaskId)
    requires Allowed(s, op) && id in s
    ensures id in Apply(s, op) && Moves(s[id], Apply(s, op)[id])
  {
  }

  lemma StepKeepsShape(s: Tasks, op: Op, id: TaskId)
    requires Allowed(s, op) && id in Apply(s, op)
    requires id in s ==> Shaped(s[id])
    ensures Shaped(Apply(s, op)[id])
    ensures id in s && Closed(s[id]) ==> Apply(s, op)[id] == s[id]
  {
    if id in s {
      StepMoves(s, op, id);
    }
  }

  ghost predicate AllShaped(s: Tasks) {
    forall id {:trigger Shaped(s[id])} :: id in s ==> Shaped(s[id])
  }

  predicate ClosedStays(s: Tasks, s': Tasks, x: TaskId) {
    x in s && Closed(s[x]) ==> x in s' && s'[x] == s[x]
  }

  ghost predicate KeepsClosed(s: Tasks, s': Tasks) {
    forall x {:trigger ClosedStays(s, s', x)} :: x in s ==> ClosedStays(s, s', x)
  }

  lemma {:induction false} ChainCarries(s: Tasks, s': Tasks, id: TaskId, n: nat)
    requires KeepsClosed(s, s')
    requires ChainEnds(s, id, n)
    ensures ChainEnds(s', id, n)
    decreases n
  {
    assert ClosedStays(s, s', id);
    if n > 0 {
      ChainCarries(s, s', s[id].replacement.value, n - 1);
    }
  }

  lemma ResolvedCarries(s: Tasks, s': Tasks, id: TaskId)
    requires KeepsClosed(s, s') && Resolved(s, id)
    ensures Resolved(s', id)
  {
    ResolvedIffChain(s, id);
    var n: nat :| ChainEnds(s, id, n);
    ChainCarries(s, s', id, n);
    ResolvedIffChain(s', id);
  }

  lemma StepKeepsClosed(s: Tasks, op: Op)
    requires Allowed(s, op) && AllShaped(s)
    ensures KeepsClosed(s, Apply(s, op))
  {
    var s' := Apply(s, op);
    forall x | x in s ensures ClosedStays(s, s', x) {
      assert Shaped(s[x]);
      StepMoves(s, op, x);
    }
  }

  /** Resolution never goes back. */
  lemma ResolutionIsMonotone(s: Tasks, op: Op, id: TaskId)
    requires Allowed(s, op) && AllShaped(s) && Resolved(s, id)
    ensures Resolved(Apply(s, op), id)
  {
    StepKeepsClosed(s, op);
    ResolvedCarries(s, Apply(s, op), id);
  }

  // -------------------------------------------------------------- the invariant

  /** A blocked task waits for something. */
  ghost predicate BlockedWaits(s: Tasks, id: TaskId)
    requires id in s
  {
    s[id].dir == BLOCKED ==> !AreTaskDependenciesSatisfied(s, s[id])
  }

  /** A started or finished task has all its dependencies resolved. */
  ghost predicate StartedClosed(s: Tasks, id: TaskId)
    requires id in s
  {
    (s[id].status == IN_PROGRESS || s[id].status == COMPLETED || s[id].dir == IN_PROGRESS || s[id].dir == COMPLETED) ==>
      AreTaskDependenciesSatisfied(s, s[id])
  }

  ghost predicate Inv(s: Tasks) {
    && AllShaped(s)
    && (forall id {:trigger BlockedWaits(s, id)} :: id in s ==> BlockedWaits(s, id))
    && (forall id {:trigger StartedClosed(s, id)} :: id in s ==> StartedClosed(s, id))
  }

  lemma SatisfiedCarries(s: Tasks, s': Tasks, t: Task)
    requires KeepsClosed(s, s') && AreTaskDependenciesSatisfied(s, t)
    ensures AreTaskDependenciesSatisfied(s', t)
  {
    forall d | d in t.dependsOn ensures Resolved(s', d) {
      ResolvedCarries(s, s', d);
    }
  }

  lemma UnblockedKeepsClosed(s: Tasks)
    requires AllShaped(s)
    ensures KeepsClosed(s, Unblocked(s)) && KeepsClosed(Unblocked(s), s)
  {
    var s' := Unblocked(s);
    forall x | x in s ensures ClosedStays(s, s', x) && ClosedStays(s', s, x) {
      assert Shaped(s[x]);
    }
  }

  /** After unblocking no blocked task is left without a reason. */
  lemma UnblockedWaits(s: Tasks, id: TaskId)
    requires AllShaped(s) && id in s
    ensures id in Unblocked(s) && BlockedWaits(Unblocked(s), id)
  {
    if Unblocked(s)[id].dir == BLOCKED && AreTaskDependenciesSatisfied(Unblocked(s), s[id]) {
      UnblockedKeepsClosed(s);
      SatisfiedCarries(Unblocked(s), s, s[id]);
    }
  }

  lemma StepKeepsStarted(s: Tasks, op: Op, id: TaskId)
    requires Allowed(s, op) && Inv(s) && id in Apply(s, op)
    ensures StartedClosed(Apply(s, op), id)
  {
    var s' := Apply(s, op);
    StepKeepsClosed(s, op);
    if id in s {
      StepMoves(s, op, id);
      assert Shaped(s[id]) && StartedClosed(s, id);
      if AreTaskDependenciesSatisfied(s, s[id]) {
        SatisfiedCarries(s, s', s[id]);
      }
    }
  }

  /** Operations that close no task leave every dependency as it was. */
  lemma StepKeepsBlocked(s: Tasks, op: Op, id: TaskId)
    requires Allowed(s, op) && Inv(s) && id in Apply(s, op)
    requires op.Add? || op.Claim? || op.Housekeep?
    ensures BlockedWaits(Apply(s, op), id)
  {
    var s' := Apply(s, op);
    if s'[id].dir == BLOCKED && AreTaskDependenciesSatisfied(s', s'[id]) {
      forall x | x in s' ensures ClosedStays(s', s, x) {
        if x in s {
          StepMoves(s, op, x);
        }
      }
      SatisfiedCarries(s', s, s'[id]);
      assert id in s && BlockedWaits(s, id);
    }
  }

  lemma ClosingKeepsBlocked(s: Tasks, op: Op, id: TaskId)
    requires Allowed(s, op) && Inv(s) && id in Apply(s, op)
    requires op.Complete? || op.Supersede? || op.Poll?
    ensures BlockedWaits(Apply(s, op), id)
  {
    if op.Poll? {
      UnblockedWaits(s, id);
    } else if Apply(s, op) == s {
      assert BlockedWaits(s, id);
    } else if op.Complete? {
      var done := s[op.id := s[op.id].(dir := COMPLETED, status := COMPLETED)];
      var stray := s[op.id := s[op.id].(dir := COMPLETED)];
      assert Shaped(s[op.id]);
      forall x | x in s ensures Shaped(done[x]) && Shaped(stray[x]) {
        assert Shaped(s[x]);
      }
      if op.artifactsOk {
        UnblockedWaits(done, id);
      } else {
        StrayKeepsBlocked(s, op.id, id);
      }
    } else {
      var gone := s[op.id := s[op.id].(dir := SUPERSEDED, status := SUPERSEDED, replacement := op.replacement)];
      forall x | x in s ensures Shaped(gone[x]) {
        assert Shaped(s[x]);
      }
      UnblockedWaits(gone, id);
    }
  }

  lemma StrayKeepsBlocked(s: Tasks, stray: TaskId, id: TaskId)
    requires Inv(s) && stray in s && id in s && s[stray].dir == IN_PROGRESS
    ensures BlockedWaits(s[stray := s[stray].(dir := COMPLETED)], id)
  {
    var s' := s[stray := s[stray].(dir := COMPLETED)];
    assert Shaped(s[stray]) && BlockedWaits(s, id);
    if s'[id].dir == BLOCKED && AreTaskDependenciesSatisfied(s', s'[id]) {
      forall x | x in s' ensures ClosedStays(s', s, x) {}
      SatisfiedCarries(s', s, s'[id]);
    }
  }

  /** Every operation keeps the invariant. */
  lemma StepKeepsInv(s: Tasks, op: Op)
    requires Allowed(s, op) && Inv(s)
    ensures Inv(Apply(s, op))
  {
    var s' := Apply(s, op);
    forall id | id in s' ensures Shaped(s'[id]) {
      if id in s {
        assert Shaped(s[id]);
      }
      StepKeepsShape(s, op, id);
    }
    forall id | id in s' ensures StartedClosed(s', id) {
      StepKeepsStarted(s, op, id);
    }
    forall id | id in s' ensures BlockedWaits(s', id) {
      if op.Add? || op.Claim? || op.Housekeep? {
        StepKeepsBlocked(s, op, id);
      } else {
        ClosingKeepsBlocked(s, op, id);
      }
    }
  }

  /** Over every run from the empty store: no blocked task is stranded, and every
      started or completed task has all its dependencies resolved. */
  lemma {:induction false} RunKeepsInv(s: Tasks, ops: seq<Op>)
    requires Inv(s) && RunAllowed(s, ops)
    ensures Inv(Run(s, ops))
    decreases |ops|
  {
    if ops != [] {
      StepKeepsInv(s, ops[0]);
      RunKeepsInv(Apply(s, ops[0]), ops[1..]);
    }
  }

  // ------------------------------------------- what a task was added with

  predicate Adds(ops: seq<Op>, i: nat, id: TaskId, dependsOn: seq<TaskId>, assignedTo: Option<MemberId>) {
    i < |ops| && ops[i] == Add(id, dependsOn, assignedTo, true)
  }

  /** A task keeps its dependencies and its assignee for ever. */
  lemma {:induction false} TermsStay(s: Tasks, ops: seq<Op>, id: TaskId)
    requires RunAllowed(s, ops) && id in s
    ensures id in Run(s, ops)
    ensures Run(s, ops)[id].dependsOn == s[id].dependsOn && Run(s, ops)[id].assignedTo == s[id].assignedTo
    decreases |ops|
  {
    if ops != [] {
      StepMoves(s, ops[0], id);
      TermsStay(Apply(s, ops[0]), ops[1..], id);
    }
  }

  /** Once added, a task is in the store with the dependencies and the assignee it was
      added with, after every run that follows. */
  lemma {:induction false} AddedStays(s: Tasks, ops: seq<Op>, i: nat, id: TaskId, dependsOn: seq<TaskId>,
                                      assignedTo: Option<MemberId>)
    requires RunAllowed(s, ops) && Adds(ops, i, id, dependsOn, assignedTo)
    ensures id in Run(s, ops)
    ensures Run(s, ops)[id].dependsOn == dependsOn && Run(s, ops)[id].assignedTo == assignedTo
    decreases |ops|
  {
    if i == 0 {
      TermsStay(Apply(s, ops[0]), ops[1..], id);
    } else {
      assert ops[1..][i - 1] == ops[i];
      AddedStays(Apply(s, ops[0]), ops[1..], i - 1, id, dependsOn, assignedTo);
    }
  }

  lemma StepAddsOnly(s: Tasks, op: Op, id: TaskId)
    requires id in Apply(s, op) && id !in s
    ensures op.Add? && op.id == id && op.fits
  {
  }

  /** Every task of the store was added, with the terms it has now. */
  lemma {:induction false} EveryTaskWasAdded(s: Tasks, ops: seq<Op>, id: TaskId) returns (i: nat)
    requires RunAllowed(s, ops) && id !in s && id in Run(s, ops)
    ensures Adds(ops, i, id, Run(s, ops)[id].dependsOn, Run(s, ops)[id].assignedTo)
    decreases |ops|
  {
    if id in Apply(s, ops[0]) {
      StepAddsOnly(s, ops[0], id);
      i := 0;
      AddedStays(s, ops, 0, id, ops[0].dependsOn, ops[0].assignedTo);
    } else {
      i := EveryTaskWasAdded(Apply(s, ops[0]), ops[1..], id);
      i := i + 1;
    }
  }

  /** No blocked task is stranded: one of the dependencies it was added with is not
      resolved yet. */
  lemma NoStrandedTask(ops: seq<Op>, i: nat, id: TaskId, dependsOn: seq<TaskId>, assignedTo: Option<MemberId>)
    requires RunAllowed(map[], ops) && Adds(ops, i, id, dependsOn, assignedTo)
    ensures id in Run(map[], ops)
    ensures Run(map[], ops)[id].dir == BLOCKED ==> exists d :: d in dependsOn && !EndsWell(Run(map[], ops), d)
  {
    RunKeepsInv(map[], ops);
    AddedStays(map[], ops, i, id, dependsOn, assignedTo);
    var s := Run(map[], ops);
    assert BlockedWaits(s, id);
    if s[id].dir == BLOCKED {
      var d :| d in dependsOn && !Resolved(s, d);
      ResolvedIffChain(s, d);
    }
  }

  /** Whoever started or completed a task, all the dependencies it was added with are
      resolved. */
  lemma DependenciesAreClosed(ops: seq<Op>, i: nat, id: TaskId, dependsOn: seq<TaskId>, assignedTo: Option<MemberId>,
                              d: TaskId)
    requires RunAllowed(map[], ops) && Adds(ops, i, id, dependsOn, assignedTo) && d in dependsOn
    ensures id in Run(map[], ops)
    ensures var s := Run(map[], ops);
      s[id].status == IN_PROGRESS || s[id].status == COMPLETED ==> EndsWell(s, d)
  {
    RunKeepsInv(map[], ops);
    AddedStays(map[], ops, i, id, dependsOn, assignedTo);
    var s := Run(map[], ops);
    assert StartedClosed(s, id);
    ResolvedIffChain(s, d);
  }

  /** In every reachable state a started or completed task is in the hands of one member,
      and of the assignee it was added with, if any. */
  lemma AssigneeWorks(ops: seq<Op>, i: nat, id: TaskId, dependsOn: seq<TaskId>, assignedTo: Option<MemberId>)
    requires RunAllowed(map[], ops) && Adds(ops, i, id, dependsOn, assignedTo)
    ensures id in Run(map[], ops)
    ensures var t := Run(map[], ops)[id];
      t.dir == IN_PROGRESS || t.dir == COMPLETED ==>
        t.claimedBy.Some? && (assignedTo == None || assignedTo == t.claimedBy)
  {
    RunKeepsInv(map[], ops);
    AddedStays(map[], ops, i, id, dependsOn, assignedTo);
    assert Shaped(Run(map[], ops)[id]);
  }

  // ------------------------------------------------------- who can do what

  lemma SatisfiedExactly(s: Tasks, t: Task)
    ensures AreTaskDependenciesSatisfied(s, t) <==> forall d :: d in t.dependsOn ==> EndsWell(s, d)
  {
    forall d ensures Resolved(s, d) <==> EndsWell(s, d) {
      ResolvedIffChain(s, d);
    }
  }

  /** A task that waits can be claimed by its assignee, or by anyone if it has none, once
      its dependencies are resolved: only then does it change hands. One whose
      dependencies are not gets blocked; any other claim changes nothing. */
  lemma ClaimExactly(s: Tasks, id: TaskId, member: MemberId, fits: bool)
    requires AllShaped(s)
    ensures var (s', outcome) := AfterClaim(s, id, member, fits);
      var open := id in s && s[id].dir == PENDING && (s[id].assignedTo == None || s[id].assignedTo == Some(member));
      var ready := open && forall d :: d in s[id].dependsOn ==> EndsWell(s, d);
      && (outcome == Ok <==> ready && fits)
      && (outcome == UnmetDependencies <==> open && !ready)
      && (outcome == NotFound <==> id !in s || s[id].dir != PENDING)
      && (outcome == TooLarge <==> ready && !fits)
      && s'.Keys == s.Keys
      && (forall x :: x in s && (x != id || (outcome != Ok && outcome != UnmetDependencies)) ==> s'[x] == s[x])
      && (outcome == Ok ==> s'[id].dir == s'[id].status == IN_PROGRESS && s'[id].claimedBy == Some(member))
      && (outcome == UnmetDependencies ==> s'[id].dir == s'[id].status == BLOCKED && s'[id].claimedBy == None)
  {
    if id in s {
      assert Shaped(s[id]);
      SatisfiedExactly(s, s[id]);
    }
  }

  /** What closing a task does to the others: exactly the blocked ones whose dependencies
      are now resolved become claimable, and nothing else moves. */
  lemma UnblockedExactly(s: Tasks, x: TaskId)
    requires x in s
    ensures x in Unblocked(s)
    ensures var free := s[x].dir == BLOCKED && forall d :: d in s[x].dependsOn ==> EndsWell(s, d);
      && (!free ==> Unblocked(s)[x] == s[x])
      && (free ==> Unblocked(s)[x].dir == Unblocked(s)[x].status == PENDING && Unblocked(s)[x].claimedBy == None)
  {
    SatisfiedExactly(s, s[x]);
  }

  /** A task in progress is completed by the member who claimed it and by no other (a claim
      under the empty name keeps no one out); anything else leaves the store as it is, but
      for a bad artifact path. */
  lemma CompleteExactly(s: Tasks, id: TaskId, member: MemberId, artifactsOk: bool, fits: bool)
    requires AllShaped(s)
    ensures var (s', outcome) := AfterComplete(s, id, member, artifactsOk, fits);
      var mine := id in s && s[id].dir == IN_PROGRESS &&
                  (s[id].claimedBy == Some(member) || s[id].claimedBy == Some(0));
      && (outcome == Ok <==> mine && artifactsOk && fits)
      && (outcome == BadArtifact <==> mine && !artifactsOk)
      && (outcome == TooLarge <==> mine && artifactsOk && !fits)
      && (outcome == NotFound <==> id !in s || s[id].dir != IN_PROGRESS)
      && (outcome == Ok ==> id in s' && s'[id].dir == s'[id].status == COMPLETED && s'[id].claimedBy == s[id].claimedBy)
      && (outcome != Ok && outcome != BadArtifact ==> s' == s)
  {
    if id in s {
      assert Shaped(s[id]);
    }
  }

  /** An open task, and no other, can be superseded; it then names its replacement, and what
      depends on it is resolved when the replacement is. */
  lemma SupersedeExactly(s: Tasks, id: TaskId, replacement: Option<TaskId>, fits: bool)
    requires AllShaped(s)
    ensures var (s', outcome) := AfterSupersede(s, id, replacement, fits);
      && (outcome == NotFound <==> id !in s || s[id].dir == COMPLETED || s[id].dir == SUPERSEDED)
      && (outcome == Ok <==> outcome != NotFound && fits)
      && (outcome == TooLarge <==> outcome != NotFound && !fits)
      && (outcome != Ok ==> s' == s)
      && (outcome == Ok ==>
            && id in s' && s'[id].dir == s'[id].status == SUPERSEDED && s'[id].replacement == replacement
            && (EndsWell(s', id) <==> replacement == None || replacement == Some(0) || EndsWell(s', replacement.value)))
  {
    var (s', outcome) := AfterSupersede(s, id, replacement, fits);
    if outcome == Ok && Truthy(replacement) {
      if n: nat :| ChainEnds(s', replacement.value, n) {
        assert ChainEnds(s', id, n + 1);
      }
      if n: nat :| ChainEnds(s', id, n) {
        assert ChainEnds(s', replacement.value, n - 1);
      }
    } else if outcome == Ok {
      assert ChainEnds(s', id, 0);
    }
  }

  /** A task keeps the replacement it was superseded by for ever. */
  lemma {:induction false} SupersededStays(s: Tasks, ops: seq<Op>, id: TaskId)
    requires RunAllowed(s, ops) && AllShaped(s) && id in s && s[id].status == SUPERSEDED
    ensures id in Run(s, ops) && Run(s, ops)[id] == s[id]
    decreases |ops|
  {
    if ops != [] {
      assert Shaped(s[id]);
      StepMoves(s, ops[0], id);
      StepKeepsAllShaped(s, ops[0]);
      SupersededStays(Apply(s, ops[0]), ops[1..], id);
    }
  }

  lemma StepKeepsAllShaped(s: Tasks, op: Op)
    requires Allowed(s, op) && AllShaped(s)
    ensures AllShaped(Apply(s, op))
  {
    forall id | id in Apply(s, op) ensures Shaped(Apply(s, op)[id]) {
      if id in s {
        assert Shaped(s[id]);
      }
      StepKeepsShape(s, op, id);
    }
  }

  /** Housekeeping takes exactly the stale tasks in progress off their members. */
  lemma HousekeepExactly(s: Tasks, stale: set<TaskId>, x: TaskId)
    requires x in s
    ensures x in AfterHousekeep(s, stale)
    ensures var t := AfterHousekeep(s, stale)[x];
      if x in stale && s[x].dir == IN_PROGRESS then t.dir == t.status == PENDING && t.claimedBy == None else t == s[x]
  {
  }

  /** The file stays in in_progress/ throughout the run. */
  predicate StaysInProgress(s: Tasks, id: TaskId, ops: seq<Op>)
    decreases |ops|
  {
    && id in s && s[id].dir == IN_PROGRESS
    && (ops != [] ==> StaysInProgress(Apply(s, ops[0]), id, ops[1..]))
  }

  lemma {:induction false} InProgressIsUnchanged(s: Tasks, id: TaskId, ops: seq<Op>)
    requires RunAllowed(s, ops) && StaysInProgress(s, id, ops)
    ensures id in Run(s, ops) && Run(s, ops)[id] == s[id]
    decreases |ops|
  {
    if ops != [] {
      StepMoves(s, ops[0], id);
      InProgressIsUnchanged(Apply(s, ops[0]), id, ops[1..]);
    }
  }

  /** A claim holds: from a successful claim until the file leaves in_progress/, no one
      can claim the task and no other member can complete it. */
  lemma ClaimHolds(s: Tasks, id: TaskId, member: MemberId, fits: bool, ops: seq<Op>,
                   other: MemberId, artifactsOk: bool, otherFits: bool)
    requires member != 0 && AfterClaim(s, id, member, fits).1 == Ok
    requires var s1 := AfterClaim(s, id, member, fits).0; RunAllowed(s1, ops) && StaysInProgress(s1, id, ops)
    ensures var s2 := Run(AfterClaim(s, id, member, fits).0, ops);
      && AfterClaim(s2, id, other, otherFits) == (s2, NotFound)
      && (AfterComplete(s2, id, other, artifactsOk, otherFits).1 == Ok ==> other == member)
      && (other != member ==> AfterComplete(s2, id, other, artifactsOk, otherFits) == (s2, NotOwner))
  {
    InProgressIsUnchanged(AfterClaim(s, id, member, fits).0, id, ops);
  }

  // ------------------------------------------------- the file left in completed/

  /** The directory of a file and the status inside it agree. */
  predicate Consistent(s: Tasks) {
    forall id :: id in s ==> s[id].dir == s[id].status
  }

  /** Someone who may complete the task names an unacceptable artifact path. */
  predicate NamesBadArtifact(s: Tasks, op: Op) {
    && op.Complete? && op.id in s && s[op.id].dir == IN_PROGRESS
    && !(Truthy(s[op.id].claimedBy) && s[op.id].claimedBy != Some(op.member))
    && !op.artifactsOk
  }

  /** An operation breaks the agreement exactly when it does that. */
  lemma StepConsistent(s: Tasks, op: Op)
    requires Allowed(s, op) && Inv(s) && Consistent(s)
    ensures Consistent(Apply(s, op)) <==> !NamesBadArtifact(s, op)
    ensures NamesBadArtifact(s, op) ==>
      Apply(s, op)[op.id].dir == COMPLETED && Apply(s, op)[op.id].status == IN_PROGRESS
  {
    var s' := Apply(s, op);
    if NamesBadArtifact(s, op) {
      assert s'[op.id].dir != s'[op.id].status;
    } else {
      forall id | id in s' ensures s'[id].dir == s'[id].status {
        if id in s {
          StepMoves(s, op, id);
        }
      }
    }
  }

  /** Such a file is beyond every later operation: it is never touched again, and
      nothing that depends on it can start. */
  lemma {:induction false} StrayForever(s: Tasks, id: TaskId, ops: seq<Op>)
    requires RunAllowed(s, ops) && Inv(s) && id in s
    requires s[id].dir == COMPLETED && s[id].status == IN_PROGRESS
    ensures var s' := Run(s, ops);
      && id in s' && s'[id] == s[id] && !Resolved(s', id)
      && forall x :: x in s' && id in s'[x].dependsOn ==> s'[x].status != IN_PROGRESS && s'[x].status != COMPLETED
    decreases |ops|
  {
    if ops == [] {
      forall x | x in s && id in s[x].dependsOn ensures s[x].status != IN_PROGRESS && s[x].status != COMPLETED {
        assert StartedClosed(s, x);
      }
    } else {
      StepMoves(s, ops[0], id);
      StepKeepsInv(s, ops[0]);
      StrayForever(Apply(s, ops[0]), id, ops[1..]);
    }
  }

  predicate SomeNamesBadArtifact(s: Tasks, ops: seq<Op>)
    decreases |ops|
  {
    ops != [] && (NamesBadArtifact(s, ops[0]) || SomeNamesBadArtifact(Apply(s, ops[0]), ops[1..]))
  }

  lemma {:induction false} RunConsistent(s: Tasks, ops: seq<Op>)
    requires RunAllowed(s, ops) && Inv(s) && Consistent(s)
    ensures Consistent(Run(s, ops)) <==> !SomeNamesBadArtifact(s, ops)
    decreases |ops|
  {
    if ops != [] {
      var s' := Apply(s, ops[0]);
      StepKeepsInv(s, ops[0]);
      StepConsistent(s, ops[0]);
      if NamesBadArtifact(s, ops[0]) {
        StrayForever(s', ops[0].id, ops[1..]);
        assert Run(s, ops)[ops[0].id].dir != Run(s, ops)[ops[0].id].status;
      } else {
        RunConsistent(s', ops[1..]);
      }
    }
  }

  /** Directories and statuses agree after exactly those runs in which no one who may
      complete a task names an unacceptable artifact path for it. */
  lemma ConsistentExactly(ops: seq<Op>)
    requires RunAllowed(map[], ops)
    ensures Consistent(Run(map[], ops)) <==> !SomeNamesBadArtifact(map[], ops)
  {
    RunConsistent(map[], ops);
  }

  /** A concrete run into that state. */
  lemma StrayExample()
    ensures var ops := [Add(1, [], None, true), Claim(1, 7, true), Complete(1, 7, false, true)];
      RunAllowed(map[], ops) && !Consistent(Run(map[], ops))
  {
    var s1: Tasks := map[1 := Task(PENDING, PENDING, [], None, None, None)];
    var s2: Tasks := map[1 := Task(IN_PROGRESS, IN_PROGRESS, [], None, Some(7), None)];
    var s3: Tasks := map[1 := Task(COMPLETED, IN_PROGRESS, [], None, Some(7), None)];
    var o1, o2, o3 := Add(1, [], None, true), Claim(1, 7, true), Complete(1, 7, false, true);
    assert Apply(map[], o1) == s1 && Apply(s1, o2) == s2 && Apply(s2, o3) == s3;
    assert [o1, o2, o3][1..] == [o2, o3] && [o2, o3][1..] == [o3] && [o3][1..] == [];
    assert Run(s3, []) == s3;
    assert Run(s2, [o3]) == s3;
    assert Run(s1, [o2, o3]) == s3;
    assert s3[1].dir != s3[1].status;
  }
}
