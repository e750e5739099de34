/** The task store as the code runs it: renames and rewrites of one file after the
    other, proved against the steps of module TaskStore. */
module TaskFiles {
  import opened Wrappers
  import opened TaskStore

  class TaskDirectory {
    var tasks: Tasks

    constructor ()
      ensures tasks == map[] && Inv(tasks)
    {
      tasks := map[];
    }

    /** `rename` between two directories; it fails when the file is not there. */
    method Rename(id: TaskId, from: Status, to: Status) returns (ok: bool)
      modifies this
      ensures ok <==> id in old(tasks) && old(tasks)[id].dir == from
      ensures tasks == if ok then old(tasks)[id := old(tasks)[id].(dir := to)] else old(tasks)
    {
      ok := id in tasks && tasks[id].dir == from;
      if ok {
        tasks := tasks[id := tasks[id].(dir := to)];
      }
    }

    /** `atomicJsonWrite` over the file where it lies. */
    method Rewrite(id: TaskId, t: Task)
      requires id in tasks && t.dir == tasks[id].dir
      modifies this
      ensures tasks == old(tasks)[id := t]
    {
      tasks := tasks[id := t];
    }

    method AddTask(id: TaskId, dependsOn: seq<TaskId>, assignedTo: Option<MemberId>, fits: bool)
      returns (outcome: Outcome)
      requires id !in tasks
      requires Inv(tasks)
      modifies this
      ensures Inv(tasks)
      ensures tasks == Apply(old(tasks), Add(id, dependsOn, assignedTo, fits))
      ensures outcome == if fits then Ok else TooLarge
    {
      StepKeepsInv(tasks, Add(id, dependsOn, assignedTo, fits));
      if !fits {
        return TooLarge;
      }
      tasks := tasks[id := Task(PENDING, PENDING, dependsOn, assignedTo, None, None)];
      return Ok;
    }

    method ClaimTask(id: TaskId, member: MemberId, fits: bool) returns (outcome: Outcome)
      requires Inv(tasks)
      modifies this
      ensures Inv(tasks)
      ensures (tasks, outcome) == AfterClaim(old(tasks), id, member, fits)
      ensures tasks == Apply(old(tasks), Claim(id, member, fits))
    {
      ghost var before := tasks;
      StepKeepsInv(before, Claim(id, member, fits));
      var won := Rename(id, PENDING, IN_PROGRESS);
      if !won {
        return NotFound;
      }
      var t := tasks[id];
      ClaimedAside(before, id);
      if !IsTaskClaimableBy(t, member) {
        var _ := Rename(id, IN_PROGRESS, PENDING);
        assert tasks == before;
        return NotClaimable;
      }
      if t.dependsOn != [] && !AreTaskDependenciesSatisfied(tasks, t) {
        Rewrite(id, t.(status := BLOCKED));
        var _ := Rename(id, IN_PROGRESS, BLOCKED);
        assert tasks == before[id := before[id].(dir := BLOCKED, status := BLOCKED)];
        return UnmetDependencies;
      }
      if !fits {
        var _ := Rename(id, IN_PROGRESS, PENDING);
        assert tasks == before;
        return TooLarge;
      }
      Rewrite(id, t.(status := IN_PROGRESS, claimedBy := Some(member)));
      assert tasks == before[id := before[id].(dir := IN_PROGRESS, status := IN_PROGRESS, claimedBy := Some(member))];
      return Ok;
    }

    method CompleteTask(id: TaskId, member: MemberId, artifactsOk: bool, fits: bool) returns (outcome: Outcome)
      requires Inv(tasks)
      modifies this
      ensures Inv(tasks)
      ensures (tasks, outcome) == AfterComplete(old(tasks), id, member, artifactsOk, fits)
      ensures tasks == Apply(old(tasks), Complete(id, member, artifactsOk, fits))
    {
      ghost var before := tasks;
      StepKeepsInv(before, Complete(id, member, artifactsOk, fits));
      var moved := Rename(id, IN_PROGRESS, COMPLETED);
      if !moved {
        return NotFound;
      }
      var t := tasks[id];
      if Truthy(t.claimedBy) && t.claimedBy != Some(member) {
        var _ := Rename(id, COMPLETED, IN_PROGRESS);
        assert tasks == before;
        return NotOwner;
      }
      if !artifactsOk {
        return BadArtifact;
      }
      if !fits {
        var _ := Rename(id, COMPLETED, IN_PROGRESS);
        assert tasks == before;
        return TooLarge;
      }
      Rewrite(id, t.(status := COMPLETED));
      assert tasks == before[id := before[id].(dir := COMPLETED, status := COMPLETED)];
      ClosedShape(before, id, tasks[id]);
      var _ := UnblockSatisfiedBlockedTasks();
      return Ok;
    }

    method SupersedeTask(id: TaskId, replacement: Option<TaskId>, fits: bool) returns (outcome: Outcome)
      requires Inv(tasks)
      modifies this
      ensures Inv(tasks)
      ensures (tasks, outcome) == AfterSupersede(old(tasks), id, replacement, fits)
      ensures tasks == Apply(old(tasks), Supersede(id, replacement, fits))
    {
      ghost var before := tasks;
      StepKeepsInv(before, Supersede(id, replacement, fits));
      var from := PENDING;
      var moved := Rename(id, PENDING, SUPERSEDED);
      if !moved {
        from := IN_PROGRESS;
        moved := Rename(id, IN_PROGRESS, SUPERSEDED);
      }
      if !moved {
        from := BLOCKED;
        moved := Rename(id, BLOCKED, SUPERSEDED);
      }
      if !moved {
        return NotFound;
      }
      var t := tasks[id];
      if !fits {
        var _ := Rename(id, SUPERSEDED, from);
        assert tasks == before;
        return TooLarge;
      }
      Rewrite(id, t.(status := SUPERSEDED, replacement := replacement));
      assert tasks == before[id := before[id].(dir := SUPERSEDED, status := SUPERSEDED, replacement := replacement)];
      ClosedShape(before, id, tasks[id]);
      var _ := UnblockSatisfiedBlockedTasks();
      return Ok;
    }

    /** Every blocked task whose dependencies are satisfied goes back to pending, in
        whatever order the directory lists them. */
    method UnblockSatisfiedBlockedTasks() returns (unblocked: nat)
      requires AllShaped(tasks)
      modifies this
      ensures tasks == Unblocked(old(tasks))
      ensures unblocked == |Ready(old(tasks), old(tasks).Keys)|
    {
      unblocked := 0;
      ghost var before := tasks;
      var blocked := set id | id in tasks && tasks[id].dir == BLOCKED;
      var states := tasks;
      var rest := blocked;
      assert tasks == UnblockedIn(before, blocked - rest);
      assert Ready(before, blocked - rest) == {};
      while rest != {}
        invariant rest <= blocked && states == tasks
        invariant unblocked == |Ready(before, blocked - rest)|
        invariant blocked == set id | id in before && before[id].dir == BLOCKED
        invariant tasks == UnblockedIn(before, blocked - rest)
        decreases rest
      {
        var id :| id in rest;
        assert blocked - (rest - {id}) == (blocked - rest) + {id};
        var one;
        states, one := UnblockOne(id, states, before, blocked - rest);
        unblocked := unblocked + one;
        rest := rest - {id};
      }
      assert tasks == Unblocked(before);
      assert Ready(before, blocked - rest) == Ready(before, before.Keys);
    }

    method UnblockOne(id: TaskId, states: Tasks, ghost before: Tasks, ghost seen: set<TaskId>)
      returns (after: Tasks, unblocked: nat)
      requires AllShaped(before) && id in before && before[id].dir == BLOCKED && id !in seen
      requires tasks == UnblockedIn(before, seen) && states == tasks
      modifies this
      ensures tasks == UnblockedIn(before, seen + {id}) && after == tasks
      ensures |Ready(before, seen + {id})| == |Ready(before, seen)| + unblocked
    {
      UnblockedStep(before, seen, id);
      SatisfiedMidway(before, seen, before[id]);
      ReadyNext(before, seen, id);
      if !AreTaskDependenciesSatisfied(states, tasks[id]) {
        return states, 0;
      }
      ghost var prior := tasks;
      var t := Requeued(tasks[id]);
      Rewrite(id, t.(dir := BLOCKED));
      var _ := Rename(id, BLOCKED, PENDING);
      assert tasks == prior[id := t];
      return states[id := t], 1;
    }

    /** Stale tasks in progress go back to pending. */
    method HousekeepTasksInProgress(stale: set<TaskId>) returns (requeued: nat)
      requires Inv(tasks)
      modifies this
      ensures Inv(tasks)
      ensures tasks == Apply(old(tasks), Housekeep(stale))
      ensures requeued == |StaleIn(old(tasks), stale)|
    {
      StepKeepsInv(tasks, Housekeep(stale));
      requeued := RequeueAllStale(stale);
    }

    method RequeueAllStale(stale: set<TaskId>) returns (requeued: nat)
      modifies this
      ensures tasks == AfterHousekeep(old(tasks), stale)
      ensures requeued == |StaleIn(old(tasks), stale)|
    {
      requeued := 0;
      ghost var before := tasks;
      var rest := InProgress(tasks);
      ghost var entries, seen: set<TaskId> := rest, {};
      NoneRequeued(before, stale);
      while rest != {}
        invariant seen !! rest && seen + rest == entries
        invariant tasks == AfterHousekeep(before, stale * seen)
        invariant requeued == |stale * seen|
        decreases rest
      {
        var id :| id in rest;
        assert id in entries;
        var one := HousekeepOne(id, stale, before, seen);
        requeued := requeued + one;
        rest := rest - {id};
        seen := seen + {id};
      }
      AllRequeued(before, stale, entries);
    }

    method HousekeepOne(id: TaskId, stale: set<TaskId>, ghost before: Tasks, ghost seen: set<TaskId>)
      returns (requeued: nat)
      requires id in before && before[id].dir == IN_PROGRESS && id !in seen
      requires tasks == AfterHousekeep(before, stale * seen)
      modifies this
      ensures tasks == AfterHousekeep(before, stale * (seen + {id}))
      ensures |stale * (seen + {id})| == |stale * seen| + requeued
    {
      HousekeepStep(before, stale, seen, id);
      if id !in stale {
        return 0;
      }
      RequeueStale(id);
      return 1;
    }

    method RequeueStale(id: TaskId)
      requires id in tasks && tasks[id].dir == IN_PROGRESS
      modifies this
      ensures tasks == old(tasks)[id := Requeued(old(tasks)[id])]
    {
      Rewrite(id, Requeued(tasks[id]).(dir := IN_PROGRESS));
      var _ := Rename(id, IN_PROGRESS, PENDING);
    }

    method HasActionableTaskForMember(member: MemberId) returns (found: bool)
      requires Inv(tasks)
      modifies this
      ensures Inv(tasks)
      ensures tasks == Apply(old(tasks), Poll)
      ensures found <==> exists id :: id in tasks && Actionable(tasks, id, member)
    {
      StepKeepsInv(tasks, Poll);
      var _ := UnblockSatisfiedBlockedTasks();
      if id :| id in tasks && tasks[id].dir == IN_PROGRESS && tasks[id].claimedBy == Some(member) {
        assert Actionable(tasks, id, member);
        return true;
      }
      found := exists id | id in tasks :: Actionable(tasks, id, member);
    }
  }

  /** What a member can work on: its own task in progress, or a pending task it may
      claim and whose dependencies are satisfied. */
  predicate Actionable(s: Tasks, id: TaskId, member: MemberId)
    requires id in s
  {
    if s[id].dir == IN_PROGRESS then s[id].claimedBy == Some(member)
    else s[id].dir == PENDING && IsTaskClaimableBy(s[id], member) && AreTaskDependenciesSatisfied(s, s[id])
  }

  /** There is work for a member exactly in its own tasks in progress and in those that it
      could claim. */
  lemma ActionableExactly(s: Tasks, id: TaskId, member: MemberId)
    requires AllShaped(s) && id in s
    ensures Actionable(s, id, member) <==>
      (s[id].dir == IN_PROGRESS && s[id].claimedBy == Some(member)) || AfterClaim(s, id, member, true).1 == Ok
  {
  }

  /** The rename that wins a claim changes no JSON, so dependencies read the same. */
  lemma ClaimedAside(before: Tasks, id: TaskId)
    requires id in before
    ensures var after := before[id := before[id].(dir := IN_PROGRESS)];
      AreTaskDependenciesSatisfied(before, before[id]) <==> AreTaskDependenciesSatisfied(after, after[id])
  {
    var after := before[id := before[id].(dir := IN_PROGRESS)];
    forall d | d in before[id].dependsOn ensures Resolved(before, d) <==> Resolved(after, d) {
      DirIsNotRead(before, after, d, {});
    }
  }

  lemma {:induction false} DirIsNotRead(s: Tasks, s': Tasks, id: TaskId, visiting: set<TaskId>)
    requires s.Keys == s'.Keys
    requires forall x :: x in s ==> s'[x].status == s[x].status && s'[x].replacement == s[x].replacement
    ensures IsDependencyResolved(s, id, visiting) == IsDependencyResolved(s', id, visiting)
    decreases s.Keys - visiting
  {
    if id in s && s[id].status == SUPERSEDED && Truthy(s[id].replacement) && id !in visiting {
      DirIsNotRead(s, s', s[id].replacement.value, visiting + {id});
    }
  }

  /** The unblocking loop after it has visited `seen`. */
  ghost function UnblockedIn(s: Tasks, seen: set<TaskId>): Tasks {
    map id | id in s ::
      if id in seen && s[id].dir == BLOCKED && AreTaskDependenciesSatisfied(s, s[id]) then Requeued(s[id]) else s[id]
  }

  /** The blocked ones of `seen` whose dependencies are satisfied. */
  ghost function Ready(s: Tasks, seen: set<TaskId>): set<TaskId> {
    set id | id in seen && id in s && s[id].dir == BLOCKED && AreTaskDependenciesSatisfied(s, s[id])
  }

  lemma ReadyNext(s: Tasks, seen: set<TaskId>, id: TaskId)
    requires id in s && id !in seen && s[id].dir == BLOCKED
    ensures |Ready(s, seen + {id})| == |Ready(s, seen)| + if AreTaskDependenciesSatisfied(s, s[id]) then 1 else 0
  {
    assert Ready(s, seen + {id}) ==
           Ready(s, seen) + if AreTaskDependenciesSatisfied(s, s[id]) then {id} else {};
  }

  lemma UnblockedStep(s: Tasks, seen: set<TaskId>, id: TaskId)
    requires id in s && id !in seen
    ensures UnblockedIn(s, seen)[id] == s[id]
    ensures UnblockedIn(s, seen + {id}) ==
      if s[id].dir == BLOCKED && AreTaskDependenciesSatisfied(s, s[id]) then UnblockedIn(s, seen)[id := Requeued(s[id])]
      else UnblockedIn(s, seen)
  {
  }

  ghost function StaleIn(s: Tasks, stale: set<TaskId>): set<TaskId> {
    set id | id in s && s[id].dir == IN_PROGRESS && id in stale
  }

  function InProgress(s: Tasks): set<TaskId> {
    set id | id in s && s[id].dir == IN_PROGRESS
  }

  lemma NoneRequeued(s: Tasks, stale: set<TaskId>)
    ensures stale * {} == {} && AfterHousekeep(s, stale * {}) == s
  {
  }

  lemma AllRequeued(s: Tasks, stale: set<TaskId>, entries: set<TaskId>)
    requires entries == InProgress(s)
    ensures stale * entries == StaleIn(s, stale)
    ensures AfterHousekeep(s, stale * entries) == AfterHousekeep(s, stale)
  {
  }

  lemma HousekeepStep(s: Tasks, stale: set<TaskId>, seen: set<TaskId>, id: TaskId)
    requires id in s && s[id].dir == IN_PROGRESS && id !in seen
    ensures AfterHousekeep(s, stale * seen)[id] == s[id]
    ensures AfterHousekeep(s, stale * (seen + {id})) ==
      if id in stale then AfterHousekeep(s, stale * seen)[id := Requeued(s[id])] else AfterHousekeep(s, stale * seen)
    ensures |stale * (seen + {id})| == |stale * seen| + if id in stale then 1 else 0
  {
    assert stale * (seen + {id}) == stale * seen + if id in stale then {id} else {};
  }

  lemma SatisfiedMidway(s: Tasks, seen: set<TaskId>, t: Task)
    requires AllShaped(s)
    ensures AreTaskDependenciesSatisfied(s, t) <==> AreTaskDependenciesSatisfied(UnblockedIn(s, seen), t)
  {
    var now := UnblockedIn(s, seen);
    forall x | x in s ensures ClosedStays(s, now, x) && ClosedStays(now, s, x) {
      assert Shaped(s[x]);
    }
    if AreTaskDependenciesSatisfied(s, t) {
      SatisfiedCarries(s, now, t);
    }
    if AreTaskDependenciesSatisfied(now, t) {
      SatisfiedCarries(now, s, t);
    }
  }

  /** Closing one task keeps every file well formed. */
  lemma ClosedShape(s: Tasks, id: TaskId, t: Task)
    requires AllShaped(s) && t.dir == t.status && Closed(t)
    requires t.dir == COMPLETED ==> id in s && s[id].dir == IN_PROGRESS
    requires t.dir == COMPLETED ==> t.claimedBy == s[id].claimedBy && t.assignedTo == s[id].assignedTo
    ensures AllShaped(s[id := t])
  {
    var s' := s[id := t];
    forall x | x in s' ensures Shaped(s'[x]) {
      if x in s {
        assert Shaped(s[x]);
      }
    }
  }
}
