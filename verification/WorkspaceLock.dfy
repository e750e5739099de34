/** Locks on workspaces, with time limits and queues of callers who wait. */
module WorkspaceLock {
  import opened Wrappers

  datatype LockEntry = LockEntry(holder: nat, acquiredAt: int, maxLockDurationMs: int)

  predicate Expired(entry: LockEntry, now: int) {
    entry.acquiredAt + entry.maxLockDurationMs < now
  }

  /** One call that waits for a lock: what it was answered, once it is settled. */
  datatype Wait = Wait(ws: nat, task: nat, result: Option<bool>)

  /** The lock's state. A wait is known by its place in `waits`; a queue holds such
      places. `live` has, for each workspace, the tasks that were granted its lock and
      whose entry has since neither been released nor taken off for its age. */
  datatype Table = Table(
    ttl: int,
    locks: map<nat, LockEntry>,
    queues: map<nat, seq<nat>>,
    waits: seq<Wait>,
    live: map<nat, multiset<nat>>
  )

  function LiveOf(t: Table, ws: nat): multiset<nat> {
    if ws in t.live then t.live[ws] else multiset{}
  }

  function QueueOf(t: Table, ws: nat): seq<nat> {
    if ws in t.queues then t.queues[ws] else []
  }

  // ----------------------------------------------------------------- operations

  function Granted(t: Table, ws: nat, task: nat, duration: int, now: int): Table {
    t.(locks := t.locks[ws := LockEntry(task, now, duration)],
       live := t.live[ws := LiveOf(t, ws) + multiset{task}])
  }

  function Dropped(t: Table, ws: nat): Table
    requires ws in t.locks
  {
    t.(locks := t.locks - {ws},
       live := t.live[ws := LiveOf(t, ws) - multiset{t.locks[ws].holder}])
  }

  /** A queue without places is taken off the table. */
  function WithQueue(t: Table, ws: nat, queue: seq<nat>): Table {
    t.(queues := if queue == [] then t.queues - {ws} else t.queues[ws := queue])
  }

  function Answered(waits: seq<Wait>, id: nat, answer: bool): seq<Wait>
    requires id < |waits|
  {
    waits[id := waits[id].(result := Some(answer))]
  }

  function Settled(t: Table, id: nat, answer: bool): Table
    requires id < |t.waits|
  {
    t.(waits := Answered(t.waits, id, answer))
  }

  /** The first in the queue gets the lock that was just dropped. */
  function Notified(t: Table, ws: nat, now: int): Table {
    var queue := QueueOf(t, ws);
    if queue == [] then t
    else
      var t1 := WithQueue(t, ws, queue[1..]);
      if queue[0] >= |t.waits| || t.waits[queue[0]].result.Some? then t1
      else Settled(Granted(t1, ws, t.waits[queue[0]].task, t.ttl, now), queue[0], true)
  }

  function HandedOn(t: Table, ws: nat, now: int): Table
    requires ws in t.locks
  {
    Notified(Dropped(t, ws), ws, now)
  }

  predicate CanAcquire(t: Table, ws: nat, now: int) {
    ws in t.locks ==> Expired(t.locks[ws], now)
  }

  function AfterAcquire(t: Table, ws: nat, task: nat, duration: Option<int>, now: int): Table {
    if !CanAcquire(t, ws, now) then t
    else
      var t1 := if ws in t.locks then HandedOn(t, ws, now) else t;
      Granted(t1, ws, task, if duration.Some? then duration.value else t.ttl, now)
  }

  function Called(t: Table, wait: Wait): Table {
    t.(waits := t.waits + [wait])
  }

  function AfterWait(t: Table, ws: nat, task: nat, now: int): Table {
    if CanAcquire(t, ws, now) then Called(AfterAcquire(t, ws, task, None, now), Wait(ws, task, Some(true)))
    else Called(t.(queues := t.queues[ws := QueueOf(t, ws) + [|t.waits|]]), Wait(ws, task, None))
  }

  function AfterRelease(t: Table, ws: nat, task: nat, now: int): Table {
    if ws in t.locks && t.locks[ws].holder == task then HandedOn(t, ws, now) else t
  }

  function AfterForceRelease(t: Table, ws: nat, now: int): Table {
    if ws in t.locks then HandedOn(t, ws, now) else t
  }

  function AfterIsLocked(t: Table, ws: nat, now: int): Table {
    if ws in t.locks && Expired(t.locks[ws], now) then HandedOn(t, ws, now) else t
  }

  function Without(queue: seq<nat>, id: nat): seq<nat> {
    if queue == [] then []
    else if queue[0] == id then queue[1..]
    else [queue[0]] + Without(queue[1..], id)
  }

  function AfterTimer(t: Table, id: nat): Table {
    if id >= |t.waits| || t.waits[id].result.Some? then t
    else
      var ws := t.waits[id].ws;
      Settled(WithQueue(t, ws, Without(QueueOf(t, ws), id)), id, false)
  }

  datatype Event =
    | Acquire(ws: nat, task: nat, duration: Option<int>, now: int)
    | WaitForLock(ws: nat, task: nat, now: int)
    | Release(ws: nat, task: nat, now: int)
    | ForceRelease(ws: nat, now: int)
    | IsLocked(ws: nat, now: int)
    | TimerFires(id: nat)

  function Next(t: Table, e: Event): Table {
    match e
    case Acquire(ws, task, duration, now) => AfterAcquire(t, ws, task, duration, now)
    case WaitForLock(ws, task, now) => AfterWait(t, ws, task, now)
    case Release(ws, task, now) => AfterRelease(t, ws, task, now)
    case ForceRelease(ws, now) => AfterForceRelease(t, ws, now)
    case IsLocked(ws, now) => AfterIsLocked(t, ws, now)
    case TimerFires(id) => AfterTimer(t, id)
  }

  function Run(t: Table, events: seq<Event>): Table
    decreases |events|
  {
    if events == [] then t else Run(Next(t, events[0]), events[1..])
  }

  function Empty(ttl: int): Table {
    Table(ttl, map[], map[], [], map[])
  }

  // ------------------------------------------- the queue is the calls not settled

  predicate Waits(w: Wait, ws: nat) {
    w.ws == ws && w.result == None
  }

  /** The calls that still wait for `ws`, in the order in which they were made. */
  function Pending(waits: seq<Wait>, ws: nat): seq<nat> {
    if waits == [] then []
    else
      var n := |waits| - 1;
      Pending(waits[..n], ws) + if Waits(waits[n], ws) then [n] else []
  }

  lemma {:induction false} PendingExactly(waits: seq<Wait>, ws: nat)
    ensures forall k :: 0 <= k < |Pending(waits, ws)| ==>
      Pending(waits, ws)[k] < |waits| && Waits(waits[Pending(waits, ws)[k]], ws)
    ensures forall k, l :: 0 <= k < l < |Pending(waits, ws)| ==> Pending(waits, ws)[k] < Pending(waits, ws)[l]
  {
    if waits != [] {
      PendingExactly(waits[..|waits| - 1], ws);
    }
  }

  lemma {:induction false} PendingAll(waits: seq<Wait>, ws: nat, id: nat) returns (k: nat)
    requires id < |waits| && Waits(waits[id], ws)
    ensures k < |Pending(waits, ws)| && Pending(waits, ws)[k] == id
  {
    var n := |waits| - 1;
    if id == n {
      k := |Pending(waits[..n], ws)|;
    } else {
      k := PendingAll(waits[..n], ws, id);
    }
  }

  /** No wait is before the head of its queue. */
  lemma HeadIsFirst(waits: seq<Wait>, ws: nat, id: nat)
    requires Pending(waits, ws) != [] && id < Pending(waits, ws)[0]
    ensures id < |waits| && !Waits(waits[id], ws)
  {
    PendingExactly(waits, ws);
    if Waits(waits[id], ws) {
      var k := PendingAll(waits, ws, id);
    }
  }

  lemma {:induction false} WithoutSnoc(queue: seq<nat>, last: nat, id: nat)
    ensures Without(queue + [last], id) ==
            if id in queue then Without(queue, id) + [last] else if last == id then queue else queue + [last]
  {
    if queue != [] {
      assert (queue + [last])[1..] == queue[1..] + [last];
      WithoutSnoc(queue[1..], last, id);
      assert queue == [queue[0]] + queue[1..];
    } else {
      assert [] + [last] == [last];
    }
  }

  lemma LastSettled(waits: seq<Wait>, answer: bool, ws: nat)
    requires waits != []
    ensures
      var n := |waits| - 1;
      Pending(Answered(waits, n, answer), ws) ==
      if Waits(waits[n], ws) then Without(Pending(waits, ws), n) else Pending(waits, ws)
  {
    var n := |waits| - 1;
    var front, after := waits[..n], Answered(waits, n, answer);
    assert after[..n] == front;
    PendingExactly(front, ws);
    WithoutSnoc(Pending(front, ws), n, n);
    assert Pending(front, ws) + [] == Pending(front, ws);
  }

  /** Settling a wait takes it off its queue and leaves the others alone. */
  lemma {:induction false} PendingSettled(waits: seq<Wait>, id: nat, answer: bool, ws: nat)
    requires id < |waits|
    ensures
      Pending(Answered(waits, id, answer), ws) ==
      if Waits(waits[id], ws) then Without(Pending(waits, ws), id) else Pending(waits, ws)
  {
    var n := |waits| - 1;
    if id == n {
      LastSettled(waits, answer, ws);
    } else {
      var front, last := waits[..n], if Waits(waits[n], ws) then [n] else [];
      assert Answered(waits, id, answer)[..n] == Answered(front, id, answer);
      PendingSettled(front, id, answer, ws);
      assert Pending(Answered(waits, id, answer), ws) == Pending(Answered(front, id, answer), ws) + last;
      if Waits(waits[id], ws) {
        WithoutMiddle(front, ws, id, n, last);
      }
    }
  }

  lemma WithoutMiddle(front: seq<Wait>, ws: nat, id: nat, n: nat, last: seq<nat>)
    requires id < |front| && Waits(front[id], ws) && (last == [n] || last == [])
    ensures Without(Pending(front, ws) + last, id) == Without(Pending(front, ws), id) + last
  {
    var k := PendingAll(front, ws, id);
    WithoutSnoc(Pending(front, ws), n, id);
    assert Pending(front, ws) + [] == Pending(front, ws);
    assert Without(Pending(front, ws), id) + [] == Without(Pending(front, ws), id);
  }

  // ------------------------------------------------------------------ invariant

  ghost predicate QueueOk(t: Table, ws: nat) {
    && QueueOf(t, ws) == Pending(t.waits, ws)
    && (ws in t.queues ==> t.queues[ws] != [])
    && (QueueOf(t, ws) != [] ==> ws in t.locks)
  }

  /** Each queue holds exactly the calls not yet settled, in order, and where there is a
      queue the lock is held. */
  ghost predicate Inv(t: Table) {
    forall ws: nat {:trigger QueueOk(t, ws)} :: QueueOk(t, ws)
  }

  /** What `HandedOn` does, spelled out: the next in the queue, if any, has the lock. */
  lemma HandedOnExactly(t: Table, ws: nat, now: int)
    requires Inv(t) && ws in t.locks
    ensures
      var queue, t' := QueueOf(t, ws), HandedOn(t, ws, now);
      if queue == [] then t' == Dropped(t, ws)
      else
        && queue[0] < |t.waits| && Waits(t.waits[queue[0]], ws)
        && t' == Settled(Granted(WithQueue(Dropped(t, ws), ws, queue[1..]), ws, t.waits[queue[0]].task, t.ttl, now),
                         queue[0], true)
  {
    assert QueueOk(t, ws);
    PendingExactly(t.waits, ws);
  }

  lemma HandedOnKeepsInv(t: Table, ws: nat, now: int)
    requires Inv(t) && ws in t.locks
    ensures Inv(HandedOn(t, ws, now))
  {
    HandedOnExactly(t, ws, now);
    var t' := HandedOn(t, ws, now);
    forall other: nat ensures QueueOk(t', other) {
      assert QueueOk(t, other) && QueueOk(t, ws);
      var queue := QueueOf(t, ws);
      if queue != [] {
        PendingSettled(t.waits, queue[0], true, other);
      }
    }
  }

  lemma AcquireKeepsInv(t: Table, ws: nat, task: nat, duration: Option<int>, now: int)
    requires Inv(t)
    ensures Inv(AfterAcquire(t, ws, task, duration, now))
  {
    if CanAcquire(t, ws, now) {
      if ws in t.locks {
        HandedOnKeepsInv(t, ws, now);
      }
      var t1 := if ws in t.locks then HandedOn(t, ws, now) else t;
      forall other: nat ensures QueueOk(AfterAcquire(t, ws, task, duration, now), other) {
        assert QueueOk(t1, other);
      }
    }
  }

  lemma WaitKeepsInv(t: Table, ws: nat, task: nat, now: int)
    requires Inv(t)
    ensures Inv(AfterWait(t, ws, task, now))
  {
    var t' := AfterWait(t, ws, task, now);
    AcquireKeepsInv(t, ws, task, None, now);
    var t1 := AfterAcquire(t, ws, task, None, now);
    forall other: nat ensures QueueOk(t', other) {
      assert QueueOk(t, other) && QueueOk(t1, other);
    }
  }

  lemma TimerKeepsInv(t: Table, id: nat)
    requires Inv(t)
    ensures Inv(AfterTimer(t, id))
  {
    if id < |t.waits| && t.waits[id].result == None {
      forall other: nat ensures QueueOk(AfterTimer(t, id), other) {
        assert QueueOk(t, other) && QueueOk(t, t.waits[id].ws);
        PendingSettled(t.waits, id, false, other);
      }
    }
  }

  lemma NextKeepsInv(t: Table, e: Event)
    requires Inv(t)
    ensures Inv(Next(t, e))
  {
    match e
    case Acquire(ws, task, duration, now) => AcquireKeepsInv(t, ws, task, duration, now);
    case WaitForLock(ws, task, now) => WaitKeepsInv(t, ws, task, now);
    case TimerFires(id) => TimerKeepsInv(t, id);
    case _ =>
      if e.ws in t.locks {
        HandedOnKeepsInv(t, e.ws, e.now);
      }
  }

  /** In every run, with locks that outlive their time or without. */
  lemma {:induction false} RunKeepsInv(t: Table, events: seq<Event>)
    requires Inv(t)
    ensures Inv(Run(t, events))
    decreases |events|
  {
    if events != [] {
      NextKeepsInv(t, events[0]);
      RunKeepsInv(Next(t, events[0]), events[1..]);
    }
  }

  lemma EmptyInv(ttl: int)
    ensures Inv(Empty(ttl)) && Exclusive(Empty(ttl)) && InTurn(Empty(ttl))
  {
    forall ws: nat ensures QueueOk(Empty(ttl), ws) && HeldOnce(Empty(ttl), ws) {}
  }

  // ----------------------------------------------------------------- exclusion

  /** The live grants of `ws` are the one in its entry, or none. */
  ghost predicate HeldOnce(t: Table, ws: nat) {
    LiveOf(t, ws) == if ws in t.locks then multiset{t.locks[ws].holder} else multiset{}
  }

  ghost predicate Exclusive(t: Table) {
    forall ws: nat {:trigger HeldOnce(t, ws)} :: HeldOnce(t, ws)
  }

  /** A caller takes a lock that has outlived its time while others queue for it. */
  predicate TakesFromQueue(t: Table, e: Event) {
    && (e.Acquire? || e.WaitForLock?)
    && e.ws in t.locks && Expired(t.locks[e.ws], e.now) && QueueOf(t, e.ws) != []
  }

  lemma HandedOnLive(t: Table, ws: nat, now: int)
    requires Inv(t) && Exclusive(t) && ws in t.locks
    ensures Exclusive(HandedOn(t, ws, now))
    ensures ws in HandedOn(t, ws, now).locks <==> QueueOf(t, ws) != []
  {
    HandedOnExactly(t, ws, now);
    forall other: nat ensures HeldOnce(HandedOn(t, ws, now), other) {
      assert HeldOnce(t, other) && HeldOnce(t, ws);
    }
  }

  lemma GrantedLive(t: Table, ws: nat, task: nat, duration: int, now: int)
    requires Exclusive(t)
    ensures Exclusive(Granted(t, ws, task, duration, now)) <==> ws !in t.locks
    ensures ws in t.locks ==> |LiveOf(Granted(t, ws, task, duration, now), ws)| == 2
  {
    var t' := Granted(t, ws, task, duration, now);
    assert HeldOnce(t, ws);
    if ws in t.locks {
      assert |LiveOf(t', ws)| == 2;
      assert !HeldOnce(t', ws);
    } else {
      forall other: nat ensures HeldOnce(t', other) {
        assert HeldOnce(t, other);
      }
    }
  }

  lemma AcquireLive(t: Table, ws: nat, task: nat, duration: Option<int>, now: int)
    requires Inv(t) && Exclusive(t)
    ensures
      var taken := ws in t.locks && Expired(t.locks[ws], now) && QueueOf(t, ws) != [];
      var t' := AfterAcquire(t, ws, task, duration, now);
      && (Exclusive(t') <==> !taken)
      && (taken ==> |LiveOf(t', ws)| == 2)
  {
    if CanAcquire(t, ws, now) {
      var t1 := if ws in t.locks then HandedOn(t, ws, now) else t;
      if ws in t.locks {
        HandedOnLive(t, ws, now);
      }
      GrantedLive(t1, ws, task, if duration.Some? then duration.value else t.ttl, now);
    }
  }

  lemma SameLive(t: Table, t': Table)
    requires t.locks == t'.locks && t.live == t'.live
    ensures Exclusive(t) <==> Exclusive(t')
  {
    forall ws: nat ensures HeldOnce(t, ws) == HeldOnce(t', ws) {}
  }

  lemma WaitLive(t: Table, ws: nat, task: nat, now: int)
    requires Inv(t) && Exclusive(t)
    ensures
      var taken := ws in t.locks && Expired(t.locks[ws], now) && QueueOf(t, ws) != [];
      var t' := AfterWait(t, ws, task, now);
      && (Exclusive(t') <==> !taken)
      && (taken ==> |LiveOf(t', ws)| == 2)
  {
    AcquireLive(t, ws, task, None, now);
    SameLive(AfterAcquire(t, ws, task, None, now), AfterWait(t, ws, task, now));
  }

  /** Operations that only hand a lock on, or leave it. */
  lemma OtherLive(t: Table, e: Event)
    requires Inv(t) && Exclusive(t) && !e.Acquire? && !e.WaitForLock?
    ensures Exclusive(Next(t, e))
  {
    match e
    case Release(ws, _, now) => if ws in t.locks { HandedOnLive(t, ws, now); }
    case ForceRelease(ws, now) => if ws in t.locks { HandedOnLive(t, ws, now); }
    case IsLocked(ws, now) => if ws in t.locks { HandedOnLive(t, ws, now); }
    case TimerFires(id) => SameLive(t, AfterTimer(t, id));
  }

  /** A step breaks exclusion exactly when a caller takes a lock that has outlived its
      time from under a queue: the first of the queue is granted the lock, and so is the
      caller. Otherwise a workspace has at most one live grant, that of its entry. */
  lemma ExclusiveExactly(t: Table, e: Event)
    requires Inv(t) && Exclusive(t)
    ensures Exclusive(Next(t, e)) <==> !TakesFromQueue(t, e)
    ensures TakesFromQueue(t, e) ==> |LiveOf(Next(t, e), e.ws)| == 2
  {
    if e.Acquire? {
      AcquireLive(t, e.ws, e.task, e.duration, e.now);
    } else if e.WaitForLock? {
      WaitLive(t, e.ws, e.task, e.now);
    } else {
      OtherLive(t, e);
    }
  }

  /** One caller has the lock and another waits for it. */
  lemma OneHeldOneWaits()
    ensures Run(Empty(10), [Acquire(0, 1, None, 0), WaitForLock(0, 2, 5)]) ==
            Table(10, map[0 := LockEntry(1, 0, 10)], map[0 := [0]], [Wait(0, 2, None)], map[0 := multiset{1}])
  {
    var events := [Acquire(0, 1, None, 0), WaitForLock(0, 2, 5)];
    var held := map[0 := LockEntry(1, 0, 10)];
    var t1 := Table(10, held, map[], [], map[0 := multiset{1}]);
    var t2 := Table(10, held, map[0 := [0]], [Wait(0, 2, None)], map[0 := multiset{1}]);
    assert AfterAcquire(Empty(10), 0, 1, None, 0) == t1 by {
      assert multiset{} + multiset{1} == multiset{1};
      assert map[][0 := LockEntry(1, 0, 10)] == held;
      assert map[][0 := multiset{1}] == t1.live;
    }
    assert AfterWait(t1, 0, 2, 5) == t2 by {
      var none: seq<nat> := [];
      assert QueueOf(t1, 0) == none && none + [0] == [0];
      assert t1.queues[0 := [0]] == t2.queues;
    }
    assert events[1..] == [events[1]] && [events[1]][1..] == [];
    assert Run(t1, [events[1]]) == Run(t2, []) == t2;
  }

  lemma {:induction false} RunAppends(t: Table, events: seq<Event>, e: Event)
    ensures Run(t, events + [e]) == Next(Run(t, events), e)
    decreases |events|
  {
    if events == [] {
      assert [] + [e] == [e] && [e][1..] == [];
    } else {
      assert (events + [e])[1..] == events[1..] + [e];
      RunAppends(Next(t, events[0]), events[1..], e);
    }
  }

  /** A waiter and a caller are both told that they have the lock. */
  lemma TwoHolders()
    ensures
      var t := Run(Empty(10), [Acquire(0, 1, None, 0), WaitForLock(0, 2, 5), Acquire(0, 3, None, 11)]);
      t.waits == [Wait(0, 2, Some(true))] && t.locks[0].holder == 3 && LiveOf(t, 0) == multiset{2, 3}
  {
    var two := [Acquire(0, 1, None, 0), WaitForLock(0, 2, 5)];
    OneHeldOneWaits();
    RunAppends(Empty(10), two, Acquire(0, 3, None, 11));
    assert two + [Acquire(0, 3, None, 11)] ==
           [Acquire(0, 1, None, 0), WaitForLock(0, 2, 5), Acquire(0, 3, None, 11)];
    Overtakes(Run(Empty(10), two), AfterAcquire(Run(Empty(10), two), 0, 3, None, 11));
  }

  lemma Overtakes(t2: Table, t3: Table)
    requires t2 == Table(10, map[0 := LockEntry(1, 0, 10)], map[0 := [0]], [Wait(0, 2, None)], map[0 := multiset{1}])
    requires t3 == AfterAcquire(t2, 0, 3, None, 11)
    ensures t3.waits == [Wait(0, 2, Some(true))] && t3.locks[0].holder == 3 && LiveOf(t3, 0) == multiset{2, 3}
  {
    var dropped := Dropped(t2, 0);
    assert LiveOf(dropped, 0) == multiset{};
    assert LiveOf(HandedOn(t2, 0, 11), 0) == multiset{2};
    assert HandedOn(t2, 0, 11).waits == [Wait(0, 2, Some(true))];
  }

  // --------------------------------------------------------------- order of grants

  /** Of two calls for one workspace, the later is not granted while the earlier waits. */
  ghost predicate NotOvertaken(t: Table, i: nat, j: nat) {
    i < j < |t.waits| && Waits(t.waits[i], t.waits[j].ws) ==> t.waits[j].result != Some(true)
  }

  ghost predicate InTurn(t: Table) {
    forall i: nat, j: nat {:trigger NotOvertaken(t, i, j)} :: NotOvertaken(t, i, j)
  }

  lemma HandedOnInTurn(t: Table, ws: nat, now: int)
    requires Inv(t) && InTurn(t) && ws in t.locks
    ensures InTurn(HandedOn(t, ws, now))
  {
    HandedOnExactly(t, ws, now);
    var t' := HandedOn(t, ws, now);
    forall i: nat, j: nat ensures NotOvertaken(t', i, j) {
      assert NotOvertaken(t, i, j) && QueueOk(t, ws);
      var queue := QueueOf(t, ws);
      if queue != [] && j == queue[0] && i < j {
        HeadIsFirst(t.waits, ws, i);
      }
    }
  }

  /** A call that is added is not granted while an earlier one waits. */
  lemma CalledInTurn(t: Table, t': Table, last: Wait)
    requires InTurn(t) && t'.waits == t.waits + [last]
    requires last.result == Some(true) ==> Pending(t.waits, last.ws) == []
    ensures InTurn(t')
  {
    forall i: nat, j: nat ensures NotOvertaken(t', i, j) {
      assert NotOvertaken(t, i, j);
      if j == |t.waits| && i < j && Waits(t.waits[i], last.ws) {
        var k := PendingAll(t.waits, last.ws, i);
      }
    }
  }

  /** A caller is granted the lock at once although two or more wait: the first of them
      gets it too, and the second is passed over. */
  predicate PassesOver(t: Table, e: Event) {
    e.WaitForLock? && TakesFromQueue(t, e) && |QueueOf(t, e.ws)| >= 2
  }

  lemma WaitInTurn(t: Table, ws: nat, task: nat, now: int)
    requires Inv(t) && InTurn(t) && !TakesFromQueue(t, WaitForLock(ws, task, now))
    ensures InTurn(AfterWait(t, ws, task, now))
  {
    assert QueueOk(t, ws);
    CalledInTurn(t, AfterWait(t, ws, task, now),
                 Wait(ws, task, if CanAcquire(t, ws, now) then Some(true) else None));
  }

  lemma TakenInTurn(t: Table, ws: nat, task: nat, now: int)
    requires Inv(t) && InTurn(t) && TakesFromQueue(t, WaitForLock(ws, task, now)) && |QueueOf(t, ws)| == 1
    ensures InTurn(AfterWait(t, ws, task, now))
  {
    HandedOnExactly(t, ws, now);
    HandedOnInTurn(t, ws, now);
    HandedOnKeepsInv(t, ws, now);
    assert QueueOk(HandedOn(t, ws, now), ws);
    CalledInTurn(HandedOn(t, ws, now), AfterWait(t, ws, task, now), Wait(ws, task, Some(true)));
  }

  lemma TakenOutOfTurn(t: Table, ws: nat, task: nat, now: int)
    requires Inv(t) && PassesOver(t, WaitForLock(ws, task, now))
    ensures !InTurn(AfterWait(t, ws, task, now))
  {
    HandedOnExactly(t, ws, now);
    assert QueueOk(t, ws);
    PendingExactly(t.waits, ws);
    assert !NotOvertaken(AfterWait(t, ws, task, now), QueueOf(t, ws)[1], |t.waits|);
  }

  lemma AcquireInTurn(t: Table, ws: nat, task: nat, duration: Option<int>, now: int)
    requires Inv(t) && InTurn(t)
    ensures InTurn(AfterAcquire(t, ws, task, duration, now))
  {
    if ws in t.locks {
      HandedOnInTurn(t, ws, now);
      SameTurn(HandedOn(t, ws, now), AfterAcquire(t, ws, task, duration, now));
    }
    SameTurn(t, AfterAcquire(t, ws, task, duration, now));
  }

  /** First come, first served, exactly unless a waiting caller is passed over. */
  lemma NextInTurn(t: Table, e: Event)
    requires Inv(t) && InTurn(t)
    ensures InTurn(Next(t, e)) <==> !PassesOver(t, e)
  {
    match e
    case Acquire(ws, task, duration, now) => AcquireInTurn(t, ws, task, duration, now);
    case WaitForLock(ws, task, now) =>
      if !TakesFromQueue(t, e) {
        WaitInTurn(t, ws, task, now);
      } else if PassesOver(t, e) {
        TakenOutOfTurn(t, ws, task, now);
      } else {
        TakenInTurn(t, ws, task, now);
      }
    case Release(ws, _, now) => if ws in t.locks { HandedOnInTurn(t, ws, now); }
    case ForceRelease(ws, now) => if ws in t.locks { HandedOnInTurn(t, ws, now); }
    case IsLocked(ws, now) => if ws in t.locks { HandedOnInTurn(t, ws, now); }
    case TimerFires(id) =>
      forall i: nat, j: nat ensures NotOvertaken(AfterTimer(t, id), i, j) {
        assert NotOvertaken(t, i, j);
      }
  }

  /** One caller has the lock, two wait, and a third, who asks when the lock has outlived
      its time, is served before the second of them. */
  lemma ServedOutOfTurn()
    ensures
      var t := Run(Empty(10), [Acquire(0, 1, None, 0), WaitForLock(0, 2, 5), WaitForLock(0, 3, 6)]);
      Inv(t) && InTurn(t) && !InTurn(Next(t, WaitForLock(0, 4, 11)))
  {
    var two := [Acquire(0, 1, None, 0), WaitForLock(0, 2, 5)];
    OneHeldOneWaits();
    RunAppends(Empty(10), two, WaitForLock(0, 3, 6));
    assert two + [WaitForLock(0, 3, 6)] == [Acquire(0, 1, None, 0), WaitForLock(0, 2, 5), WaitForLock(0, 3, 6)];
    var t := Run(Empty(10), two + [WaitForLock(0, 3, 6)]);
    EmptyInv(10);
    RunKeepsInv(Empty(10), two + [WaitForLock(0, 3, 6)]);
    assert t == AfterWait(Run(Empty(10), two), 0, 3, 6);
    assert QueueOf(t, 0) == [0, 1] && t.waits == [Wait(0, 2, None), Wait(0, 3, None)];
    assert forall i: nat, j: nat :: NotOvertaken(t, i, j);
    TakenOutOfTurn(t, 0, 4, 11);
  }

  lemma SameTurn(t: Table, t': Table)
    requires InTurn(t)
    ensures t.waits == t'.waits ==> InTurn(t')
  {
    if t.waits == t'.waits {
      forall i: nat, j: nat ensures NotOvertaken(t', i, j) {
        assert NotOvertaken(t, i, j);
      }
    }
  }

  /** No event of the run is a caller taking a lock from under a queue. In particular so
      is every run in which each lock is given back in time. */
  ghost predicate Fair(t: Table, events: seq<Event>)
    decreases |events|
  {
    events == [] || (!TakesFromQueue(t, events[0]) && Fair(Next(t, events[0]), events[1..]))
  }

  /** Grants of `ws` that no entry stands for. */
  function Surplus(t: Table, ws: nat): int {
    |LiveOf(t, ws)| - if ws in t.locks then 1 else 0
  }

  lemma DroppedSurplus(t: Table, ws: nat, other: nat)
    requires ws in t.locks
    ensures Surplus(Dropped(t, ws), other) >= Surplus(t, other)
  {
    if other == ws {
      var live, one := LiveOf(t, ws), multiset{t.locks[ws].holder};
      assert LiveOf(Dropped(t, ws), ws) == live - one;
      assert |live - one| >= |live| - 1 by {
        assert live - one + (live * one) == live && |live * one| <= 1;
      }
    }
  }

  lemma GrantedSurplus(t: Table, ws: nat, task: nat, duration: int, now: int, other: nat)
    ensures Surplus(Granted(t, ws, task, duration, now), other) >= Surplus(t, other)
  {
    if other == ws {
      assert LiveOf(Granted(t, ws, task, duration, now), ws) == LiveOf(t, ws) + multiset{task};
    }
  }

  lemma SameSurplus(t: Table, t': Table, other: nat)
    requires t.locks == t'.locks && t.live == t'.live
    ensures Surplus(t, other) == Surplus(t', other)
  {
  }

  lemma NotifiedSurplus(t: Table, ws: nat, now: int, other: nat)
    ensures Surplus(Notified(t, ws, now), other) >= Surplus(t, other)
  {
    var queue := QueueOf(t, ws);
    if queue != [] {
      var t1 := WithQueue(t, ws, queue[1..]);
      SameSurplus(t, t1, other);
      if queue[0] < |t.waits| {
        var t2 := Granted(t1, ws, t.waits[queue[0]].task, t.ttl, now);
        GrantedSurplus(t1, ws, t.waits[queue[0]].task, t.ttl, now, other);
        SameSurplus(t2, Settled(t2, queue[0], true), other);
      }
    }
  }

  lemma HandedOnSurplus(t: Table, ws: nat, now: int, other: nat)
    requires ws in t.locks
    ensures Surplus(HandedOn(t, ws, now), other) >= Surplus(t, other)
  {
    DroppedSurplus(t, ws, other);
    NotifiedSurplus(Dropped(t, ws), ws, now, other);
  }

  lemma AcquireSurplus(t: Table, ws: nat, task: nat, duration: Option<int>, now: int, other: nat)
    ensures Surplus(AfterAcquire(t, ws, task, duration, now), other) >= Surplus(t, other)
  {
    if CanAcquire(t, ws, now) {
      var t1 := if ws in t.locks then HandedOn(t, ws, now) else t;
      if ws in t.locks {
        HandedOnSurplus(t, ws, now, other);
      }
      GrantedSurplus(t1, ws, task, if duration.Some? then duration.value else t.ttl, now, other);
    }
  }

  lemma WaitSurplus(t: Table, ws: nat, task: nat, now: int, other: nat)
    ensures Surplus(AfterWait(t, ws, task, now), other) >= Surplus(t, other)
  {
    AcquireSurplus(t, ws, task, None, now, other);
    SameSurplus(AfterAcquire(t, ws, task, None, now), AfterWait(t, ws, task, now), other);
  }

  /** No event brings the entry of such a grant back. */
  lemma NextSurplus(t: Table, e: Event, other: nat)
    ensures Surplus(Next(t, e), other) >= Surplus(t, other)
  {
    match e
    case Acquire(ws, task, duration, now) => AcquireSurplus(t, ws, task, duration, now, other);
    case WaitForLock(ws, task, now) => WaitSurplus(t, ws, task, now, other);
    case TimerFires(id) => SameSurplus(t, AfterTimer(t, id), other);
    case _ =>
      if Next(t, e) != t {
        HandingOn(t, e);
        HandedOnSurplus(t, e.ws, e.now, other);
      }
  }

  /** Releasing, forcing out and asking hand the lock on or do nothing. */
  lemma HandingOn(t: Table, e: Event)
    requires (e.Release? || e.ForceRelease? || e.IsLocked?) && Next(t, e) != t
    ensures e.ws in t.locks && Next(t, e) == HandedOn(t, e.ws, e.now)
  {
  }

  lemma {:induction false} SurplusStays(t: Table, events: seq<Event>, ws: nat)
    requires Surplus(t, ws) > 0
    ensures !Exclusive(Run(t, events))
    decreases |events|
  {
    if events == [] {
      assert !HeldOnce(t, ws);
    } else {
      NextSurplus(t, events[0], ws);
      SurplusStays(Next(t, events[0]), events[1..], ws);
    }
  }

  /** A run ends with at most one live grant a workspace exactly when it is fair: once two
      callers hold a lock, no later event mends it. */
  lemma {:induction false} ExclusiveRunExactly(t: Table, events: seq<Event>)
    requires Inv(t) && Exclusive(t)
    ensures Exclusive(Run(t, events)) <==> Fair(t, events)
    decreases |events|
  {
    if events != [] {
      var e := events[0];
      NextKeepsInv(t, e);
      ExclusiveExactly(t, e);
      if TakesFromQueue(t, e) {
        SurplusStays(Next(t, e), events[1..], e.ws);
      } else {
        ExclusiveRunExactly(Next(t, e), events[1..]);
      }
    }
  }

  /** No event of the run passes a waiting caller over. */
  ghost predicate Orderly(t: Table, events: seq<Event>)
    decreases |events|
  {
    events == [] || (!PassesOver(t, events[0]) && Orderly(Next(t, events[0]), events[1..]))
  }

  lemma {:induction false} OrderlyRun(t: Table, events: seq<Event>)
    requires Inv(t) && InTurn(t) && Orderly(t, events)
    ensures InTurn(Run(t, events))
    decreases |events|
  {
    if events != [] {
      NextKeepsInv(t, events[0]);
      NextInTurn(t, events[0]);
      OrderlyRun(Next(t, events[0]), events[1..]);
    }
  }

  lemma {:induction false} FairRun(t: Table, events: seq<Event>)
    requires Inv(t) && Exclusive(t) && InTurn(t) && Fair(t, events)
    ensures var t' := Run(t, events); Inv(t') && Exclusive(t') && InTurn(t')
    decreases |events|
  {
    if events != [] {
      NextKeepsInv(t, events[0]);
      ExclusiveExactly(t, events[0]);
      NextInTurn(t, events[0]);
      FairRun(Next(t, events[0]), events[1..]);
    }
  }

  lemma HandedOnKeepsAnswers(t: Table, ws: nat, now: int, id: nat)
    requires Inv(t) && ws in t.locks && id < |t.waits| && t.waits[id].result.Some?
    ensures id < |HandedOn(t, ws, now).waits| && HandedOn(t, ws, now).waits[id] == t.waits[id]
  {
    HandedOnExactly(t, ws, now);
  }

  lemma AcquireKeepsAnswers(t: Table, ws: nat, task: nat, duration: Option<int>, now: int, id: nat)
    requires Inv(t) && id < |t.waits| && t.waits[id].result.Some?
    ensures
      var t' := AfterAcquire(t, ws, task, duration, now);
      id < |t'.waits| && t'.waits[id] == t.waits[id]
  {
    if ws in t.locks {
      HandedOnKeepsAnswers(t, ws, now, id);
    }
  }

  /** A call that was answered keeps its answer, and its place. */
  lemma NextKeepsAnswers(t: Table, e: Event, id: nat)
    requires Inv(t) && id < |t.waits| && t.waits[id].result.Some?
    ensures id < |Next(t, e).waits| && Next(t, e).waits[id] == t.waits[id]
  {
    match e
    case Acquire(ws, task, duration, now) => AcquireKeepsAnswers(t, ws, task, duration, now, id);
    case WaitForLock(ws, task, now) => AcquireKeepsAnswers(t, ws, task, None, now, id);
    case Release(ws, _, now) => if ws in t.locks { HandedOnKeepsAnswers(t, ws, now, id); }
    case ForceRelease(ws, now) => if ws in t.locks { HandedOnKeepsAnswers(t, ws, now, id); }
    case IsLocked(ws, now) => if ws in t.locks { HandedOnKeepsAnswers(t, ws, now, id); }
    case TimerFires(_) =>
  }

  lemma {:induction false} SettledOnce(t: Table, events: seq<Event>, id: nat)
    requires Inv(t) && id < |t.waits| && t.waits[id].result.Some?
    ensures id < |Run(t, events).waits| && Run(t, events).waits[id] == t.waits[id]
    decreases |events|
  {
    if events != [] {
      NextKeepsInv(t, events[0]);
      NextKeepsAnswers(t, events[0], id);
      SettledOnce(Next(t, events[0]), events[1..], id);
    }
  }

  // ------------------------------------------------------------ a grant lasts

  /** The event takes the entry of `ws` off: its holder or the administration releases it,
      or its time is over when a call for `ws` looks at it. */
  predicate Ends(entry: LockEntry, ws: nat, e: Event) {
    match e
    case Release(w, task, _) => w == ws && task == entry.holder
    case ForceRelease(w, _) => w == ws
    case TimerFires(_) => false
    case _ => e.ws == ws && entry.acquiredAt + entry.maxLockDurationMs < e.now
  }

  /** Every other event leaves the entry as it is, whoever causes it. */
  lemma EntryStays(t: Table, e: Event, ws: nat)
    requires ws in t.locks && !Ends(t.locks[ws], ws, e)
    ensures ws in Next(t, e).locks && Next(t, e).locks[ws] == t.locks[ws]
  {
    match e
    case Acquire(w, task, duration, now) => AcquireLeaves(t, w, task, duration, now, ws);
    case WaitForLock(w, task, now) => AcquireLeaves(t, w, task, None, now, ws);
    case Release(w, task, now) => if w != ws && w in t.locks { HandedOnLeaves(t, w, now, ws); }
    case ForceRelease(w, now) => if w in t.locks { HandedOnLeaves(t, w, now, ws); }
    case IsLocked(w, now) => if w != ws && w in t.locks { HandedOnLeaves(t, w, now, ws); }
    case TimerFires(_) =>
  }

  predicate Untouched(t: Table, t': Table, ws: nat) {
    && (ws in t'.locks <==> ws in t.locks)
    && (ws in t.locks ==> t'.locks[ws] == t.locks[ws])
    && QueueOf(t', ws) == QueueOf(t, ws)
  }

  lemma NotifiedLeaves(t: Table, w: nat, now: int, ws: nat)
    requires w != ws
    ensures Untouched(t, Notified(t, w, now), ws)
  {
    var queue := QueueOf(t, w);
    if queue != [] {
      var t1 := WithQueue(t, w, queue[1..]);
      assert Untouched(t, t1, ws);
      if queue[0] < |t.waits| {
        var t2 := Granted(t1, w, t.waits[queue[0]].task, t.ttl, now);
        assert Untouched(t1, t2, ws) && Untouched(t2, Settled(t2, queue[0], true), ws);
      }
    }
  }

  /** Handing on one lock leaves the others and their queues alone. */
  lemma HandedOnLeaves(t: Table, w: nat, now: int, ws: nat)
    requires w in t.locks && w != ws
    ensures Untouched(t, HandedOn(t, w, now), ws)
  {
    assert Untouched(t, Dropped(t, w), ws);
    NotifiedLeaves(Dropped(t, w), w, now, ws);
  }

  lemma AcquireLeaves(t: Table, w: nat, task: nat, duration: Option<int>, now: int, ws: nat)
    requires w != ws || !CanAcquire(t, ws, now)
    ensures Untouched(t, AfterAcquire(t, w, task, duration, now), ws)
  {
    if CanAcquire(t, w, now) {
      var t1 := if w in t.locks then HandedOn(t, w, now) else t;
      if w in t.locks {
        HandedOnLeaves(t, w, now, ws);
      }
      GrantedLeaves(t1, w, task, if duration.Some? then duration.value else t.ttl, now, ws);
    }
  }

  lemma GrantedLeaves(t: Table, w: nat, task: nat, duration: int, now: int, ws: nat)
    requires w != ws
    ensures Untouched(t, Granted(t, w, task, duration, now), ws)
  {
  }

  /** No event of the run ends the grant. */
  ghost predicate NoneEnds(entry: LockEntry, ws: nat, events: seq<Event>) {
    forall e :: e in events ==> !Ends(entry, ws, e)
  }

  /** A grant lasts until its holder gives it back, it is forced out, or a call for the
      workspace comes after its time. */
  lemma {:induction false} GrantLasts(t: Table, ws: nat, events: seq<Event>)
    requires ws in t.locks && NoneEnds(t.locks[ws], ws, events)
    ensures ws in Run(t, events).locks && Run(t, events).locks[ws] == t.locks[ws]
    decreases |events|
  {
    if events != [] {
      assert events[0] in events;
      EntryStays(t, events[0], ws);
      forall e | e in events[1..] ensures !Ends(t.locks[ws], ws, e) {
        assert e in events;
      }
      GrantLasts(Next(t, events[0]), ws, events[1..]);
    }
  }

  /** A call that comes while the entry stands is refused and, unless it waits, leaves
      everything as it was; so does a release by anyone but the holder. */
  lemma RefusedIsNothing(t: Table, ws: nat, task: nat, duration: Option<int>, now: int)
    requires ws in t.locks
    ensures t.locks[ws].acquiredAt + t.locks[ws].maxLockDurationMs >= now ==>
      AfterAcquire(t, ws, task, duration, now) == t && AfterIsLocked(t, ws, now) == t
    ensures t.locks[ws].holder != task ==> AfterRelease(t, ws, task, now) == t
  {
  }

  /** What a caller that gets the lock holds: an entry in its name from now on, for the
      duration it asked for, or else the default. */
  lemma AcquiredEntry(t: Table, ws: nat, task: nat, duration: Option<int>, now: int)
    requires ws in t.locks ==> t.locks[ws].acquiredAt + t.locks[ws].maxLockDurationMs < now
    ensures var t' := AfterAcquire(t, ws, task, duration, now);
      && ws in t'.locks && t'.locks[ws].holder == task && t'.locks[ws].acquiredAt == now
      && t'.locks[ws].maxLockDurationMs == match duration case Some(d) => d case None => t.ttl
  {
  }

  /** A call that waits is granted at once when no entry stands, and else queues last. */
  lemma WaitExactly(t: Table, ws: nat, task: nat, now: int)
    requires Inv(t)
    ensures var t', n := AfterWait(t, ws, task, now), |t.waits|;
      && |t'.waits| == n + 1 && t'.waits[n].ws == ws && t'.waits[n].task == task
      && if ws in t.locks && t.locks[ws].acquiredAt + t.locks[ws].maxLockDurationMs >= now then
           t'.waits[n].result == None && t'.locks == t.locks && QueueOf(t', ws) == QueueOf(t, ws) + [n]
         else
           t'.waits[n].result == Some(true) && ws in t'.locks && t'.locks[ws] == LockEntry(task, now, t.ttl)
  {
    if ws in t.locks {
      HandedOnExactly(t, ws, now);
    }
  }

  /** A release by the holder, or a forced one, empties the workspace when no one waits, and
      otherwise hands it to the first in the queue, for the default time. */
  lemma ReleasedExactly(t: Table, ws: nat, task: nat, now: int)
    requires Inv(t) && ws in t.locks
    ensures t.locks[ws].holder == task ==> AfterRelease(t, ws, task, now) == AfterForceRelease(t, ws, now)
    ensures var t', queue := AfterForceRelease(t, ws, now), QueueOf(t, ws);
      if queue == [] then ws !in t'.locks
      else
        && queue[0] < |t.waits| == |t'.waits| && t'.waits[queue[0]].result == Some(true)
        && ws in t'.locks && t'.locks[ws] == LockEntry(t.waits[queue[0]].task, now, t.ttl)
        && QueueOf(t', ws) == queue[1..]
  {
    HandedOnExactly(t, ws, now);
  }

  /** A call that waits in vain is told so when its timer fires, once, and leaves the queue;
      no lock changes hands. */
  lemma TimedOutExactly(t: Table, id: nat)
    requires Inv(t) && id < |t.waits|
    ensures AfterTimer(t, id).locks == t.locks && |AfterTimer(t, id).waits| == |t.waits|
    ensures AfterTimer(t, id).waits[id].result == if t.waits[id].result == None then Some(false) else t.waits[id].result
    ensures forall i: nat :: i < |t.waits| && i != id ==> AfterTimer(t, id).waits[i] == t.waits[i]
    ensures forall ws: nat :: id !in QueueOf(AfterTimer(t, id), ws)
  {
    TimerKeepsInv(t, id);
    var t' := AfterTimer(t, id);
    forall ws: nat ensures id !in QueueOf(t', ws) {
      assert QueueOk(t', ws);
      PendingExactly(t'.waits, ws);
    }
  }

  // ------------------------------------------------------------------ no one starves

  /** `n` times over, whoever holds `ws` releases it. */
  function Released(t: Table, ws: nat, n: nat, now: int): Table
    decreases n
  {
    if n == 0 || ws !in t.locks then t
    else Released(AfterRelease(t, ws, t.locks[ws].holder, now), ws, n - 1, now)
  }

  /** A call with `k` others before it has the lock after `k + 1` releases. */
  lemma {:induction false} ServedInTurn(t: Table, ws: nat, k: nat, now: int)
    requires Inv(t) && k < |QueueOf(t, ws)|
    ensures ws in t.locks && QueueOf(t, ws)[k] < |t.waits|
    ensures
      var id, t' := QueueOf(t, ws)[k], Released(t, ws, k + 1, now);
      && |t'.waits| == |t.waits|
      && t'.waits[id] == t.waits[id].(result := Some(true))
      && ws in t'.locks && t'.locks[ws].holder == t.waits[id].task
    decreases k
  {
    assert QueueOk(t, ws);
    PendingExactly(t.waits, ws);
    HandedOnExactly(t, ws, now);
    var t1 := AfterRelease(t, ws, t.locks[ws].holder, now);
    assert Released(t, ws, k + 1, now) == Released(t1, ws, k, now);
    if k > 0 {
      HandedOnKeepsInv(t, ws, now);
      assert QueueOf(t1, ws) == QueueOf(t, ws)[1..];
      ServedInTurn(t1, ws, k - 1, now);
    }
  }

  /** The answer "not locked" is wrong when a queue was waiting for the lock to expire:
      the first of the queue has just been given it. */
  lemma NotLockedExactly(t: Table, ws: nat, now: int)
    requires Inv(t) && !(ws in t.locks && !Expired(t.locks[ws], now))
    ensures ws !in AfterIsLocked(t, ws, now).locks <==> QueueOf(t, ws) == []
  {
    assert QueueOk(t, ws);
    if ws in t.locks {
      HandedOnExactly(t, ws, now);
    }
  }

  /** Such an answer: a caller waits, the lock outlives its time, and asking whether it is
      held says no and gives it to the caller. */
  lemma NotLockedButHeld()
    ensures
      var t := Run(Empty(10), [Acquire(0, 1, None, 0), WaitForLock(0, 2, 5)]);
      && !(0 in t.locks && !Expired(t.locks[0], 11))
      && 0 in AfterIsLocked(t, 0, 11).locks && AfterIsLocked(t, 0, 11).locks[0].holder == 2
  {
    var events := [Acquire(0, 1, None, 0), WaitForLock(0, 2, 5)];
    OneHeldOneWaits();
    var t2 := Run(Empty(10), events);
    assert QueueOf(t2, 0) == [0];
    assert HandedOn(t2, 0, 11).locks[0] == LockEntry(2, 11, 10);
  }

  // -------------------------------------------------------------------- the class

  class Lock {
    const defaultMaxLockDurationMs: int
    var locks: map<nat, LockEntry>
    var waiters: map<nat, seq<nat>>
    var waits: seq<Wait>
    ghost var live: map<nat, multiset<nat>>

    ghost function Now(): Table
      reads this
    {
      Table(defaultMaxLockDurationMs, locks, waiters, waits, live)
    }

    constructor (maxLockDurationMs: int)
      ensures Now() == Empty(maxLockDurationMs) && Inv(Now())
    {
      defaultMaxLockDurationMs := maxLockDurationMs;
      locks, waiters, waits, live := map[], map[], [], map[];
      new;
      EmptyInv(maxLockDurationMs);
    }

    method AcquireLock(ws: nat, task: nat, duration: Option<int>, now: int) returns (ok: bool)
      requires ws in locks ==> Inv(Now())
      modifies this
      ensures Now() == AfterAcquire(old(Now()), ws, task, duration, now)
      ensures ok == CanAcquire(old(Now()), ws, now)
      decreases if ws in locks then 3 else 0
    {
      if ws in locks {
        if !Expired(locks[ws], now) {
          return false;
        }
        HandOn(ws, now);
      }
      live := live[ws := LiveOf(Now(), ws) + multiset{task}];
      locks := locks[ws := LockEntry(task, now, if duration.Some? then duration.value else defaultMaxLockDurationMs)];
      return true;
    }

    /** The entry is taken off, and the next in the queue is told. */
    method HandOn(ws: nat, now: int)
      requires Inv(Now()) && ws in locks
      modifies this
      ensures Now() == HandedOn(old(Now()), ws, now)
      decreases 2
    {
      assert QueueOk(Now(), ws);
      PendingExactly(waits, ws);
      live := live[ws := LiveOf(Now(), ws) - multiset{locks[ws].holder}];
      locks := locks - {ws};
      if ws in waiters && |waiters[ws]| > 0 {
        var queue := waiters[ws];
        var next := queue[0];
        queue := queue[1..];
        waiters := if |queue| == 0 then waiters - {ws} else waiters[ws := queue];
        OnRelease(next, now);
      }
    }

    /** A waiter is told that its lock was dropped. It tries for it, and no one has come
        in between, so it has it: a waiter is never queued a second time. */
    method OnRelease(id: nat, now: int)
      requires id < |waits| && waits[id].ws !in locks
      modifies this
      ensures Now() == if old(waits[id].result.Some?) then old(Now()) else
        Settled(Granted(old(Now()), old(waits[id].ws), old(waits[id].task), defaultMaxLockDurationMs, now), id, true)
      decreases 1
    {
      if waits[id].result.Some? {
        return;
      }
      var ok := AcquireLock(waits[id].ws, waits[id].task, None, now);
      assert ok;
      waits := waits[id := waits[id].(result := Some(true))];
    }

    method ReleaseLock(ws: nat, task: nat, now: int) returns (ok: bool)
      requires Inv(Now())
      modifies this
      ensures Now() == AfterRelease(old(Now()), ws, task, now)
      ensures ok == (ws in old(locks) && old(locks)[ws].holder == task)
    {
      if ws !in locks || locks[ws].holder != task {
        return false;
      }
      HandOn(ws, now);
      return true;
    }

    method ForceReleaseLock(ws: nat, now: int) returns (ok: bool)
      requires Inv(Now())
      modifies this
      ensures Now() == AfterForceRelease(old(Now()), ws, now)
      ensures ok == (ws in old(locks))
    {
      if ws !in locks {
        return false;
      }
      HandOn(ws, now);
      return true;
    }

    method CheckLocked(ws: nat, now: int) returns (locked: bool)
      requires Inv(Now())
      modifies this
      ensures Now() == AfterIsLocked(old(Now()), ws, now)
      ensures locked == (ws in old(locks) && !Expired(old(locks)[ws], now))
    {
      if ws !in locks {
        return false;
      }
      if Expired(locks[ws], now) {
        HandOn(ws, now);
        return false;
      }
      return true;
    }

    /** A call that waits: its place among the waits is `id`. */
    method Await(ws: nat, task: nat, now: int) returns (id: nat)
      requires Inv(Now())
      modifies this
      ensures Now() == AfterWait(old(Now()), ws, task, now)
      ensures id == |old(waits)|
    {
      id := |waits|;
      ghost var before := Now();
      var ok := AcquireLock(ws, task, None, now);
      if ok {
        if ws in before.locks {
          HandedOnExactly(before, ws, now);
        }
        waits := waits + [Wait(ws, task, Some(true))];
        return;
      }
      waits := waits + [Wait(ws, task, None)];
      var queue := if ws in waiters then waiters[ws] else [];
      waiters := waiters[ws := queue + [id]];
    }

    /** The timer of a waiting call goes off. */
    method TimeOut(id: nat)
      requires Inv(Now()) && id < |waits|
      modifies this
      ensures Now() == AfterTimer(old(Now()), id)
    {
      if waits[id].result.Some? {
        return;
      }
      var ws := waits[id].ws;
      assert QueueOk(Now(), ws);
      waits := waits[id := waits[id].(result := Some(false))];
      if ws in waiters {
        var queue := Without(waiters[ws], id);
        waiters := if |queue| == 0 then waiters - {ws} else waiters[ws := queue];
      }
    }
  }
}
