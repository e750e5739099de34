/** The execution budget: slots, a cost total and a sliding-window rate limit kept in
    a ring buffer that is proved to be a queue of time stamps. */
module ExecutionBudget {
  import opened Wrappers

  const WINDOW_MS: int := 1000

  /** What eviction leaves of a queue of time stamps: the part from the first one
      inside the window on. */
  function DropExpired(s: seq<int>, windowStart: int): seq<int> {
    if s == [] || s[0] > windowStart then s else DropExpired(s[1..], windowStart)
  }

  lemma {:induction false} DropExpiredIs(s: seq<int>, windowStart: int, k: nat)
    requires k <= |s| && forall i :: 0 <= i < k ==> s[i] <= windowStart
    requires k == |s| || s[k] > windowStart
    ensures DropExpired(s, windowStart) == s[k..]
  {
    if k > 0 {
      DropExpiredIs(s[1..], windowStart, k - 1);
      assert s[1..][k - 1..] == s[k..];
    }
  }

  lemma SmallMod(x: int, m: int)
    requires m >= 1 && 0 <= x < 2 * m
    ensures x % m == if x < m then x else x - m
  {
    if x >= m {
      assert x % m == (x - m) % m;
    }
  }

  /** Where the i-th oldest of `count` entries lies when the next goes to `head`. */
  function Slot(capacity: int, head: int, count: int, i: int): int {
    if head - count + i < 0 then head - count + i + capacity else head - count + i
  }

  /** The ring read as a queue, oldest entry first. */
  ghost function RingContents(ring: seq<int>, head: int, count: int): (q: seq<int>)
    requires 0 <= head < |ring| && 0 <= count <= |ring|
    ensures |q| == count
    ensures forall i :: 0 <= i < count ==> q[i] == ring[Slot(|ring|, head, count, i)]
  {
    seq(count, i requires 0 <= i < count => ring[Slot(|ring|, head, count, i)])
  }

  /** Evicting the oldest entries is lowering the count. */
  lemma EvictedContents(ring: seq<int>, head: int, count: int, evicted: int)
    requires 0 <= head < |ring| && 0 <= evicted <= count <= |ring|
    ensures RingContents(ring, head, count - evicted) == RingContents(ring, head, count)[evicted..]
  {
    var q, rest := RingContents(ring, head, count), RingContents(ring, head, count - evicted);
    forall i | 0 <= i < |rest| ensures rest[i] == q[evicted..][i] {
      assert Slot(|ring|, head, count - evicted, i) == Slot(|ring|, head, count, evicted + i);
    }
  }

  class RpsRingBuffer {
    const buffer: array<int>
    const capacity: int
    var head: int       // next write position
    var count: int      // number of valid entries

    ghost predicate Valid()
      reads this
    {
      capacity >= 1 && buffer.Length == capacity && 0 <= head < capacity && 0 <= count <= capacity
    }

    ghost function Contents(): seq<int>
      requires Valid()
      reads this, buffer
    {
      RingContents(buffer[..], head, count)
    }

    constructor (limit: nat)
      ensures Valid() && fresh(buffer) && capacity == limit + 1
      ensures Contents() == []
    {
      capacity := limit + 1;
      buffer := new int[limit + 1](_ => 0);
      head, count := 0, 0;
    }

    /** Evicts what has left the window and returns how much is left. */
    method CountInWindow(windowStart: int) returns (n: int)
      requires Valid()
      modifies this`count
      ensures Valid() && n == count == |Contents()| && count <= old(count)
      ensures Contents() == DropExpired(old(Contents()), windowStart)
    {
      ghost var before := Contents();
      SmallMod(head - count + capacity, capacity);
      var tail := (head - count + capacity) % capacity;
      var evicted := 0;
      while evicted < count
        invariant Valid() && Contents() == before && count == old(count)
        invariant tail == if head - count < 0 then head - count + capacity else head - count
        invariant 0 <= evicted <= count
        invariant forall k :: 0 <= k < evicted ==> before[k] <= windowStart
      {
        SmallMod(tail + evicted, capacity);
        var idx := (tail + evicted) % capacity;
        assert before[evicted] == buffer[..][Slot(capacity, head, count, evicted)] == buffer[idx];
        if buffer[idx] > windowStart {
          break;
        }
        evicted := evicted + 1;
      }
      DropExpiredIs(before, windowStart, evicted);
      EvictedContents(buffer[..], head, count, evicted);
      count := count - evicted;
      return count;
    }

    /** Adds a time stamp. A full buffer would lose its oldest entry and its bearings. */
    method Push(timestamp: int)
      requires Valid()
      modifies this`head, this`count, buffer
      ensures Valid() <==> old(count) < capacity
      ensures Valid() ==> Contents() == old(Contents()) + [timestamp]
    {
      ghost var before := Contents();
      buffer[head] := timestamp;
      SmallMod(head + 1, capacity);
      head := (head + 1) % capacity;
      count := count + 1;
      if count <= capacity {
        assert Contents() == before + [timestamp];
      }
    }
  }

  // ---------------------------------------------------------------- the budget

  datatype Config = Config(maxConcurrency: int, maxRps: nat, maxCostBudget: Option<real>)

  datatype Reason = BUDGET_EXHAUSTED | CONCURRENCY_LIMIT | RATE_LIMIT

  /** The limits of a job that matter here. */
  datatype Limits = Limits(maxAttempts: int, costHint: Option<real>)

  /** The value of the three fields; `recent` is the content of the ring. */
  datatype Budget = Budget(activeSlots: int, cumulativeCost: real, recent: seq<int>)

  function Recent(b: Budget, now: int): seq<int> {
    DropExpired(b.recent, now - WINDOW_MS)
  }

  function Cost(o: Option<real>): real {
    if o.Some? then o.value else 0.0
  }

  predicate OverCost(c: Config, b: Budget, cost: Option<real>) {
    cost.Some? && c.maxCostBudget.Some? && b.cumulativeCost + cost.value > c.maxCostBudget.value
  }

  /** Why a job may not be issued, if it may not. */
  function Refusal(c: Config, b: Budget, l: Limits, attemptIndex: int, now: int): Option<Reason> {
    if attemptIndex >= l.maxAttempts then Some(BUDGET_EXHAUSTED)
    else if b.activeSlots >= c.maxConcurrency then Some(CONCURRENCY_LIMIT)
    else if |Recent(b, now)| >= c.maxRps then Some(RATE_LIMIT)
    else if OverCost(c, b, l.costHint) then Some(BUDGET_EXHAUSTED)
    else None
  }

  /** Whether the rate is looked at, which is when the ring is trimmed. */
  function AfterCanIssue(c: Config, b: Budget, l: Limits, attemptIndex: int, now: int): Budget {
    if attemptIndex >= l.maxAttempts || b.activeSlots >= c.maxConcurrency then b
    else b.(recent := Recent(b, now))
  }

  predicate CanConsume(c: Config, b: Budget, cost: Option<real>, now: int) {
    |Recent(b, now)| < c.maxRps && !OverCost(c, b, cost)
  }

  function AfterConsume(c: Config, b: Budget, cost: Option<real>, now: int): Budget {
    if CanConsume(c, b, cost, now)
    then Budget(b.activeSlots + 1, b.cumulativeCost + Cost(cost), Recent(b, now) + [now])
    else b.(recent := Recent(b, now))
  }

  function Clamp(x: real): real {
    if x > 0.0 then x else 0.0
  }

  function AfterRelease(b: Budget, cost: Option<real>): Budget {
    b.(activeSlots := if b.activeSlots > 0 then b.activeSlots - 1 else b.activeSlots,
       cumulativeCost := if cost.Some? then Clamp(b.cumulativeCost - cost.value) else b.cumulativeCost)
  }

  class BudgetKeeper {
    const config: Config
    var activeSlots: int
    var cumulativeCost: real
    const rpsRing: RpsRingBuffer

    ghost predicate Valid()
      reads this, rpsRing
    {
      rpsRing.Valid() && rpsRing.capacity == config.maxRps + 1 && rpsRing.count <= config.maxRps
    }

    ghost function Now(): Budget
      requires Valid()
      reads this, rpsRing, rpsRing.buffer
    {
      Budget(activeSlots, cumulativeCost, rpsRing.Contents())
    }

    constructor (config: Config)
      ensures Valid() && this.config == config && fresh(rpsRing) && fresh(rpsRing.buffer)
      ensures Now() == Budget(0, 0.0, [])
    {
      this.config := config;
      activeSlots, cumulativeCost := 0, 0.0;
      rpsRing := new RpsRingBuffer(config.maxRps);
    }

    method CanIssue(l: Limits, attemptIndex: int, now: int) returns (refusal: Option<Reason>)
      requires Valid()
      modifies rpsRing
      ensures Valid()
      ensures refusal == Refusal(config, old(Now()), l, attemptIndex, now)
      ensures Now() == AfterCanIssue(config, old(Now()), l, attemptIndex, now)
    {
      if attemptIndex >= l.maxAttempts {
        return Some(BUDGET_EXHAUSTED);
      }
      if activeSlots >= config.maxConcurrency {
        return Some(CONCURRENCY_LIMIT);
      }
      var recentCount := rpsRing.CountInWindow(now - WINDOW_MS);
      if recentCount >= config.maxRps {
        return Some(RATE_LIMIT);
      }
      if l.costHint.Some? && config.maxCostBudget.Some? &&
         cumulativeCost + l.costHint.value > config.maxCostBudget.value {
        return Some(BUDGET_EXHAUSTED);
      }
      return None;
    }

    method Consume(cost: Option<real>, now: int) returns (ok: bool)
      requires Valid()
      modifies this, rpsRing, rpsRing.buffer
      ensures Valid()
      ensures ok <==> CanConsume(config, old(Now()), cost, now)
      ensures Now() == AfterConsume(config, old(Now()), cost, now)
    {
      var rpsCount := rpsRing.CountInWindow(now - WINDOW_MS);
      if rpsCount >= config.maxRps {
        return false;
      }
      if cost.Some? && config.maxCostBudget.Some? && cumulativeCost + cost.value > config.maxCostBudget.value {
        return false;
      }
      activeSlots := activeSlots + 1;
      rpsRing.Push(now);
      if cost.Some? {
        cumulativeCost := cumulativeCost + cost.value;
      }
      return true;
    }

    method Release(cost: Option<real>)
      requires Valid()
      modifies this
      ensures Valid()
      ensures Now() == AfterRelease(old(Now()), cost)
    {
      if activeSlots > 0 {
        activeSlots := activeSlots - 1;
      }
      if cost.Some? {
        cumulativeCost := Clamp(cumulativeCost - cost.value);
      }
    }
  }
}
