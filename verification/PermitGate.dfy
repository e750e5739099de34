/** The permit gate over one execution budget: requests, revocations, completions and
    deadline timers in any order. Slots, costs and the rate are conserved. */
module PermitGate {
  import opened Wrappers
  import opened ExecutionBudget

  type PermitId = nat

  datatype Backpressure = ACCEPT | DEGRADE | DEFER | REJECT

  datatype Permit = Permit(cost: Option<real>, deadlineAt: int)

  datatype Job = Job(limits: Limits, timeoutMs: int)

  /** What the surroundings answer and when: backpressure, the circuit breaker, a fresh
      permit id, and the clock at the two places where the budget reads it and where
      the deadline is set. */
  datatype Answers = Answers(
    pressure: Backpressure, circuitOpen: bool, id: PermitId, checkAt: int, issueAt: int, consumeAt: int)

  datatype Reply = Granted(id: PermitId) | Shed | Deferred | CircuitOpen | Refused(reason: Reason) | LostRace

  /** The budget and the two maps of the gate; `granted` records when permits were
      granted, `aborted` whose controllers were aborted, `clock` the latest time read. */
  datatype Gate = Gate(
    budget: Budget, permits: map<PermitId, Permit>, timers: map<PermitId, int>,
    granted: seq<int>, aborted: set<PermitId>, clock: int)

  function Fresh(startedAt: int): Gate {
    Gate(Budget(0, 0.0, []), map[], map[], [], {}, startedAt)
  }

  /** `Math.ceil`. */
  function Ceil(x: real): real {
    if x.Floor as real == x then x else (x.Floor + 1) as real
  }

  function GrantedCost(pressure: Backpressure, hint: Option<real>): Option<real> {
    if pressure == DEGRADE && hint.Some? then Some(Ceil(hint.value / 2.0)) else hint
  }

  function AfterRequest(c: Config, g: Gate, job: Job, attemptIndex: int, a: Answers): (Gate, Reply) {
    if a.pressure == REJECT then (g, Shed)
    else if a.pressure == DEFER then (g, Deferred)
    else if a.circuitOpen then (g, CircuitOpen)
    else
      var refusal := Refusal(c, g.budget, job.limits, attemptIndex, a.checkAt);
      var b := AfterCanIssue(c, g.budget, job.limits, attemptIndex, a.checkAt);
      if refusal.Some? then (g.(budget := b, clock := a.checkAt), Refused(refusal.value))
      else
        var cost := GrantedCost(a.pressure, job.limits.costHint);
        var b' := AfterConsume(c, b, cost, a.consumeAt);
        if !CanConsume(c, b, cost, a.consumeAt) then (g.(budget := b', clock := a.consumeAt), LostRace)
        else
          (Gate(b', g.permits[a.id := Permit(cost, a.issueAt + job.timeoutMs)],
                g.timers[a.id := a.issueAt + job.timeoutMs], g.granted + [a.consumeAt], g.aborted, a.consumeAt),
           Granted(a.id))
  }

  function AfterComplete(g: Gate, id: PermitId): Gate {
    if id !in g.permits then g
    else
      Gate(AfterRelease(g.budget, g.permits[id].cost), g.permits - {id}, g.timers - {id},
           g.granted, g.aborted, g.clock)
  }

  function AfterRevoke(g: Gate, id: PermitId): Gate {
    if id !in g.permits then g else AfterComplete(g, id).(aborted := g.aborted + {id})
  }

  datatype Event =
    | Request(job: Job, attemptIndex: int, answers: Answers)
    | Revoke(id: PermitId)
    | Complete(id: PermitId)
    | Deadline(id: PermitId)      // the timer of `id` fires

  function Apply(c: Config, g: Gate, e: Event): Gate {
    match e
    case Request(job, attemptIndex, a) => AfterRequest(c, g, job, attemptIndex, a).0
    case Revoke(id) => AfterRevoke(g, id)
    case Complete(id) => AfterComplete(g, id)
    case Deadline(id) => AfterRevoke(g, id)
  }

  /** Costs are not negative, ids fresh, the clock never goes back and only a timer
      that is set can fire. */
  ghost predicate Allowed(g: Gate, e: Event) {
    match e
    case Request(job, _, a) =>
      && a.id !in g.permits
      && (job.limits.costHint.Some? ==> job.limits.costHint.value >= 0.0)
      && g.clock <= a.checkAt <= a.issueAt <= a.consumeAt
    case Deadline(id) => id in g.timers
    case _ => true
  }

  // ----------------------------------------------------------------- cost totals

  ghost function Total(m: map<PermitId, Permit>): real {
    if m.Keys == {} then 0.0
    else
      var id :| id in m.Keys;
      Cost(m[id].cost) + Total(m - {id})
  }

  lemma {:induction false} TotalWithout(m: map<PermitId, Permit>, id: PermitId)
    requires id in m
    ensures Total(m) == Cost(m[id].cost) + Total(m - {id})
    decreases |m|
  {
    var x :| x in m.Keys && Total(m) == Cost(m[x].cost) + Total(m - {x});
    if x != id {
      TotalWithout(m - {x}, id);
      TotalWithout(m - {id}, x);
      assert m - {x} - {id} == m - {id} - {x};
    }
  }

  lemma TotalWith(m: map<PermitId, Permit>, id: PermitId, p: Permit)
    requires id !in m
    ensures Total(m[id := p]) == Total(m) + Cost(p.cost)
  {
    TotalWithout(m[id := p], id);
    assert m[id := p] - {id} == m;
  }

  ghost predicate CostsNonNegative(m: map<PermitId, Permit>) {
    forall id {:trigger m[id]} :: id in m ==> Cost(m[id].cost) >= 0.0
  }

  lemma {:induction false} TotalNonNegative(m: map<PermitId, Permit>)
    requires CostsNonNegative(m)
    ensures Total(m) >= 0.0
    decreases |m|
  {
    if m.Keys != {} {
      var id :| id in m.Keys && Total(m) == Cost(m[id].cost) + Total(m - {id});
      TotalNonNegative(m - {id});
    }
  }

  // -------------------------------------------------------------- the invariant

  ghost predicate Ascending(s: seq<int>) {
    forall i, j :: 0 <= i <= j < |s| ==> s[i] <= s[j]
  }

  ghost predicate SpacedAt(maxRps: nat, s: seq<int>, i: int) {
    0 <= i < |s| - maxRps ==> s[i + maxRps] - s[i] >= WINDOW_MS
  }

  /** Any `maxRps` + 1 grants in a row span at least the window. */
  ghost predicate Spaced(maxRps: nat, s: seq<int>) {
    forall i {:trigger SpacedAt(maxRps, s, i)} :: SpacedAt(maxRps, s, i)
  }

  /** The ring holds the latest grants; what it dropped has left the window. */
  ghost predicate RateOk(maxRps: nat, granted: seq<int>, recent: seq<int>, clock: int) {
    && Ascending(granted) && Spaced(maxRps, granted)
    && |recent| <= maxRps && |recent| <= |granted|
    && recent == granted[|granted| - |recent|..]
    && (forall i :: 0 <= i < |granted| ==> granted[i] <= clock)
    && (forall i :: 0 <= i < |granted| - |recent| ==> granted[i] <= clock - WINDOW_MS)
  }

  ghost predicate SlotsOk(c: Config, g: Gate) {
    && g.budget.activeSlots == |g.permits|
    && g.budget.activeSlots <= if c.maxConcurrency > 0 then c.maxConcurrency else 0
  }

  ghost predicate CostOk(c: Config, g: Gate) {
    && CostsNonNegative(g.permits)
    && g.budget.cumulativeCost == Total(g.permits)
    && (c.maxCostBudget.Some? ==> g.budget.cumulativeCost <= Clamp(c.maxCostBudget.value))
  }

  /** Every active permit has one timer, set to its deadline. */
  ghost predicate TimersOk(g: Gate) {
    g.timers == map id | id in g.permits :: g.permits[id].deadlineAt
  }

  ghost predicate Inv(c: Config, g: Gate) {
    && TimersOk(g)
    && SlotsOk(c, g)
    && CostOk(c, g)
    && RateOk(c.maxRps, g.granted, g.budget.recent, g.clock)
  }

  lemma {:induction false} DropExpiredSuffix(s: seq<int>, windowStart: int) returns (k: nat)
    ensures k <= |s| && DropExpired(s, windowStart) == s[k..]
    ensures forall i :: 0 <= i < k ==> s[i] <= windowStart
    ensures k < |s| ==> s[k] > windowStart
  {
    if s == [] || s[0] > windowStart {
      k := 0;
    } else {
      var k' := DropExpiredSuffix(s[1..], windowStart);
      k := k' + 1;
      assert s[1..][k'..] == s[k..];
      forall i | 0 <= i < k ensures s[i] <= windowStart {
        if i > 0 {
          assert s[i] == s[1..][i - 1];
        }
      }
    }
  }

  /** Looking at the rate at a later time keeps the ring in order. */
  lemma TrimKeepsRate(maxRps: nat, granted: seq<int>, recent: seq<int>, clock: int, now: int)
    requires RateOk(maxRps, granted, recent, clock) && clock <= now
    ensures RateOk(maxRps, granted, DropExpired(recent, now - WINDOW_MS), now)
  {
    var k := DropExpiredSuffix(recent, now - WINDOW_MS);
    var n := |granted| - |recent|;
    var rest := recent[k..];
    assert rest == granted[|granted| - |rest|..];
    forall i | 0 <= i < |granted| - |rest| ensures granted[i] <= now - WINDOW_MS {
      if i >= n {
        assert granted[i] == recent[i - n];
      }
    }
  }

  /** A grant when fewer than `maxRps` are in the window keeps all grants spaced. */
  lemma GrantKeepsRate(maxRps: nat, granted: seq<int>, recent: seq<int>, now: int)
    requires RateOk(maxRps, granted, recent, now) && |recent| < maxRps
    ensures RateOk(maxRps, granted + [now], recent + [now], now)
  {
    var all := granted + [now];
    forall i ensures SpacedAt(maxRps, all, i) {
      assert SpacedAt(maxRps, granted, i);
      if 0 <= i && i + maxRps == |granted| {
        assert i < |granted| - |recent|;
      }
    }
    assert recent + [now] == all[|all| - |recent + [now]|..];
  }

  /** What a request can do to the ring, the grants and the clock. */
  ghost predicate RateMoved(maxRps: nat, g: Gate, g': Gate, checkAt: int, consumeAt: int) {
    var checked := Recent(g.budget, checkAt);
    var left := DropExpired(checked, consumeAt - WINDOW_MS);
    || (g'.granted == g.granted && g'.budget.recent == g.budget.recent && (g'.clock == g.clock || g'.clock == checkAt))
    || (g'.granted == g.granted && g'.budget.recent == checked && g'.clock == checkAt)
    || (g'.granted == g.granted && g'.budget.recent == left && g'.clock == consumeAt)
    || (|left| < maxRps && g'.granted == g.granted + [consumeAt] && g'.budget.recent == left + [consumeAt] &&
        g'.clock == consumeAt)
  }

  lemma RequestMovesRate(c: Config, g: Gate, job: Job, attemptIndex: int, a: Answers)
    ensures RateMoved(c.maxRps, g, AfterRequest(c, g, job, attemptIndex, a).0, a.checkAt, a.consumeAt)
  {
  }

  lemma MovedKeepsRate(maxRps: nat, g: Gate, g': Gate, checkAt: int, consumeAt: int)
    requires RateOk(maxRps, g.granted, g.budget.recent, g.clock) && g.clock <= checkAt <= consumeAt
    requires RateMoved(maxRps, g, g', checkAt, consumeAt)
    ensures RateOk(maxRps, g'.granted, g'.budget.recent, g'.clock)
  {
    var checked := Recent(g.budget, checkAt);
    TrimKeepsRate(maxRps, g.granted, g.budget.recent, g.clock, checkAt);
    TrimKeepsRate(maxRps, g.granted, checked, checkAt, consumeAt);
    var left := DropExpired(checked, consumeAt - WINDOW_MS);
    if |left| < maxRps {
      GrantKeepsRate(maxRps, g.granted, left, consumeAt);
    }
  }

  lemma RequestKeepsRate(c: Config, g: Gate, job: Job, attemptIndex: int, a: Answers)
    requires RateOk(c.maxRps, g.granted, g.budget.recent, g.clock) && Allowed(g, Request(job, attemptIndex, a))
    ensures var g' := AfterRequest(c, g, job, attemptIndex, a).0;
      RateOk(c.maxRps, g'.granted, g'.budget.recent, g'.clock)
  {
    RequestMovesRate(c, g, job, attemptIndex, a);
    MovedKeepsRate(c.maxRps, g, AfterRequest(c, g, job, attemptIndex, a).0, a.checkAt, a.consumeAt);
  }

  lemma RequestKeepsCost(c: Config, g: Gate, job: Job, attemptIndex: int, a: Answers)
    requires CostOk(c, g) && Allowed(g, Request(job, attemptIndex, a))
    ensures CostOk(c, AfterRequest(c, g, job, attemptIndex, a).0)
  {
    var (g', reply) := AfterRequest(c, g, job, attemptIndex, a);
    if reply.Granted? {
      TotalWith(g.permits, a.id, g'.permits[a.id]);
    }
  }

  lemma RequestKeepsInv(c: Config, g: Gate, job: Job, attemptIndex: int, a: Answers)
    requires Inv(c, g) && Allowed(g, Request(job, attemptIndex, a))
    ensures Inv(c, AfterRequest(c, g, job, attemptIndex, a).0)
  {
    RequestKeepsRate(c, g, job, attemptIndex, a);
    RequestKeepsCost(c, g, job, attemptIndex, a);
  }

  /** The clamps of `release` never act: the slot and the cost being given back are
      there. */
  lemma ClampsNeverAct(c: Config, g: Gate, id: PermitId)
    requires Inv(c, g) && id in g.permits
    ensures g.budget.activeSlots > 0
    ensures g.budget.cumulativeCost - Cost(g.permits[id].cost) == Total(g.permits - {id}) >= 0.0
  {
    TotalWithout(g.permits, id);
    TotalNonNegative(g.permits - {id});
    assert |g.permits - {id}| == |g.permits| - 1;
  }

  lemma CompleteKeepsInv(c: Config, g: Gate, id: PermitId)
    requires Inv(c, g)
    ensures Inv(c, AfterComplete(g, id))
  {
    if id in g.permits {
      ClampsNeverAct(c, g, id);
      assert |g.permits - {id}| == |g.permits| - 1;
      assert Cost(g.permits[id].cost) >= 0.0;
    }
  }

  lemma StepKeepsInv(c: Config, g: Gate, e: Event)
    requires Inv(c, g) && Allowed(g, e)
    ensures Inv(c, Apply(c, g, e))
  {
    match e
    case Request(job, attemptIndex, a) => RequestKeepsInv(c, g, job, attemptIndex, a);
    case Revoke(id) => CompleteKeepsInv(c, g, id);
    case Complete(id) => CompleteKeepsInv(c, g, id);
    case Deadline(id) => CompleteKeepsInv(c, g, id);
  }

  /** A run: the gates it goes through and the events between them. */
  datatype Run = Run(gates: seq<Gate>, events: seq<Event>) {
    ghost predicate StepAt(c: Config, i: nat) {
      i < |events| && i + 1 < |gates| ==> Allowed(gates[i], events[i]) && gates[i + 1] == Apply(c, gates[i], events[i])
    }

    ghost predicate Of(c: Config, startedAt: int) {
      && |gates| == |events| + 1
      && gates[0] == Fresh(startedAt)
      && forall i: nat {:trigger StepAt(c, i)} :: StepAt(c, i)
    }
  }

  lemma {:induction false} RunKeepsInv(c: Config, startedAt: int, r: Run, i: nat)
    requires r.Of(c, startedAt) && i < |r.gates|
    ensures Inv(c, r.gates[i])
  {
    if i > 0 {
      assert r.StepAt(c, i - 1);
      RunKeepsInv(c, startedAt, r, i - 1);
      StepKeepsInv(c, r.gates[i - 1], r.events[i - 1]);
    }
  }

  /** Permit conservation, over every interleaving: as many slots are taken as permits
      are active, never more than allowed; the cost total is the sum of the active
      permits' costs, within the budget; every active permit has a timer at its deadline. */
  lemma PermitsAreConserved(c: Config, startedAt: int, r: Run, i: nat)
    requires r.Of(c, startedAt) && i < |r.gates|
    ensures var g := r.gates[i];
      && g.timers == (map id | id in g.permits :: g.permits[id].deadlineAt)
      && g.budget.activeSlots == |g.permits|
      && (c.maxConcurrency >= 0 ==> g.budget.activeSlots <= c.maxConcurrency)
      && g.budget.cumulativeCost == Total(g.permits)
      && (c.maxCostBudget.Some? && c.maxCostBudget.value >= 0.0 ==> g.budget.cumulativeCost <= c.maxCostBudget.value)
  {
    RunKeepsInv(c, startedAt, r, i);
  }

  // ------------------------------------------------------ the sliding window

  /** How many of the grants lie in the second up to `t`. */
  function GrantsIn(granted: seq<int>, t: int): nat {
    if granted == [] then 0
    else GrantsIn(granted[..|granted| - 1], t) +
         if t - 1000 < granted[|granted| - 1] <= t then 1 else 0
  }

  lemma {:induction false} NoneIn(granted: seq<int>, t: int)
    requires forall i :: 0 <= i < |granted| ==> granted[i] <= t - WINDOW_MS
    ensures GrantsIn(granted, t) == 0
  {
    if granted != [] {
      NoneIn(granted[..|granted| - 1], t);
    }
  }

  lemma {:induction false} FewIn(granted: seq<int>, k: nat, t: int)
    requires k <= |granted|
    ensures GrantsIn(granted, t) <= GrantsIn(granted[..k], t) + |granted| - k
    decreases |granted| - k
  {
    if k == |granted| {
      assert granted[..k] == granted;
    } else {
      FewIn(granted, k + 1, t);
      assert granted[..k + 1][..k] == granted[..k];
    }
  }

  lemma {:induction false} SpacedIsBounded(maxRps: nat, granted: seq<int>, t: int)
    requires Ascending(granted) && Spaced(maxRps, granted)
    ensures GrantsIn(granted, t) <= maxRps
  {
    if granted != [] {
      var n := |granted| - 1;
      if t - WINDOW_MS < granted[n] <= t && n >= maxRps {
        var k := n + 1 - maxRps;
        FewIn(granted, k, t);
        assert SpacedAt(maxRps, granted, n - maxRps);
        NoneIn(granted[..k], t);
      } else if t - WINDOW_MS < granted[n] <= t {
        FewIn(granted, 0, t);
        assert granted[..0] == [];
      } else {
        forall i ensures SpacedAt(maxRps, granted[..n], i) {
          assert SpacedAt(maxRps, granted, i);
        }
        SpacedIsBounded(maxRps, granted[..n], t);
      }
    }
  }

  /** For every time, at most `maxRps` permits were granted in the second up to it. */
  lemma RateIsBounded(c: Config, startedAt: int, r: Run, i: nat, t: int)
    requires r.Of(c, startedAt) && i < |r.gates|
    ensures GrantsIn(r.gates[i].granted, t) <= c.maxRps
  {
    RunKeepsInv(c, startedAt, r, i);
    SpacedIsBounded(c.maxRps, r.gates[i].granted, t);
  }

  /** The grants later than `lo`, in order. */
  function LaterThan(s: seq<int>, lo: int): seq<int> {
    if s == [] then []
    else LaterThan(s[..|s| - 1], lo) + if s[|s| - 1] > lo then [s[|s| - 1]] else []
  }

  lemma {:induction false} LaterThanIsSuffix(s: seq<int>, lo: int, k: nat)
    requires k <= |s| && (forall i :: 0 <= i < k ==> s[i] <= lo) && (forall i :: k <= i < |s| ==> s[i] > lo)
    ensures LaterThan(s, lo) == s[k..]
  {
    if s != [] {
      var n := |s| - 1;
      var front := s[..n];
      if k <= n {
        LaterThanIsSuffix(front, lo, k);
        assert front[k..] + [s[n]] == s[k..];
      } else {
        LaterThanIsSuffix(front, lo, n);
        assert s[n] <= lo && s[k..] == [];
      }
    }
  }

  /** Whenever the rate is looked at, the ring holds exactly the unexpired grants, in
      the order in which they were made. */
  lemma RingIsTheWindow(c: Config, g: Gate, now: int)
    requires Inv(c, g) && g.clock <= now
    ensures Recent(g.budget, now) == LaterThan(g.granted, now - 1000)
  {
    var lo := now - WINDOW_MS;
    var recent, n := g.budget.recent, |g.granted| - |g.budget.recent|;
    var k := DropExpiredSuffix(recent, lo);
    forall i | 0 <= i < n + k ensures g.granted[i] <= lo {
      if i >= n {
        assert g.granted[i] == recent[i - n];
      }
    }
    forall i | n + k <= i < |g.granted| ensures g.granted[i] > lo {
      assert g.granted[n + k] == recent[k];
    }
    LaterThanIsSuffix(g.granted, lo, n + k);
    assert recent[k..] == g.granted[n + k..];
  }

  lemma {:induction false} LaterThanCounts(s: seq<int>, now: int)
    requires forall i :: 0 <= i < |s| ==> s[i] <= now
    ensures |LaterThan(s, now - WINDOW_MS)| == GrantsIn(s, now)
  {
    if s != [] {
      LaterThanCounts(s[..|s| - 1], now);
    }
  }

  /** Why a job is refused, said without the counters: by the permits that are active,
      the permits granted in the last second, and the costs of the active permits. */
  lemma RefusedExactly(c: Config, g: Gate, l: Limits, attemptIndex: int, now: int)
    requires Inv(c, g) && g.clock <= now
    ensures Refusal(c, g.budget, l, attemptIndex, now) ==
      if attemptIndex >= l.maxAttempts then Some(BUDGET_EXHAUSTED)
      else if |g.permits| >= c.maxConcurrency then Some(CONCURRENCY_LIMIT)
      else if GrantsIn(g.granted, now) >= c.maxRps then Some(RATE_LIMIT)
      else if l.costHint.Some? && c.maxCostBudget.Some? && Total(g.permits) + l.costHint.value > c.maxCostBudget.value
      then Some(BUDGET_EXHAUSTED)
      else None
  {
    RingIsTheWindow(c, g, now);
    LaterThanCounts(g.granted, now);
  }

  // ---------------------------------------------------------- what is granted

  lemma CeilExactly(x: real)
    ensures Ceil(x).Floor as real == Ceil(x) && x <= Ceil(x) < x + 1.0
  {
  }

  /** A granted permit costs the hint, or under degradation half of it rounded up; its
      deadline is the time-out after it was issued; and exactly this cost, one slot and one
      grant are taken. */
  lemma GrantedExactly(c: Config, g: Gate, job: Job, attemptIndex: int, a: Answers)
    requires AfterRequest(c, g, job, attemptIndex, a).1.Granted?
    ensures var (g', reply) := AfterRequest(c, g, job, attemptIndex, a);
      var hint := job.limits.costHint;
      && reply.id == a.id && a.id in g'.permits
      && var p := g'.permits[a.id];
      && (hint.None? ==> p.cost.None?)
      && (hint.Some? && a.pressure == ACCEPT ==> p.cost == hint)
      && (hint.Some? && a.pressure == DEGRADE ==>
            && p.cost.Some? && p.cost.value.Floor as real == p.cost.value
            && hint.value / 2.0 <= p.cost.value < hint.value / 2.0 + 1.0)
      && p.deadlineAt == a.issueAt + job.timeoutMs && a.id in g'.timers && g'.timers[a.id] == p.deadlineAt
      && g'.budget.activeSlots == g.budget.activeSlots + 1
      && g'.budget.cumulativeCost - g.budget.cumulativeCost == (if p.cost.Some? then p.cost.value else 0.0)
      && g'.granted == g.granted + [a.consumeAt] && g'.aborted == g.aborted
      && (forall id :: id in g.permits && id != a.id ==> id in g'.permits && g'.permits[id] == g.permits[id])
      && (forall id :: id in g'.permits && id != a.id ==> id in g.permits)
  {
    if job.limits.costHint.Some? {
      CeilExactly(job.limits.costHint.value / 2.0);
    }
  }

  /** What a request is answered, said without the counters, and what is left as it was when
      it is not granted. */
  lemma AnsweredExactly(c: Config, g: Gate, job: Job, attemptIndex: int, a: Answers)
    requires Inv(c, g) && Allowed(g, Request(job, attemptIndex, a))
    ensures var (g', reply) := AfterRequest(c, g, job, attemptIndex, a);
      var passed := (a.pressure == ACCEPT || a.pressure == DEGRADE) && !a.circuitOpen;
      var hint := job.limits.costHint;
      && (reply == Shed <==> a.pressure == REJECT)
      && (reply == Deferred <==> a.pressure == DEFER)
      && (reply == CircuitOpen <==> (a.pressure == ACCEPT || a.pressure == DEGRADE) && a.circuitOpen)
      && (reply == Refused(CONCURRENCY_LIMIT) <==>
            passed && attemptIndex < job.limits.maxAttempts && |g.permits| >= c.maxConcurrency)
      && (reply == Refused(RATE_LIMIT) <==>
            && passed && attemptIndex < job.limits.maxAttempts && |g.permits| < c.maxConcurrency
            && GrantsIn(g.granted, a.checkAt) >= c.maxRps)
      && (reply == Refused(BUDGET_EXHAUSTED) <==>
            passed && (attemptIndex >= job.limits.maxAttempts ||
              (&& |g.permits| < c.maxConcurrency && GrantsIn(g.granted, a.checkAt) < c.maxRps
               && hint.Some? && c.maxCostBudget.Some? && Total(g.permits) + hint.value > c.maxCostBudget.value)))
      && (!reply.Granted? ==>
            && g'.permits == g.permits && g'.timers == g.timers && g'.granted == g.granted && g'.aborted == g.aborted
            && g'.budget.activeSlots == g.budget.activeSlots && g'.budget.cumulativeCost == g.budget.cumulativeCost)
  {
    RefusedExactly(c, g, job.limits, attemptIndex, a.checkAt);
  }

  /** A permit stays as it was granted until it is completed or revoked, or its deadline
      fires; then its slot and its cost are free again, and no other permit changes. */
  lemma PermitEnds(c: Config, g: Gate, e: Event, id: PermitId)
    requires Inv(c, g) && Allowed(g, e) && id in g.permits
    ensures var g' := Apply(c, g, e);
      if (e.Complete? || e.Revoke? || e.Deadline?) && e.id == id then
        && g'.permits == g.permits - {id} && id !in g'.timers
        && g'.budget.activeSlots == g.budget.activeSlots - 1
        && g'.budget.cumulativeCost == g.budget.cumulativeCost - Cost(g.permits[id].cost)
        && g'.aborted == g.aborted + if e.Complete? then {} else {id}
      else id in g'.permits && g'.permits[id] == g.permits[id]
  {
    ClampsNeverAct(c, g, id);
  }

  // ------------------------------------------------------ no race is ever lost

  /** The half cost of a degraded grant is within the hint exactly for a hint of zero
      or of at least one. */
  lemma HalfWithinHint(v: real)
    ensures Ceil(v / 2.0) <= v <==> v == 0.0 || v >= 1.0
  {
    if 1.0 <= v < 2.0 {
      assert (v / 2.0).Floor == 0;
    }
  }

  predicate SafeHint(pressure: Backpressure, hint: Option<real>) {
    pressure != DEGRADE || hint.None? || hint.value == 0.0 || hint.value >= 1.0
  }

  lemma {:induction false} TrimShrinks(s: seq<int>, lo: int, hi: int)
    requires lo <= hi
    ensures DropExpired(DropExpired(s, lo), hi) == DropExpired(s, hi)
    ensures |DropExpired(s, hi)| <= |DropExpired(s, lo)| <= |s|
  {
    if s != [] && s[0] <= lo {
      TrimShrinks(s[1..], lo, hi);
    } else if s != [] && s[0] <= hi {
      DropShortens(s, hi);
    }
  }

  lemma {:induction false} DropShortens(s: seq<int>, lo: int)
    ensures |DropExpired(s, lo)| <= |s|
  {
    if s != [] && s[0] <= lo {
      DropShortens(s[1..], lo);
    }
  }

  /** What the budget allowed it does not refuse a moment later. */
  lemma AllowedIsConsumed(c: Config, b: Budget, l: Limits, attemptIndex: int, pressure: Backpressure, t0: int, t1: int)
    requires t0 <= t1 && Refusal(c, b, l, attemptIndex, t0) == None && SafeHint(pressure, l.costHint)
    ensures CanConsume(c, AfterCanIssue(c, b, l, attemptIndex, t0), GrantedCost(pressure, l.costHint), t1)
  {
    TrimShrinks(b.recent, t0 - WINDOW_MS, t1 - WINDOW_MS);
    if l.costHint.Some? {
      HalfWithinHint(l.costHint.value);
    }
  }

  lemma NoRaceIsLost(c: Config, g: Gate, job: Job, attemptIndex: int, a: Answers)
    requires a.checkAt <= a.consumeAt && SafeHint(a.pressure, job.limits.costHint)
    ensures AfterRequest(c, g, job, attemptIndex, a).1 != LostRace
  {
    if Refusal(c, g.budget, job.limits, attemptIndex, a.checkAt) == None {
      AllowedIsConsumed(c, g.budget, job.limits, attemptIndex, a.pressure, a.checkAt, a.consumeAt);
    }
  }

  /** Some run of the gate comes to a request with this hint that the budget first allows
      and then refuses. */
  ghost predicate CanLoseRace(c: Config, startedAt: int, pressure: Backpressure, hint: Option<real>) {
    exists r: Run, job: Job, attemptIndex: int, a: Answers ::
      LosesRace(c, startedAt, r, job, attemptIndex, a) && a.pressure == pressure && job.limits.costHint == hint
  }

  ghost predicate LosesRace(c: Config, startedAt: int, r: Run, job: Job, attemptIndex: int, a: Answers) {
    && r.Of(c, startedAt)
    && Allowed(r.gates[|r.events|], Request(job, attemptIndex, a))
    && AfterRequest(c, r.gates[|r.events|], job, attemptIndex, a).1 == LostRace
  }

  /** A fraction of a unit is rounded up past the hint, and the hint still fits into the
      budget where a whole unit does not: at once when the budget is below one, otherwise
      beside another active permit. */
  predicate Losable(c: Config, pressure: Backpressure, hint: Option<real>) {
    && c.maxConcurrency >= 1 && c.maxRps >= 1
    && pressure == DEGRADE && hint.Some? && 0.0 < hint.value < 1.0
    && c.maxCostBudget.Some? && hint.value <= c.maxCostBudget.value
    && (c.maxConcurrency >= 2 || c.maxCostBudget.value < 1.0)
  }

  lemma HalfOfFraction(v: real)
    requires 0.0 < v < 1.0
    ensures Ceil(v / 2.0) == 1.0
  {
    assert (v / 2.0).Floor == 0;
  }

  lemma LostIsLosable(c: Config, g: Gate, job: Job, attemptIndex: int, a: Answers)
    requires Inv(c, g) && Allowed(g, Request(job, attemptIndex, a))
    requires AfterRequest(c, g, job, attemptIndex, a).1 == LostRace
    ensures Losable(c, a.pressure, job.limits.costHint)
  {
    if SafeHint(a.pressure, job.limits.costHint) {
      NoRaceIsLost(c, g, job, attemptIndex, a);
    }
    HalfOfFraction(job.limits.costHint.value);
    TrimShrinks(g.budget.recent, a.checkAt - WINDOW_MS, a.consumeAt - WINDOW_MS);
    TotalNonNegative(g.permits);
    if c.maxConcurrency == 1 {
      assert g.permits.Keys == {};
    }
  }

  function Asking(limit: int, cost: real): Job {
    Job(Limits(limit, Some(cost)), 5000)
  }

  function At(pressure: Backpressure, id: PermitId, now: int): Answers {
    Answers(pressure, false, id, now, now, now)
  }

  /** With a budget below one the first request can lose its race. */
  lemma LosesAtOnce(c: Config, startedAt: int, v: real)
    requires Losable(c, DEGRADE, Some(v)) && c.maxCostBudget.value < 1.0
    ensures LosesRace(c, startedAt, Run([Fresh(startedAt)], []), Asking(1, v), 0, At(DEGRADE, 0, startedAt))
  {
    HalfOfFraction(v);
  }

  /** The run in which a permit that costs `cost` is granted at the start. */
  function OneGranted(c: Config, startedAt: int, cost: real): Run {
    var first := Request(Asking(1, cost), 0, At(ACCEPT, 0, startedAt));
    Run([Fresh(startedAt), Apply(c, Fresh(startedAt), first)], [first])
  }

  /** Otherwise one granted permit leaves room for the hint and not for a whole unit. The
      second request comes when the first grant has left the rate window. */
  lemma LosesBesideAnother(c: Config, startedAt: int, v: real)
    requires Losable(c, DEGRADE, Some(v)) && c.maxConcurrency >= 2
    ensures LosesRace(c, startedAt, OneGranted(c, startedAt, c.maxCostBudget.value - v),
                      Asking(1, v), 0, At(DEGRADE, 1, startedAt + WINDOW_MS))
  {
    HalfOfFraction(v);
    var r := OneGranted(c, startedAt, c.maxCostBudget.value - v);
    assert r.gates[1].budget == Budget(1, c.maxCostBudget.value - v, [startedAt]);
    assert [startedAt][1..] == [];
    assert Recent(r.gates[1].budget, startedAt + WINDOW_MS) == DropExpired([startedAt][1..], startedAt) == [];
  }

  /** Exactly then can a request lose its race. */
  lemma LosesRaceExactly(c: Config, startedAt: int, pressure: Backpressure, hint: Option<real>)
    ensures CanLoseRace(c, startedAt, pressure, hint) <==> Losable(c, pressure, hint)
  {
    if Losable(c, pressure, hint) {
      if c.maxCostBudget.value < 1.0 {
        LosesAtOnce(c, startedAt, hint.value);
      } else {
        LosesBesideAnother(c, startedAt, hint.value);
      }
    }
    if r: Run, job: Job, attemptIndex: int, a: Answers :|
      LosesRace(c, startedAt, r, job, attemptIndex, a) && a.pressure == pressure && job.limits.costHint == hint
    {
      RunKeepsInv(c, startedAt, r, |r.events|);
      LostIsLosable(c, r.gates[|r.events|], job, attemptIndex, a);
    }
  }

  /** Revoking or a deadline aborts that permit's controller and no other; completing
      aborts none. A second release of the same permit does nothing. */
  lemma ReleasedOnce(g: Gate, id: PermitId)
    ensures AfterComplete(AfterComplete(g, id), id) == AfterComplete(g, id)
    ensures AfterRevoke(AfterComplete(g, id), id) == AfterComplete(g, id)
    ensures AfterComplete(AfterRevoke(g, id), id) == AfterRevoke(g, id)
    ensures AfterRevoke(AfterRevoke(g, id), id) == AfterRevoke(g, id)
    ensures AfterComplete(g, id).aborted == g.aborted
    ensures AfterRevoke(g, id).aborted == if id in g.permits then g.aborted + {id} else g.aborted
  {
  }

  // -------------------------------------------------------------- the gate object

  class GateKeeper {
    const config: Config
    const budget: BudgetKeeper
    var activePermits: map<PermitId, Permit>
    var deadlineTimers: map<PermitId, int>
    var aborted: set<PermitId>
    ghost var granted: seq<int>
    ghost var clock: int

    ghost predicate Valid()
      reads this, budget, budget.rpsRing
    {
      budget.Valid() && budget.config == config
    }

    ghost function Now(): Gate
      requires Valid()
      reads this, budget, budget.rpsRing, budget.rpsRing.buffer
    {
      Gate(budget.Now(), activePermits, deadlineTimers, granted, aborted, clock)
    }

    constructor (config: Config, ghost startedAt: int)
      ensures Valid() && this.config == config
      ensures Now() == Fresh(startedAt)
    {
      this.config := config;
      budget := new BudgetKeeper(config);
      activePermits, deadlineTimers, aborted := map[], map[], {};
      granted, clock := [], startedAt;
    }

    method RequestPermit(job: Job, attemptIndex: int, a: Answers) returns (reply: Reply)
      requires Valid()
      modifies this, budget, budget.rpsRing, budget.rpsRing.buffer
      ensures Valid()
      ensures (Now(), reply) == AfterRequest(config, old(Now()), job, attemptIndex, a)
    {
      if a.pressure == REJECT {
        return Shed;
      }
      if a.pressure == DEFER {
        return Deferred;
      }
      if a.circuitOpen {
        return CircuitOpen;
      }
      clock := a.checkAt;
      var refusal := budget.CanIssue(job.limits, attemptIndex, a.checkAt);
      if refusal.Some? {
        return Refused(refusal.value);
      }
      var deadlineAt := a.issueAt + job.timeoutMs;
      var cost := if a.pressure == DEGRADE && job.limits.costHint.Some?
                  then Some(Ceil(job.limits.costHint.value / 2.0)) else job.limits.costHint;
      clock := a.consumeAt;
      var consumed := budget.Consume(cost, a.consumeAt);
      if !consumed {
        return LostRace;
      }
      activePermits := activePermits[a.id := Permit(cost, deadlineAt)];
      deadlineTimers := deadlineTimers[a.id := deadlineAt];
      granted := granted + [a.consumeAt];
      return Granted(a.id);
    }

    method CompletePermit(id: PermitId)
      requires Valid()
      modifies this, budget
      ensures Valid()
      ensures Now() == AfterComplete(old(Now()), id)
    {
      if id !in activePermits {
        return;
      }
      budget.Release(activePermits[id].cost);
      activePermits := activePermits - {id};
      if id in deadlineTimers {
        deadlineTimers := deadlineTimers - {id};
      }
    }

    /** Also what a deadline timer calls when it fires. */
    method RevokePermit(id: PermitId)
      requires Valid()
      modifies this, budget
      ensures Valid()
      ensures Now() == AfterRevoke(old(Now()), id)
    {
      if id !in activePermits {
        return;
      }
      aborted := aborted + {id};
      CompletePermit(id);
    }
  }
}
