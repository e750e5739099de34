/** The scheduler's priority queue: a binary heap in a growing list, proved to behave
    like a list kept in order of class, value and arrival. */
module JobQueue {
  import opened Wrappers

  datatype PriorityClass = INTERACTIVE | BATCH

  datatype Job = Job(id: nat, class': PriorityClass, value: real)

  datatype Entry = Entry(job: Job, seq': nat)

  /** `a` is dequeued before `b`. */
  predicate HigherPriority(a: Entry, b: Entry) {
    if a.job.class' != b.job.class' then a.job.class' == INTERACTIVE
    else if a.job.value != b.job.value then a.job.value > b.job.value
    else a.seq' < b.seq'
  }

  // ------------------------------------------------------ the list it stands for

  ghost predicate InOrder(list: seq<Entry>) {
    forall i, j :: 0 <= i < j < |list| ==> HigherPriority(list[i], list[j])
  }

  predicate Equals(a: Job, b: Job) {
    a.class' == b.class' && a.value == b.value
  }

  /** What the order comes to: no batch job before an interactive one, within a class no
      lower value before a higher one, and equals in the order of their arrival. */
  lemma OrderMeans(list: seq<Entry>)
    requires InOrder(list)
    ensures forall i, j :: 0 <= i < j < |list| && list[j].job.class' == INTERACTIVE ==>
              list[i].job.class' == INTERACTIVE
    ensures forall i, j :: 0 <= i < j < |list| && list[i].job.class' == list[j].job.class' ==>
              list[i].job.value >= list[j].job.value
    ensures forall i, j :: 0 <= i < j < |list| && Equals(list[i].job, list[j].job) ==> list[i].seq' < list[j].seq'
  {
    forall i, j | 0 <= i < j < |list| ensures HigherPriority(list[i], list[j]) {}
  }

  function Insert(list: seq<Entry>, e: Entry): seq<Entry> {
    if list == [] || HigherPriority(e, list[0]) then [e] + list
    else [list[0]] + Insert(list[1..], e)
  }

  lemma {:induction false} InsertKeepsOrder(list: seq<Entry>, e: Entry)
    requires InOrder(list) && forall i :: 0 <= i < |list| ==> list[i].seq' < e.seq'
    ensures InOrder(Insert(list, e))
    ensures multiset(Insert(list, e)) == multiset(list) + multiset{e}
  {
    if list != [] && !HigherPriority(e, list[0]) {
      InsertKeepsOrder(list[1..], e);
      var rest := Insert(list[1..], e);
      assert list == [list[0]] + list[1..];
      forall j | 0 <= j < |rest| ensures HigherPriority(list[0], rest[j]) {
        assert rest[j] in multiset(rest);
      }
    }
  }

  // ----------------------------------------------------------------- the heap

  function Parent(i: int): int
    requires i > 0
  {
    (i - 1) / 2
  }

  /** Child `i` does not come before its parent. */
  ghost predicate Ordered(h: seq<Entry>, i: int) {
    0 < i < |h| ==> !HigherPriority(h[i], h[Parent(i)])
  }

  ghost predicate HeapOrder(h: seq<Entry>) {
    forall i {:trigger Ordered(h, i)} :: 0 < i < |h| ==> Ordered(h, i)
  }

  /** Grandchild `i` does not come before its grandparent. */
  ghost predicate GrandOrdered(h: seq<Entry>, i: int) {
    0 < i < |h| && Parent(i) > 0 ==> !HigherPriority(h[i], h[Parent(Parent(i))])
  }

  /** The children of `hole` respect its parent. */
  ghost predicate Bridged(h: seq<Entry>, hole: int) {
    forall i {:trigger GrandOrdered(h, i)} :: 0 < i < |h| && Parent(i) == hole ==> GrandOrdered(h, i)
  }

  /** Heap order but for the edge above `hole`. */
  ghost predicate OrderAboveHole(h: seq<Entry>, hole: int) {
    && (forall i {:trigger Ordered(h, i)} :: 0 < i < |h| && i != hole ==> Ordered(h, i))
    && Bridged(h, hole)
  }

  /** Heap order but for the edges below `hole`. */
  ghost predicate OrderBelowHole(h: seq<Entry>, hole: int) {
    && (forall i {:trigger Ordered(h, i)} :: 0 < i < |h| && Parent(i) != hole ==> Ordered(h, i))
    && Bridged(h, hole)
  }

  lemma {:induction false} TopIsFirst(h: seq<Entry>, i: int)
    requires HeapOrder(h) && 0 <= i < |h|
    ensures !HigherPriority(h[i], h[0])
    decreases i
  {
    if i > 0 {
      assert Ordered(h, i);
      TopIsFirst(h, Parent(i));
    }
  }

  /** The top of the heap is the head of any ordered list with the same entries. */
  lemma TopIsHead(h: seq<Entry>, list: seq<Entry>)
    requires HeapOrder(h) && InOrder(list) && multiset(h) == multiset(list) && h != []
    ensures list != [] && h[0] == list[0]
  {
    assert h[0] in multiset(h);
    assert h[0] in list;
    assert list[0] in multiset(list);
    assert list[0] in h;
    var i :| 0 <= i < |h| && h[i] == list[0];
    TopIsFirst(h, i);
    var j :| 0 <= j < |list| && list[j] == h[0];
  }

  function Swapped(h: seq<Entry>, i: int, j: int): seq<Entry>
    requires 0 <= i < |h| && 0 <= j < |h|
  {
    h[i := h[j]][j := h[i]]
  }

  lemma SwappedSame(h: seq<Entry>, i: int, j: int)
    requires 0 <= i < |h| && 0 <= j < |h|
    ensures multiset(Swapped(h, i, j)) == multiset(h)
  {
  }

  lemma SwapUp(h: seq<Entry>, i: int)
    requires 0 < i < |h| && OrderAboveHole(h, i) && HigherPriority(h[i], h[Parent(i)])
    ensures OrderAboveHole(Swapped(h, i, Parent(i)), Parent(i))
  {
    var p := Parent(i);
    var h' := Swapped(h, i, p);
    forall k | 0 < k < |h'| && k != p ensures Ordered(h', k) {
      assert k != i ==> Ordered(h, k);
      assert Parent(k) == i ==> GrandOrdered(h, k);
    }
    forall k | 0 < k < |h'| && Parent(k) == p ensures GrandOrdered(h', k) {
      assert Ordered(h, p);
      assert k != i ==> Ordered(h, k);
    }
  }

  lemma SettledUp(h: seq<Entry>, i: int)
    requires OrderAboveHole(h, i) && (i <= 0 || i >= |h| || !HigherPriority(h[i], h[Parent(i)]))
    ensures HeapOrder(h)
  {
    forall k | 0 < k < |h| ensures Ordered(h, k) {
    }
  }

  lemma SwapDown(h: seq<Entry>, i: int, best: int)
    requires 0 <= i < best < |h| && Parent(best) == i && OrderBelowHole(h, i)
    requires HigherPriority(h[best], h[i])
    requires forall k :: 0 < k < |h| && Parent(k) == i ==> !HigherPriority(h[k], h[best])
    ensures OrderBelowHole(Swapped(h, i, best), best)
  {
    var h' := Swapped(h, i, best);
    forall k | 0 < k < |h'| && Parent(k) != best ensures Ordered(h', k) {
      assert Parent(k) != i ==> Ordered(h, k);
      assert k == i ==> GrandOrdered(h, best);
    }
    forall k | 0 < k < |h'| && Parent(k) == best ensures GrandOrdered(h', k) {
      assert Ordered(h, k);
    }
  }

  class Queue {
    var heap: seq<Entry>
    var nextSeq: nat
    ghost var list: seq<Entry>    // the entries in the order in which they will leave

    ghost predicate Valid()
      reads this
    {
      && HeapOrder(heap) && InOrder(list) && multiset(heap) == multiset(list)
      && forall i :: 0 <= i < |list| ==> list[i].seq' < nextSeq
    }

    constructor ()
      ensures Valid() && list == [] && nextSeq == 0
    {
      heap, nextSeq, list := [], 0, [];
    }

    method Swap(i: int, j: int)
      requires 0 <= i < |heap| && 0 <= j < |heap|
      modifies this`heap
      ensures heap == Swapped(old(heap), i, j)
    {
      var tmp := heap[i];
      heap := heap[i := heap[j]];
      heap := heap[j := tmp];
    }

    method SiftUp(start: int)
      requires 0 <= start < |heap| && OrderAboveHole(heap, start)
      modifies this`heap
      ensures HeapOrder(heap) && multiset(heap) == multiset(old(heap))
    {
      var i := start;
      while i > 0
        invariant 0 <= i < |heap| && OrderAboveHole(heap, i)
        invariant multiset(heap) == multiset(old(heap))
      {
        var parent := (i - 1) / 2;
        if !HigherPriority(heap[i], heap[parent]) {
          break;
        }
        SwapUp(heap, i);
        SwappedSame(heap, i, parent);
        Swap(i, parent);
        i := parent;
      }
      SettledUp(heap, i);
    }

    /** The child of `i` to move up, or `i` itself. */
    method BestOf(i: int) returns (best: int)
      requires 0 <= i < |heap|
      ensures i <= best < |heap|
      ensures best == i ==> forall k :: 0 < k < |heap| && Parent(k) == i ==> !HigherPriority(heap[k], heap[i])
      ensures best != i ==> Parent(best) == i && HigherPriority(heap[best], heap[i])
      ensures best != i ==> forall k :: 0 < k < |heap| && Parent(k) == i ==> !HigherPriority(heap[k], heap[best])
    {
      best := i;
      var left, right := 2 * i + 1, 2 * i + 2;
      if left < |heap| && HigherPriority(heap[left], heap[best]) {
        best := left;
      }
      if right < |heap| && HigherPriority(heap[right], heap[best]) {
        best := right;
      }
      forall k | 0 < k < |heap| && Parent(k) == i ensures k == left || k == right {}
    }

    method SiftDown(start: int)
      requires 0 <= start < |heap| && OrderBelowHole(heap, start)
      modifies this`heap
      ensures HeapOrder(heap) && multiset(heap) == multiset(old(heap))
    {
      var i := start;
      while true
        invariant 0 <= i < |heap| && OrderBelowHole(heap, i)
        invariant multiset(heap) == multiset(old(heap))
        decreases |heap| - i
      {
        var best := BestOf(i);
        if best == i {
          forall k | 0 < k < |heap| ensures Ordered(heap, k) {}
          break;
        }
        SwapDown(heap, i, best);
        SwappedSame(heap, i, best);
        Swap(i, best);
        i := best;
      }
    }

    method Enqueue(job: Job)
      requires Valid()
      modifies this
      ensures Valid() && nextSeq == old(nextSeq) + 1
      ensures list == Insert(old(list), Entry(job, old(nextSeq)))
    {
      var entry := Entry(job, nextSeq);
      nextSeq := nextSeq + 1;
      InsertKeepsOrder(list, entry);
      PushKeepsHole(heap, entry);
      heap := heap + [entry];
      list := Insert(list, entry);
      forall i | 0 <= i < |list| ensures list[i].seq' < nextSeq {
        assert list[i] in multiset(list);
      }
      SiftUp(|heap| - 1);
    }

    method Dequeue() returns (job: Option<Job>)
      requires Valid()
      modifies this
      ensures Valid() && nextSeq == old(nextSeq)
      ensures if old(list) == [] then job == None && list == []
              else job == Some(old(list)[0].job) && list == old(list)[1..]
    {
      if |heap| == 0 {
        assert |multiset(list)| == 0;
        return None;
      }
      TopIsHead(heap, list);
      ghost var before := heap;
      var top, last := heap[0], heap[|heap| - 1];
      PopKeepsHole(heap);
      heap := heap[..|heap| - 1];
      if |heap| > 0 {
        heap := heap[0 := last];
      }
      assert list == [top] + list[1..];
      list := list[1..];
      SameRest(multiset(heap), multiset(list), top);
      if |heap| > 0 {
        SiftDown(0);
      }
      return Some(top.job);
    }

    method Peek() returns (job: Option<Job>)
      requires Valid()
      ensures job == if list == [] then None else Some(list[0].job)
    {
      if |heap| == 0 {
        assert |multiset(list)| == 0;
        return None;
      }
      TopIsHead(heap, list);
      return Some(heap[0].job);
    }
  }

  lemma PushKeepsHole(h: seq<Entry>, e: Entry)
    requires HeapOrder(h)
    ensures OrderAboveHole(h + [e], |h|)
  {
    var h' := h + [e];
    forall i | 0 < i < |h'| && i != |h| ensures Ordered(h', i) {
      assert Ordered(h, i);
    }
  }

  /** The heap with its last entry moved over its top. */
  function Popped(h: seq<Entry>): seq<Entry>
    requires h != []
  {
    if |h| == 1 then [] else h[..|h| - 1][0 := h[|h| - 1]]
  }

  lemma PopKeepsHole(h: seq<Entry>)
    requires HeapOrder(h) && h != []
    ensures OrderBelowHole(Popped(h), 0)
    ensures multiset(Popped(h)) + multiset{h[0]} == multiset(h)
  {
    assert h == h[..|h| - 1] + [h[|h| - 1]];
    forall i | 0 < i < |Popped(h)| && Parent(i) != 0 ensures Ordered(Popped(h), i) {
      assert Ordered(h, i);
    }
  }

  lemma SameRest(a: multiset<Entry>, b: multiset<Entry>, e: Entry)
    requires a + multiset{e} == multiset{e} + b
    ensures a == b
  {
    assert (a + multiset{e}) - multiset{e} == a;
    assert (multiset{e} + b) - multiset{e} == b;
  }

  // ------------------------------------------------------------------ whole runs

  datatype Op = EnqueueOp(job: Job) | DequeueOp

  /** What a list in priority order answers to a sequence of operations. */
  function Answers(list: seq<Entry>, nextSeq: nat, ops: seq<Op>): seq<Option<Job>>
    decreases |ops|
  {
    if ops == [] then []
    else match ops[0]
      case EnqueueOp(job) => Answers(Insert(list, Entry(job, nextSeq)), nextSeq + 1, ops[1..])
      case DequeueOp =>
        if list == [] then [None] + Answers(list, nextSeq, ops[1..])
        else [Some(list[0].job)] + Answers(list[1..], nextSeq, ops[1..])
  }

  function Left(list: seq<Entry>, nextSeq: nat, ops: seq<Op>): seq<Entry>
    decreases |ops|
  {
    if ops == [] then list
    else match ops[0]
      case EnqueueOp(job) => Left(Insert(list, Entry(job, nextSeq)), nextSeq + 1, ops[1..])
      case DequeueOp => Left(if list == [] then list else list[1..], nextSeq, ops[1..])
  }

  /** The heap answers every sequence of operations as the list does. */
  method RunQueue(ops: seq<Op>) returns (answers: seq<Option<Job>>)
    ensures answers == Answers([], 0, ops)
  {
    var q := new Queue();
    answers := [];
    for k := 0 to |ops|
      invariant fresh(q) && q.Valid()
      invariant answers + Answers(q.list, q.nextSeq, ops[k..]) == Answers([], 0, ops)
    {
      assert ops[k..][0] == ops[k] && ops[k..][1..] == ops[k + 1..];
      match ops[k]
      case EnqueueOp(job) => q.Enqueue(job);
      case DequeueOp =>
        ghost var rest := if q.list == [] then q.list else q.list[1..];
        var job := q.Dequeue();
        assert (answers + [job]) + Answers(rest, q.nextSeq, ops[k + 1..]) ==
               answers + ([job] + Answers(rest, q.nextSeq, ops[k + 1..]));
        answers := answers + [job];
    }
    assert ops[|ops|..] == [];
  }

  function Jobs(list: seq<Entry>): multiset<Job> {
    if list == [] then multiset{} else multiset{list[0].job} + Jobs(list[1..])
  }

  function Enqueued(ops: seq<Op>): multiset<Job> {
    if ops == [] then multiset{}
    else (if ops[0].EnqueueOp? then multiset{ops[0].job} else multiset{}) + Enqueued(ops[1..])
  }

  function Dequeued(answers: seq<Option<Job>>): multiset<Job> {
    if answers == [] then multiset{}
    else (if answers[0].Some? then multiset{answers[0].value} else multiset{}) + Dequeued(answers[1..])
  }

  lemma {:induction false} InsertJobs(list: seq<Entry>, e: Entry)
    ensures Jobs(Insert(list, e)) == Jobs(list) + multiset{e.job}
  {
    if list == [] || HigherPriority(e, list[0]) {
      assert ([e] + list)[1..] == list;
    } else {
      InsertJobs(list[1..], e);
      assert ([list[0]] + Insert(list[1..], e))[1..] == Insert(list[1..], e);
    }
  }

  lemma Regroup(a: multiset<Job>, b: multiset<Job>, c: multiset<Job>)
    ensures (a + b) + c == a + (b + c)
  {
  }

  /** No job is lost or made up: what went in came out or is still there. */
  lemma {:induction false} JobsAreConserved(list: seq<Entry>, nextSeq: nat, ops: seq<Op>)
    ensures Jobs(list) + Enqueued(ops) == Dequeued(Answers(list, nextSeq, ops)) + Jobs(Left(list, nextSeq, ops))
    decreases |ops|
  {
    if ops != [] {
      match ops[0]
      case EnqueueOp(job) =>
        InsertJobs(list, Entry(job, nextSeq));
        JobsAreConserved(Insert(list, Entry(job, nextSeq)), nextSeq + 1, ops[1..]);
      case DequeueOp =>
        var rest := if list == [] then list else list[1..];
        JobsAreConserved(rest, nextSeq, ops[1..]);
        var tail := Answers(rest, nextSeq, ops[1..]);
        var head: Option<Job> := if list == [] then None else Some(list[0].job);
        assert Answers(list, nextSeq, ops) == [head] + tail && ([head] + tail)[1..] == tail;
        var gone: multiset<Job> := if head.Some? then multiset{head.value} else multiset{};
        Regroup(gone, Jobs(rest), Enqueued(ops[1..]));
        Regroup(gone, Dequeued(tail), Jobs(Left(rest, nextSeq, ops[1..])));
        assert Dequeued([head] + tail) == gone + Dequeued(tail);
        assert Jobs(list) == gone + Jobs(rest);
        assert Enqueued(ops) == Enqueued(ops[1..]);
    }
  }

  /** In every reachable list the entries are in order: interactive before batch, then
      higher values first, then earlier arrivals. */
  lemma {:induction false} LeftIsInOrder(list: seq<Entry>, nextSeq: nat, ops: seq<Op>)
    requires InOrder(list) && forall i :: 0 <= i < |list| ==> list[i].seq' < nextSeq
    ensures InOrder(Left(list, nextSeq, ops))
    decreases |ops|
  {
    if ops != [] {
      match ops[0]
      case EnqueueOp(job) =>
        var next := Insert(list, Entry(job, nextSeq));
        InsertKeepsOrder(list, Entry(job, nextSeq));
        forall i | 0 <= i < |next| ensures next[i].seq' < nextSeq + 1 {
          assert next[i] in multiset(next);
        }
        LeftIsInOrder(next, nextSeq + 1, ops[1..]);
      case DequeueOp =>
        LeftIsInOrder(if list == [] then list else list[1..], nextSeq, ops[1..]);
    }
  }
}
