/** The deterministic event queue of internal/core/queue.go: a hand-written binary heap
    that refines a list kept sorted by (time, kind, sequence). */
module EventQueue {
  import opened Int64

  type Kind = k: nat | k < 256

  const KIND_BAR: Kind := 0
  const KIND_FILL: Kind := 1
  const KIND_SAMPLE: Kind := 2

  /** `payload` stands for the carried bar, fill or sample; the queue never looks at it. */
  datatype Event = Event(ts: int64, kind: Kind, utc: bool, payload: int)

  datatype Queued = Queued(ev: Event, id: nat)

  /** Order on (time, kind) alone. */
  predicate KeyLess(a: Event, b: Event) {
    a.ts < b.ts || (a.ts == b.ts && a.kind < b.kind)
  }

  /** queuedEvent.less. */
  predicate Less(a: Queued, b: Queued) {
    if a.ev.ts != b.ev.ts then a.ev.ts < b.ev.ts
    else if a.ev.kind != b.ev.kind then a.ev.kind < b.ev.kind
    else a.id < b.id
  }

  /** less is a strict total order on items with distinct sequence numbers. */
  lemma LessIsStrictTotal(a: Queued, b: Queued, c: Queued)
    ensures !Less(a, a)
    ensures Less(a, b) && Less(b, c) ==> Less(a, c)
    ensures a.id != b.id ==> Less(a, b) || Less(b, a)
    ensures Less(a, b) ==> !Less(b, a)
  {
  }

  predicate Sorted(q: seq<Queued>) {
    forall i, j :: 0 <= i < j < |q| ==> Less(q[i], q[j])
  }

  /** Sequence numbers are distinct and were all drawn before `next`. */
  predicate DrawnBefore(q: seq<Queued>, next: nat) {
    && (forall i :: 0 <= i < |q| ==> q[i].id < next)
    && (forall i, j :: 0 <= i < j < |q| ==> q[i].id != q[j].id)
  }

  /** Insertion into a sorted list, after everything that is not greater. */
  function Insert(q: seq<Queued>, x: Queued): seq<Queued> {
    if q == [] || Less(x, q[0]) then [x] + q else [q[0]] + Insert(q[1..], x)
  }

  /** Insertion adds exactly one item. */
  lemma {:induction false} InsertKeeps(q: seq<Queued>, x: Queued)
    ensures multiset(Insert(q, x)) == multiset(q) + multiset{x}
    ensures |Insert(q, x)| == |q| + 1
    ensures forall y :: y in Insert(q, x) <==> y == x || y in q
  {
    hide Less;
    if q != [] && !Less(x, q[0]) {
      InsertKeeps(q[1..], x);
      assert q == [q[0]] + q[1..];
    }
  }

  /** Inserting a freshly numbered item keeps the list sorted and the numbers distinct. */
  lemma InsertFacts(q: seq<Queued>, x: Queued)
    requires Sorted(q) && DrawnBefore(q, x.id)
    ensures Sorted(Insert(q, x)) && DrawnBefore(Insert(q, x), x.id + 1)
  {
    InsertSorted(q, x);
    InsertDrawn(q, x);
  }

  lemma {:induction false} InsertSorted(q: seq<Queued>, x: Queued)
    requires Sorted(q) && forall i :: 0 <= i < |q| ==> q[i].id != x.id
    ensures Sorted(Insert(q, x))
  {
    if q == [] {
    } else if Less(x, q[0]) {
      forall i | 0 <= i < |q| ensures Less(x, q[i]) {
        LessIsStrictTotal(x, q[0], q[i]);
      }
    } else {
      InsertSorted(q[1..], x);
      LessIsStrictTotal(q[0], x, x);
      hide Less;
      InsertAbove(q[0], q[1..], x);
      PrependSorted(q[0], Insert(q[1..], x));
    }
  }

  lemma {:induction false} InsertAbove(a: Queued, q: seq<Queued>, x: Queued)
    requires Less(a, x) && forall i :: 0 <= i < |q| ==> Less(a, q[i])
    ensures forall i :: 0 <= i < |Insert(q, x)| ==> Less(a, Insert(q, x)[i])
  {
    hide Less;
    if q != [] && !Less(x, q[0]) {
      InsertAbove(a, q[1..], x);
    }
  }

  lemma PrependSorted(a: Queued, q: seq<Queued>)
    requires Sorted(q) && forall i :: 0 <= i < |q| ==> Less(a, q[i])
    ensures Sorted([a] + q)
  {
  }

  lemma {:induction false} InsertDrawn(q: seq<Queued>, x: Queued)
    requires DrawnBefore(q, x.id)
    ensures DrawnBefore(Insert(q, x), x.id + 1)
  {
    hide Less;
    if q != [] && !Less(x, q[0]) {
      InsertDrawn(q[1..], x);
      InsertKeeps(q[1..], x);
      var rest := Insert(q[1..], x);
      forall i | 0 <= i < |rest| ensures rest[i].id != q[0].id {
        assert rest[i] in rest;
      }
    }
  }

  // ---- the heap ----

  predicate IsParent(i: int, j: int) {
    j == 2 * i + 1 || j == 2 * i + 2
  }

  /** No child is less than its parent. */
  predicate HeapOrdered(h: seq<Queued>) {
    forall i, j :: 0 <= i < j < |h| && IsParent(i, j) ==> !Less(h[j], h[i])
  }

  /** Heap order except between `k` and its parent, with `k`'s children above that parent. */
  predicate OrderedButAbove(h: seq<Queued>, k: int) {
    && (forall i, j :: 0 <= i < j < |h| && IsParent(i, j) && j != k ==> !Less(h[j], h[i]))
    && (forall i, j :: 0 <= i < k < j < |h| && IsParent(i, k) && IsParent(k, j) ==> !Less(h[j], h[i]))
  }

  /** Heap order except between `k` and its children, which are above `k`'s parent. */
  predicate OrderedButBelow(h: seq<Queued>, k: int) {
    && (forall i, j :: 0 <= i < j < |h| && IsParent(i, j) && i != k ==> !Less(h[j], h[i]))
    && (forall i, j :: 0 <= i < k < j < |h| && IsParent(i, k) && IsParent(k, j) ==> !Less(h[j], h[i]))
  }

  function Swap(h: seq<Queued>, i: int, j: int): seq<Queued>
    requires 0 <= i < |h| && 0 <= j < |h|
  {
    h[i := h[j]][j := h[i]]
  }

  lemma SwapKeeps(h: seq<Queued>, i: int, j: int)
    requires 0 <= i < |h| && 0 <= j < |h|
    ensures multiset(Swap(h, i, j)) == multiset(h)
  {
  }

  lemma SwapUp(h: seq<Queued>, p: int, k: int)
    requires 0 <= p < k < |h| && IsParent(p, k) && OrderedButAbove(h, k) && Less(h[k], h[p])
    ensures OrderedButAbove(Swap(h, p, k), p)
  {
    var s := Swap(h, p, k);
    forall i, j | 0 <= i < j < |s| && IsParent(i, j) && j != p ensures !Less(s[j], s[i]) {
      LessIsStrictTotal(h[k], h[p], h[j]);
    }
    forall i, j | 0 <= i < p < j < |s| && IsParent(i, p) && IsParent(p, j) ensures !Less(s[j], s[i]) {
      assert !Less(h[p], h[i]);
      LessIsStrictTotal(h[j], h[i], h[p]);
      LessIsStrictTotal(h[j], h[p], h[i]);
    }
  }

  lemma SwapDown(h: seq<Queued>, k: int, c: int)
    requires 0 <= k < c < |h| && IsParent(k, c) && OrderedButBelow(h, k) && Less(h[c], h[k])
    requires forall j :: 0 <= j < |h| && IsParent(k, j) ==> !Less(h[j], h[c])
    ensures OrderedButBelow(Swap(h, k, c), c)
  {
  }

  lemma {:induction false} RootIsLeast(h: seq<Queued>, j: int)
    requires HeapOrdered(h) && 0 <= j < |h|
    ensures !Less(h[j], h[0])
    decreases j
  {
    if j > 0 {
      var p := (j - 1) / 2;
      assert IsParent(p, j);
      RootIsLeast(h, p);
      LessIsStrictTotal(h[j], h[0], h[p]);
      LessIsStrictTotal(h[p], h[j], h[0]);
    }
  }

  /** A heap and a sorted list over the same items have the same first element. */
  lemma RootIsHead(h: seq<Queued>, q: seq<Queued>)
    requires HeapOrdered(h) && Sorted(q) && multiset(h) == multiset(q) && h != []
    ensures q != [] && h[0] == q[0]
  {
    assert h[0] in multiset(q);
    var k :| 0 <= k < |q| && q[k] == h[0];
    assert q[0] in multiset(h);
    var j :| 0 <= j < |h| && h[j] == q[0];
    RootIsLeast(h, j);
  }

  class Queue {
    var heap: seq<Queued>
    var nextID: nat
    /** The sorted list this heap stands for. */
    ghost var model: seq<Queued>

    ghost predicate Valid()
      reads this
    {
      && HeapOrdered(heap)
      && multiset(heap) == multiset(model)
      && Sorted(model)
      && DrawnBefore(model, nextID)
    }

    constructor ()
      ensures Valid() && model == [] && nextID == 0
    {
      heap, nextID, model := [], 0, [];
    }

    method NextSeq() returns (s: nat)
      requires Valid()
      modifies this`nextID
      ensures Valid() && s == old(nextID) && nextID == s + 1
    {
      s := nextID;
      nextID := nextID + 1;
    }

    method Push(ev: Event) returns (s: nat)
      requires Valid()
      modifies this
      ensures Valid()
      ensures s == old(nextID) && nextID == s + 1
      ensures model == Insert(old(model), Queued(ev, s))
    {
      s := NextSeq();
      var item := Queued(ev, s);
      hide Sorted, DrawnBefore;
      InsertFacts(model, item);
      InsertKeeps(model, item);
      heap := heap + [item];
      SiftUp(|heap| - 1);
      model := Insert(model, item);
    }

    method Pop() returns (r: Option<Event>)
      requires Valid()
      modifies this`heap, this`model
      ensures Valid()
      ensures old(model) == [] ==> r == None && model == []
      ensures old(model) != [] ==> r == Some(old(model)[0].ev) && model == old(model)[1..]
    {
      hide Sorted, DrawnBefore, OrderedButBelow;
      var n := |heap|;
      assert |heap| == |multiset(heap)| == |multiset(model)| == |model|;
      if n == 0 {
        return None;
      }
      RootIsHead(heap, model);
      var top, last := heap[0], heap[n - 1];
      DropRootOrder(heap);
      DropRootKeeps(heap);
      TailFacts(model, nextID);
      CancelOne(multiset(DropRoot(heap)), multiset(model[1..]), top);
      heap := heap[0 := last];
      heap := heap[..n - 1];
      if |heap| > 0 {
        SiftDown(0);
      }
      model := model[1..];
      return Some(top.ev);
    }

    method SiftUp(start: nat)
      requires start < |heap| && OrderedButAbove(heap, start)
      modifies this`heap
      ensures HeapOrdered(heap) && multiset(heap) == old(multiset(heap))
    {
      var i := start;
      while i > 0
        invariant i < |heap| && OrderedButAbove(heap, i)
        invariant multiset(heap) == old(multiset(heap))
      {
        var parent := (i - 1) / 2;
        assert IsParent(parent, i);
        if !Less(heap[i], heap[parent]) {
          break;
        }
        SwapUp(heap, parent, i);
        SwapKeeps(heap, parent, i);
        heap := Swap(heap, parent, i);
        i := parent;
      }
    }

    method SiftDown(start: nat)
      requires start < |heap| && OrderedButBelow(heap, start)
      modifies this`heap
      ensures HeapOrdered(heap) && multiset(heap) == old(multiset(heap))
    {
      var n, i := |heap|, start;
      while true
        invariant i < n == |heap| && OrderedButBelow(heap, i)
        invariant multiset(heap) == old(multiset(heap))
        decreases n - i
      {
        var left := 2 * i + 1;
        if left >= n {
          break;
        }
        var smallest := left;
        if left + 1 < n && Less(heap[left + 1], heap[left]) {
          smallest := left + 1;
        }
        LessIsStrictTotal(heap[left], heap[smallest], heap[i]);
        assert IsParent(i, smallest);
        if !Less(heap[smallest], heap[i]) {
          SmallestChild(heap, i, smallest);
          break;
        }
        SwapDown(heap, i, smallest);
        SwapKeeps(heap, i, smallest);
        heap := Swap(heap, i, smallest);
        i := smallest;
      }
    }
  }

  lemma SmallestChild(h: seq<Queued>, i: nat, c: nat)
    requires i < c < |h| && OrderedButBelow(h, i) && !Less(h[c], h[i])
    requires forall j :: 0 <= j < |h| && IsParent(i, j) ==> !Less(h[j], h[c])
    ensures HeapOrdered(h)
  {
  }

  /** Moving the last item to the root and dropping its slot. */
  function DropRoot(h: seq<Queued>): seq<Queued>
    requires h != []
  {
    h[0 := h[|h| - 1]][..|h| - 1]
  }

  lemma DropRootOrder(h: seq<Queued>)
    requires HeapOrdered(h) && h != []
    ensures OrderedButBelow(DropRoot(h), 0)
  {
  }

  lemma DropRootKeeps(h: seq<Queued>)
    requires h != []
    ensures multiset(h) == multiset(DropRoot(h)) + multiset{h[0]}
  {
    var n := |h|;
    if n == 1 {
      assert h == [h[0]];
    } else {
      assert h == [h[0]] + (h[1..n - 1] + [h[n - 1]]);
      assert DropRoot(h) == [h[n - 1]] + h[1..n - 1];
    }
  }

  lemma CancelOne(a: multiset<Queued>, b: multiset<Queued>, x: Queued)
    requires a + multiset{x} == b + multiset{x}
    ensures a == b
  {
    assert a == a + multiset{x} - multiset{x};
    assert b == b + multiset{x} - multiset{x};
  }

  lemma TailFacts(q: seq<Queued>, next: nat)
    requires q != [] && Sorted(q) && DrawnBefore(q, next)
    ensures Sorted(q[1..]) && DrawnBefore(q[1..], next)
    ensures multiset(q) == multiset(q[1..]) + multiset{q[0]}
  {
    hide Less;
    assert q == [q[0]] + q[1..];
  }

  // ---- whole histories ----

  datatype QueueOp = PushOp(ev: Event) | PopOp | DrawOp

  datatype History = History(model: seq<Queued>, nextID: nat, pushed: seq<Queued>, popped: seq<Queued>)

  function Step(h: History, op: QueueOp): History {
    match op
    case PushOp(ev) =>
      var x := Queued(ev, h.nextID);
      History(Insert(h.model, x), h.nextID + 1, h.pushed + [x], h.popped)
    case PopOp =>
      if h.model == [] then h
      else h.(model := h.model[1..], popped := h.popped + [h.model[0]])
    case DrawOp => h.(nextID := h.nextID + 1)
  }

  /** The effect of any interleaving of pushes, pops and bare sequence draws. */
  function RunOps(ops: seq<QueueOp>): History {
    if ops == [] then History([], 0, [], [])
    else Step(RunOps(ops[..|ops| - 1]), ops[|ops| - 1])
  }

  ghost predicate Numbered(pushed: seq<Queued>, next: nat) {
    && (forall i, j :: 0 <= i < j < |pushed| ==> pushed[i].id < pushed[j].id)
    && (forall i :: 0 <= i < |pushed| ==> pushed[i].id < next)
  }

  ghost predicate Conserving(h: History) {
    && Sorted(h.model) && DrawnBefore(h.model, h.nextID)
    && multiset(h.pushed) == multiset(h.model) + multiset(h.popped)
    && Numbered(h.pushed, h.nextID)
  }

  lemma StepConserves(h: History, op: QueueOp)
    requires Conserving(h)
    ensures Conserving(Step(h, op))
  {
    match op {
      case PushOp(ev) => PushConserves(h, Queued(ev, h.nextID));
      case PopOp => if h.model != [] { PopConserves(h); }
      case DrawOp =>
    }
  }

  lemma PushConserves(h: History, x: Queued)
    requires Conserving(h) && x.id == h.nextID
    ensures Conserving(History(Insert(h.model, x), h.nextID + 1, h.pushed + [x], h.popped))
  {
    hide Less, Sorted, DrawnBefore, Insert;
    InsertKeeps(h.model, x);
    InsertFacts(h.model, x);
  }

  lemma PopConserves(h: History)
    requires Conserving(h) && h.model != []
    ensures Conserving(h.(model := h.model[1..], popped := h.popped + [h.model[0]]))
  {
    hide Less, Sorted, DrawnBefore, Numbered;
    TailFacts(h.model, h.nextID);
  }

  /** Items are conserved, sequence numbers increase in push order and stay distinct, and
      what a pop would return next is less than everything else in the queue. */
  lemma {:induction false} QueueConserves(ops: seq<QueueOp>)
    ensures Conserving(RunOps(ops))
    ensures var q := RunOps(ops).model; forall y :: y in q && y != q[0] ==> Less(q[0], y)
  {
    if ops != [] {
      hide Step;
      QueueConserves(ops[..|ops| - 1]);
      StepConserves(RunOps(ops[..|ops| - 1]), ops[|ops| - 1]);
      HeadIsLeast(RunOps(ops).model);
    }
  }

  lemma HeadIsLeast(q: seq<Queued>)
    requires Sorted(q)
    ensures forall y :: y in q && y != q[0] ==> Less(q[0], y)
  {
  }
}
