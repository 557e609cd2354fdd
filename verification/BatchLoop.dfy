/** The batch event loop of internal/core/loop.go. Handlers are deterministic functions of
    their own state, the event and the sequence counter, which tells them every number they
    draw; what they may do to the loop is schedule events and draw sequence numbers. A
    cancelled context is a budget: the number of events dispatched before the loop sees the
    cancellation. */
module BatchLoop {
  import opened Int64
  import opened Clock
  import opened EventQueue

  datatype Request = Schedule(ev: Event) | Draw

  datatype Response<+S> = Response(state: S, requests: seq<Request>, ok: bool)

  type Handler<!S> = (S, Event, nat) -> Response<S>

  type Handlers<!S> = map<Kind, Handler<S>>

  /** The loop's queue, sequence counter and clock, and the handlers' own state. */
  datatype Machine<+S> = Machine(queue: seq<Queued>, nextID: nat, clock: Instant, state: S)

  /** The test Schedule and SimClock.Advance share: UTC and not before the clock. */
  predicate Accepts(clock: Instant, ev: Event) {
    ev.utc && !Precedes(ev.ts, clock)
  }

  function Serve<S>(m: Machine<S>, rs: seq<Request>): Machine<S>
    decreases |rs|
  {
    if rs == [] then m else Serve(ServeOne(m, rs[0]), rs[1..])
  }

  function ServeOne<S>(m: Machine<S>, r: Request): Machine<S> {
    match r
    case Draw => m.(nextID := m.nextID + 1)
    case Schedule(ev) =>
      if Accepts(m.clock, ev)
      then m.(queue := Insert(m.queue, Queued(ev, m.nextID)), nextID := m.nextID + 1)
      else m
  }

  datatype Dispatch = Dispatch(item: Queued, clock: Instant)

  datatype Stop = Drained | Cancelled | ClockFault | NoHandler | HandlerFault

  datatype Outcome<+S> = Outcome(trace: seq<Dispatch>, machine: Machine<S>, stop: Stop)

  /** Loop.Run. */
  function RunBatch<S>(h: Handlers<S>, m: Machine<S>, budget: nat): Outcome<S>
    decreases budget
  {
    if budget == 0 then Outcome([], m, Cancelled)
    else if m.queue == [] then Outcome([], m, Drained)
    else
      var item := m.queue[0];
      var popped := m.(queue := m.queue[1..]);
      if !Accepts(m.clock, item.ev) then Outcome([], popped, ClockFault)
      else if item.ev.kind !in h then Outcome([], popped.(clock := At(item.ev.ts)), NoHandler)
      else
        var next := Handled(h, m);
        var rest := if Reply(h, m).ok then RunBatch(h, next, budget - 1) else Outcome([], next, HandlerFault);
        rest.(trace := [Dispatch(item, At(item.ev.ts))] + rest.trace)
  }

  /** What the handler of the queue's head answers. */
  function Reply<S>(h: Handlers<S>, m: Machine<S>): Response<S>
    requires m.queue != [] && m.queue[0].ev.kind in h
  {
    h[m.queue[0].ev.kind](m.state, m.queue[0].ev, m.nextID)
  }

  /** The machine once the queue's head has been dispatched and its requests served. */
  function Handled<S>(h: Handlers<S>, m: Machine<S>): Machine<S>
    requires m.queue != [] && m.queue[0].ev.kind in h
  {
    var r := Reply(h, m);
    Serve(m.(queue := m.queue[1..], clock := At(m.queue[0].ev.ts), state := r.state), r.requests)
  }

  // ---- invariants of the machine ----

  predicate WellFormed<S>(m: Machine<S>) {
    Sorted(m.queue) && DrawnBefore(m.queue, m.nextID)
  }

  /** Nothing queued lies before the clock. */
  predicate Ahead<S>(m: Machine<S>) {
    forall i :: 0 <= i < |m.queue| ==> Accepts(m.clock, m.queue[i].ev)
  }

  lemma {:induction false} ServeKeeps<S>(m: Machine<S>, rs: seq<Request>)
    requires WellFormed(m) && Ahead(m)
    ensures WellFormed(Serve(m, rs)) && Ahead(Serve(m, rs))
    ensures Serve(m, rs).clock == m.clock && Serve(m, rs).state == m.state
    ensures Serve(m, rs).nextID >= m.nextID
    decreases |rs|
  {
    if rs != [] {
      var n := ServeOne(m, rs[0]);
      if rs[0].Schedule? && Accepts(m.clock, rs[0].ev) {
        hide Insert, Sorted, Accepts;
        var x := Queued(rs[0].ev, m.nextID);
        InsertFacts(m.queue, x);
        InsertKeeps(m.queue, x);
        forall i | 0 <= i < |n.queue| ensures Accepts(n.clock, n.queue[i].ev) {
          assert n.queue[i] in n.queue;
        }
      }
      ServeKeeps(n, rs[1..]);
    }
  }

  lemma HandledKeeps<S>(h: Handlers<S>, m: Machine<S>)
    requires m.queue != [] && m.queue[0].ev.kind in h
    requires WellFormed(m) && Ahead(m)
    ensures WellFormed(Handled(h, m)) && Ahead(Handled(h, m))
    ensures Handled(h, m).clock == At(m.queue[0].ev.ts)
    ensures Handled(h, m).nextID >= m.nextID
  {
    TailFacts(m.queue, m.nextID);
    var r := Reply(h, m);
    ServeKeeps(m.(queue := m.queue[1..], clock := At(m.queue[0].ev.ts), state := r.state), r.requests);
  }

  // ---- what serving and running mean, without recursion ----

  /** How many sequence numbers these requests take: one per draw and per accepted event. */
  function Taken(clock: Instant, rs: seq<Request>): nat {
    if rs == [] then 0
    else
      var n := |rs| - 1;
      Taken(clock, rs[..n]) + if rs[n].Draw? || Accepts(clock, rs[n].ev) then 1 else 0
  }

  /** How many events they put on the queue. */
  function Entered(clock: Instant, rs: seq<Request>): nat {
    if rs == [] then 0
    else
      var n := |rs| - 1;
      Entered(clock, rs[..n]) + if rs[n].Schedule? && Accepts(clock, rs[n].ev) then 1 else 0
  }

  /** Serving one request more. */
  lemma {:induction false} ServeLast<S>(m: Machine<S>, rs: seq<Request>)
    requires rs != []
    ensures Serve(m, rs) == ServeOne(Serve(m, rs[..|rs| - 1]), rs[|rs| - 1])
    decreases |rs|
  {
    var n := |rs| - 1;
    if n == 0 {
      assert rs[1..] == [] && rs[..0] == [];
    } else {
      ServeLast(ServeOne(m, rs[0]), rs[1..]);
      assert rs[1..][..n - 1] == rs[..n][1..];
    }
  }

  /** Requests are served in order: each accepted event is queued under the number that the requests
      before it left, nothing else is queued, refused events take no number, and clock and state
      stay. */
  lemma ServeMeans<S>(m: Machine<S>, rs: seq<Request>)
    ensures var n := Serve(m, rs);
            && n.nextID == m.nextID + Taken(m.clock, rs) && n.clock == m.clock && n.state == m.state
            && |n.queue| == |m.queue| + Entered(m.clock, rs)
            && (forall x :: x in m.queue ==> x in n.queue)
            && forall k :: 0 <= k < |rs| && rs[k].Schedule? && Accepts(m.clock, rs[k].ev) ==>
                 Queued(rs[k].ev, m.nextID + Taken(m.clock, rs[..k])) in n.queue
  {
    hide Serve, Taken, Entered, Accepts;
    ServeCounts(m, rs);
    ServeHolds(m, rs);
  }

  lemma {:induction false} ServeCounts<S>(m: Machine<S>, rs: seq<Request>)
    ensures var n := Serve(m, rs);
            && n.nextID == m.nextID + Taken(m.clock, rs) && n.clock == m.clock && n.state == m.state
            && |n.queue| == |m.queue| + Entered(m.clock, rs)
    decreases |rs|
  {
    hide Accepts;
    if rs != [] {
      var n := |rs| - 1;
      ServeCounts(m, rs[..n]);
      ServeLast(m, rs);
      var before := Serve(m, rs[..n]);
      if rs[n].Schedule? { InsertKeeps(before.queue, Queued(rs[n].ev, before.nextID)); }
      hide Insert, Serve;
    }
  }

  lemma {:induction false} ServeHolds<S>(m: Machine<S>, rs: seq<Request>)
    ensures forall x :: x in m.queue ==> x in Serve(m, rs).queue
    ensures forall k :: 0 <= k < |rs| && rs[k].Schedule? && Accepts(m.clock, rs[k].ev) ==>
              Queued(rs[k].ev, m.nextID + Taken(m.clock, rs[..k])) in Serve(m, rs).queue
    decreases |rs|
  {
    if rs != [] {
      var n := |rs| - 1;
      ServeHolds(m, rs[..n]);
      ServeCounts(m, rs[..n]);
      ServeLast(m, rs);
      ServeOneHolds(Serve(m, rs[..n]), rs[n]);
      hide Serve, ServeOne, Taken, Accepts;
      forall k | 0 <= k < |rs| && rs[k].Schedule? && Accepts(m.clock, rs[k].ev)
        ensures Queued(rs[k].ev, m.nextID + Taken(m.clock, rs[..k])) in Serve(m, rs).queue
      {
        if k < n { assert rs[..n][k] == rs[k] && rs[..n][..k] == rs[..k]; }
      }
    }
  }

  lemma ServeOneHolds<S>(m: Machine<S>, r: Request)
    ensures forall x :: x in m.queue ==> x in ServeOne(m, r).queue
    ensures r.Schedule? && Accepts(m.clock, r.ev) ==> Queued(r.ev, m.nextID) in ServeOne(m, r).queue
  {
    hide Accepts, Insert;
    if r.Schedule? { InsertKeeps(m.queue, Queued(r.ev, m.nextID)); }
  }

  /** `ms` are the machines along a run: each one's head is accepted and has a handler, is dispatched
      at its own time, and leaves the next machine; every reply but perhaps the last one is ok. */
  predicate Steps<S(==)>(h: Handlers<S>, ms: seq<Machine<S>>, trace: seq<Dispatch>) {
    && |ms| == |trace| + 1
    && forall k :: 0 <= k < |trace| ==>
         && ms[k].queue != [] && ms[k].queue[0].ev.kind in h && Accepts(ms[k].clock, ms[k].queue[0].ev)
         && trace[k] == Dispatch(ms[k].queue[0], At(ms[k].queue[0].ev.ts))
         && ms[k + 1] == Handled(h, ms[k])
         && (k + 1 < |trace| ==> Reply(h, ms[k]).ok)
  }

  /** Why a run stopped, and in what state, given the last machine it reached. */
  predicate StopsRightly<S(==)>(h: Handlers<S>, ms: seq<Machine<S>>, o: Outcome<S>, budget: nat)
    requires Steps(h, ms, o.trace)
  {
    var n := |o.trace|;
    var last := ms[n];
    && n <= budget
    && (o.stop == HandlerFault <==> n > 0 && !Reply(h, ms[n - 1]).ok)
    && match o.stop
       case HandlerFault => o.machine == last
       case Cancelled => n == budget && o.machine == last
       case Drained => n < budget && last.queue == [] && o.machine == last
       case ClockFault =>
         && n < budget && last.queue != [] && !Accepts(last.clock, last.queue[0].ev)
         && o.machine == last.(queue := last.queue[1..])
       case NoHandler =>
         && n < budget && last.queue != [] && Accepts(last.clock, last.queue[0].ev) && last.queue[0].ev.kind !in h
         && o.machine == last.(queue := last.queue[1..], clock := At(last.queue[0].ev.ts))
  }

  /** Every run is such a chain of dispatches, and stops for the reason it says. */
  lemma {:induction false} RunIsChain<S>(h: Handlers<S>, m: Machine<S>, budget: nat) returns (ms: seq<Machine<S>>)
    ensures Steps(h, ms, RunBatch(h, m, budget).trace) && ms[0] == m
    ensures StopsRightly(h, ms, RunBatch(h, m, budget), budget)
    decreases budget
  {
    hide Handled, Reply, Accepts;
    var o := RunBatch(h, m, budget);
    if budget == 0 || m.queue == [] || !Accepts(m.clock, m.queue[0].ev) || m.queue[0].ev.kind !in h {
      ms := [m];
    } else if !Reply(h, m).ok {
      ms := [m, Handled(h, m)];
      assert o.trace == [Dispatch(m.queue[0], At(m.queue[0].ev.ts))];
    } else {
      var rest := RunIsChain(h, Handled(h, m), budget - 1);
      ms := [m] + rest;
      var tail := RunBatch(h, Handled(h, m), budget - 1);
      StepsCons(h, m, rest, tail.trace);
      assert o == tail.(trace := [Dispatch(m.queue[0], At(m.queue[0].ev.ts))] + tail.trace);
      assert ms[|o.trace|] == rest[|tail.trace|];
      if tail.trace != [] { assert ms[|o.trace| - 1] == rest[|tail.trace| - 1]; }
    }
  }

  lemma StepsCons<S>(h: Handlers<S>, m: Machine<S>, rest: seq<Machine<S>>, trace: seq<Dispatch>)
    requires m.queue != [] && m.queue[0].ev.kind in h && Accepts(m.clock, m.queue[0].ev) && Reply(h, m).ok
    requires Steps(h, rest, trace) && rest[0] == Handled(h, m)
    ensures Steps(h, [m] + rest, [Dispatch(m.queue[0], At(m.queue[0].ev.ts))] + trace)
  {
    hide Handled, Reply, Accepts;
    var ms, all := [m] + rest, [Dispatch(m.queue[0], At(m.queue[0].ev.ts))] + trace;
    forall k | 0 <= k < |all|
      ensures && ms[k].queue != [] && ms[k].queue[0].ev.kind in h && Accepts(ms[k].clock, ms[k].queue[0].ev)
              && all[k] == Dispatch(ms[k].queue[0], At(ms[k].queue[0].ev.ts))
              && ms[k + 1] == Handled(h, ms[k])
              && (k + 1 < |all| ==> Reply(h, ms[k]).ok)
    {
      if k > 0 { assert ms[k] == rest[k - 1] && all[k] == trace[k - 1] && ms[k + 1] == rest[k]; }
    }
  }

  // ---- safety over whole runs ----

  /** Each reading is the dispatched event's own time; readings never decrease. */
  predicate ClockMonotone(trace: seq<Dispatch>, start: Instant) {
    && (forall i :: 0 <= i < |trace| ==>
          trace[i].clock == At(trace[i].item.ev.ts) && !Precedes(trace[i].item.ev.ts, start))
    && (forall i, j :: 0 <= i < j < |trace| ==> trace[i].item.ev.ts <= trace[j].item.ev.ts)
  }

  /** In every run, however it stops, the clock never moves back and never faults. */
  lemma {:induction false} ClockNeverReverses<S>(h: Handlers<S>, m: Machine<S>, budget: nat)
    requires WellFormed(m) && Ahead(m)
    ensures RunBatch(h, m, budget).stop != ClockFault
    ensures ClockMonotone(RunBatch(h, m, budget).trace, m.clock)
    ensures WellFormed(RunBatch(h, m, budget).machine) && Ahead(RunBatch(h, m, budget).machine)
    decreases budget
  {
    if budget > 0 && m.queue != [] {
      TailFacts(m.queue, m.nextID);
      if m.queue[0].ev.kind in h {
        HandledKeeps(h, m);
        ClockNeverReverses(h, Handled(h, m), budget - 1);
        hide Handled, Sorted, DrawnBefore;
      }
    }
  }

  /** A run cancelled earlier saw a prefix of what a later one sees; a run that stopped by
      itself is unaffected by cancelling later still. */
  lemma {:induction false} CancelledIsPrefix<S>(h: Handlers<S>, m: Machine<S>, b: nat, c: nat)
    requires b <= c
    ensures RunBatch(h, m, b).trace <= RunBatch(h, m, c).trace
    ensures RunBatch(h, m, b).stop != Cancelled ==> RunBatch(h, m, b) == RunBatch(h, m, c)
    ensures RunBatch(h, m, b).stop == Cancelled ==> |RunBatch(h, m, b).trace| == b
    decreases b
  {
    if b > 0 && m.queue != [] && m.queue[0].ev.kind in h {
      CancelledIsPrefix(h, Handled(h, m), b - 1, c - 1);
    }
  }

  /** No accepted follow-on of `cause` lies below it in (time, kind). */
  predicate NoneBelow(rs: seq<Request>, cause: Event) {
    forall i :: 0 <= i < |rs| && rs[i].Schedule? && Accepts(At(cause.ts), rs[i].ev) ==> !KeyLess(rs[i].ev, cause)
  }

  /** Along this run no handler schedules below the event it is handling. */
  predicate NeverBelow<S>(h: Handlers<S>, m: Machine<S>, budget: nat)
    decreases budget
  {
    budget > 0 && m.queue != [] && Accepts(m.clock, m.queue[0].ev) && m.queue[0].ev.kind in h ==>
      && NoneBelow(Reply(h, m).requests, m.queue[0].ev)
      && (Reply(h, m).ok ==> NeverBelow(h, Handled(h, m), budget - 1))
  }

  predicate StrictTrace(trace: seq<Dispatch>) {
    forall i, j :: 0 <= i < j < |trace| ==> Less(trace[i].item, trace[j].item)
  }

  predicate AllAbove(x: Queued, q: seq<Queued>) {
    forall i :: 0 <= i < |q| ==> Less(x, q[i])
  }

  lemma {:induction false} ServeAbove<S>(m: Machine<S>, rs: seq<Request>, x: Queued)
    requires AllAbove(x, m.queue) && x.id < m.nextID && m.clock == At(x.ev.ts) && NoneBelow(rs, x.ev)
    ensures AllAbove(x, Serve(m, rs).queue)
    decreases |rs|
  {
    if rs != [] {
      if rs[0].Schedule? && Accepts(m.clock, rs[0].ev) {
        InsertAbove(x, m.queue, Queued(rs[0].ev, m.nextID));
      }
      hide Insert, Less, KeyLess;
      ServeAbove(ServeOne(m, rs[0]), rs[1..], x);
    }
  }

  lemma {:induction false} TraceAbove<S>(h: Handlers<S>, m: Machine<S>, budget: nat, x: Queued)
    requires WellFormed(m) && Ahead(m) && NeverBelow(h, m, budget) && AllAbove(x, m.queue)
    ensures forall i :: 0 <= i < |RunBatch(h, m, budget).trace| ==> Less(x, RunBatch(h, m, budget).trace[i].item)
    ensures StrictTrace(RunBatch(h, m, budget).trace)
    decreases budget
  {
    if budget > 0 && m.queue != [] && m.queue[0].ev.kind in h {
      var y, n := m.queue[0], Handled(h, m);
      HandledKeeps(h, m);
      TailFacts(m.queue, m.nextID);
      var r := Reply(h, m);
      ServeAbove(m.(queue := m.queue[1..], clock := At(y.ev.ts), state := r.state), r.requests, y);
      if r.ok {
        TraceAbove(h, n, budget - 1, y);
        hide Less, Handled, NeverBelow;
        var rest := RunBatch(h, n, budget - 1).trace;
        forall i | 0 <= i < |rest| ensures Less(x, rest[i].item) {
          LessIsStrictTotal(x, y, rest[i].item);
        }
      }
    }
  }

  /** `a` occurs in `b` in order, not necessarily contiguously. */
  predicate Embeds<T(==)>(a: seq<T>, b: seq<T>) {
    a == [] || (b != [] && (if a[0] == b[0] then Embeds(a[1..], b[1..]) else Embeds(a, b[1..])))
  }

  lemma {:induction false} EmbedsSkip<T>(a: seq<T>, b: seq<T>)
    requires a != [] && Embeds(a, b)
    ensures Embeds(a[1..], b)
    decreases |b|
  {
    if a[0] == b[0] {
      if |a| > 1 {
        if a[1] == b[0] {
          EmbedsSkip(a[1..], b[1..]);
        }
      }
    } else {
      EmbedsSkip(a, b[1..]);
      if |a| > 1 && a[1] == b[0] {
        EmbedsSkip(a[1..], b[1..]);
      }
    }
  }

  lemma {:induction false} EmbedsLater<T>(a: seq<T>, x: T, b: seq<T>)
    requires Embeds(a, b)
    ensures Embeds(a, [x] + b)
  {
    assert ([x] + b)[1..] == b;
    if a != [] && a[0] == x {
      EmbedsSkip(a, b);
    }
  }

  lemma {:induction false} EmbedsTransitive<T>(a: seq<T>, b: seq<T>, c: seq<T>)
    requires Embeds(a, b) && Embeds(b, c)
    ensures Embeds(a, c)
    decreases |b| + |c|
  {
    if a != [] {
      if b[0] == c[0] {
        if a[0] == b[0] {
          EmbedsTransitive(a[1..], b[1..], c[1..]);
        } else {
          EmbedsTransitive(a, b[1..], c[1..]);
        }
      } else {
        EmbedsTransitive(a, b, c[1..]);
        assert c == [c[0]] + c[1..];
        EmbedsLater(a, c[0], c[1..]);
      }
    }
  }

  lemma {:induction false} EmbedsMember<T>(a: seq<T>, b: seq<T>, x: T)
    requires Embeds(a, b) && x in a
    ensures x in b
    decreases |b|
  {
    if a[0] == b[0] {
      if x != a[0] { EmbedsMember(a[1..], b[1..], x); }
    } else {
      EmbedsMember(a, b[1..], x);
    }
  }

  lemma {:induction false} EmbedsSelf<T>(a: seq<T>)
    ensures Embeds(a, a)
  {
    if a != [] { EmbedsSelf(a[1..]); }
  }

  lemma {:induction false} InsertEmbeds(q: seq<Queued>, x: Queued)
    ensures Embeds(q, Insert(q, x))
  {
    if q == [] {
    } else if Less(x, q[0]) {
      EmbedsSelf(q);
      EmbedsLater(q, x, q);
    } else {
      InsertEmbeds(q[1..], x);
    }
  }

  lemma {:induction false} ServeEmbeds<S>(m: Machine<S>, rs: seq<Request>)
    ensures Embeds(m.queue, Serve(m, rs).queue)
    decreases |rs|
  {
    EmbedsSelf(m.queue);
    if rs != [] {
      var n := ServeOne(m, rs[0]);
      if rs[0].Schedule? { InsertEmbeds(m.queue, Queued(rs[0].ev, m.nextID)); }
      ServeEmbeds(n, rs[1..]);
      EmbedsTransitive(m.queue, n.queue, Serve(n, rs[1..]).queue);
    }
  }

  function Items(trace: seq<Dispatch>): seq<Queued> {
    seq(|trace|, i requires 0 <= i < |trace| => trace[i].item)
  }

  /** A drained run has dispatched everything that was queued, in queue order. */
  lemma {:induction false} DrainedDispatchesAll<S>(h: Handlers<S>, m: Machine<S>, budget: nat)
    requires RunBatch(h, m, budget).stop == Drained
    ensures Embeds(m.queue, Items(RunBatch(h, m, budget).trace))
    decreases budget
  {
    if m.queue != [] {
      var n, rest := Handled(h, m), RunBatch(h, Handled(h, m), budget - 1).trace;
      DrainedDispatchesAll(h, n, budget - 1);
      var r := Reply(h, m);
      ServeEmbeds(m.(queue := m.queue[1..], clock := At(m.queue[0].ev.ts), state := r.state), r.requests);
      EmbedsTransitive(m.queue[1..], n.queue, Items(rest));
      var items := Items(RunBatch(h, m, budget).trace);
      assert items[0] == m.queue[0] && items[1..] == Items(rest);
    }
  }

  lemma {:induction false} AcceptedIsQueued<S>(m: Machine<S>, rs: seq<Request>, k: nat) returns (x: Queued)
    requires k < |rs| && rs[k].Schedule? && Accepts(m.clock, rs[k].ev)
    ensures x.ev == rs[k].ev && x.id >= m.nextID && x in Serve(m, rs).queue
    decreases |rs|
  {
    var n := ServeOne(m, rs[0]);
    if k == 0 {
      x := Queued(rs[0].ev, m.nextID);
      InsertKeeps(m.queue, x);
      ServeEmbeds(n, rs[1..]);
      EmbedsMember(n.queue, Serve(n, rs[1..]).queue, x);
    } else {
      x := AcceptedIsQueued(n, rs[1..], k - 1);
    }
  }

  /** The trace of a drained run is strictly increasing in (time, kind, sequence) exactly
      when no handler scheduled below the event it was handling. */
  lemma {:induction false} StrictIffNeverBelow<S>(h: Handlers<S>, m: Machine<S>, budget: nat)
    requires WellFormed(m) && Ahead(m) && RunBatch(h, m, budget).stop == Drained
    ensures StrictTrace(RunBatch(h, m, budget).trace) <==> NeverBelow(h, m, budget)
    decreases budget
  {
    if m.queue != [] {
      var y, n := m.queue[0], Handled(h, m);
      var rest := RunBatch(h, n, budget - 1).trace;
      assert RunBatch(h, m, budget).trace == [Dispatch(y, At(y.ev.ts))] + rest;
      HandledKeeps(h, m);
      StrictIffNeverBelow(h, n, budget - 1);
      if NeverBelow(h, m, budget) {
        TraceIsStrict(h, m, budget);
      } else if StrictTrace(RunBatch(h, m, budget).trace) {
        StrictTail(Dispatch(y, At(y.ev.ts)), rest);
        StrictMeansNoneBelow(h, m, budget);
      }
    }
  }

  lemma StrictTail(d: Dispatch, rest: seq<Dispatch>)
    requires StrictTrace([d] + rest)
    ensures StrictTrace(rest) && forall i :: 0 <= i < |rest| ==> Less(d.item, rest[i].item)
  {
    hide Less;
    var all := [d] + rest;
    forall i | 0 <= i < |rest| ensures Less(d.item, rest[i].item) {
      assert all[i + 1] == rest[i] && all[0] == d;
    }
    forall i, j | 0 <= i < j < |rest| ensures Less(rest[i].item, rest[j].item) {
      assert all[i + 1] == rest[i] && all[j + 1] == rest[j];
    }
  }

  lemma TraceIsStrict<S>(h: Handlers<S>, m: Machine<S>, budget: nat)
    requires WellFormed(m) && Ahead(m) && NeverBelow(h, m, budget) && m.queue != [] && budget > 0
    requires m.queue[0].ev.kind in h && Reply(h, m).ok
    ensures StrictTrace(RunBatch(h, m, budget).trace)
  {
    var y := m.queue[0];
    HandledKeeps(h, m);
    TailFacts(m.queue, m.nextID);
    var r := Reply(h, m);
    ServeAbove(m.(queue := m.queue[1..], clock := At(y.ev.ts), state := r.state), r.requests, y);
    TraceAbove(h, Handled(h, m), budget - 1, y);
  }

  lemma StrictMeansNoneBelow<S>(h: Handlers<S>, m: Machine<S>, budget: nat)
    requires WellFormed(m) && Ahead(m) && RunBatch(h, m, budget).stop == Drained && m.queue != []
    requires StrictTrace(RunBatch(h, m, budget).trace)
    ensures NoneBelow(Reply(h, m).requests, m.queue[0].ev)
  {
    var y, n, r := m.queue[0], Handled(h, m), Reply(h, m);
    var rest := RunBatch(h, n, budget - 1).trace;
    StrictTail(Dispatch(y, At(y.ev.ts)), rest);
    DrainedDispatchesAll(h, n, budget - 1);
    var served := m.(queue := m.queue[1..], clock := At(y.ev.ts), state := r.state);
    forall k | 0 <= k < |r.requests| && r.requests[k].Schedule? && Accepts(At(y.ev.ts), r.requests[k].ev)
      ensures !KeyLess(r.requests[k].ev, y.ev)
    {
      var x := AcceptedIsQueued(served, r.requests, k);
      EmbedsMember(n.queue, Items(rest), x);
      var i :| 0 <= i < |rest| && Items(rest)[i] == x;
      assert Less(y, rest[i].item);
    }
  }

  // ---- the mutable loop ----

  datatype ScheduleResult = Scheduled(id: nat) | Refused | LoopClosed

  class Loop<S> {
    const clock: SimClock
    const queue: Queue
    var handlers: Handlers<S>
    /** What the registered handlers share and update. */
    var state: S
    var closed: bool

    ghost predicate Valid()
      reads this, queue
    {
      queue.Valid()
    }

    ghost function Contents(): Machine<S>
      reads this, clock, queue
    {
      Machine(queue.model, queue.nextID, clock.now, state)
    }

    constructor (initial: S)
      ensures Valid() && !closed && fresh(clock) && fresh(queue)
      ensures Contents() == Machine([], 0, ZeroTime, initial) && handlers == map[]
    {
      clock := new SimClock();
      queue := new Queue();
      handlers, state, closed := map[], initial, false;
    }

    method Register(kind: Kind, handler: Handler<S>)
      modifies this`handlers
      ensures handlers == old(handlers)[kind := handler]
    {
      handlers := handlers[kind := handler];
    }

    method Schedule(ev: Event) returns (r: ScheduleResult)
      requires Valid()
      modifies queue
      ensures Valid()
      ensures r == if closed then LoopClosed
                   else if Accepts(clock.now, ev) then Scheduled(old(queue.nextID)) else Refused
      ensures Contents() == if closed then old(Contents())
                            else ServeOne(old(Contents()), Request.Schedule(ev))
    {
      if closed {
        return LoopClosed;
      }
      if !ev.utc {
        return Refused;
      }
      if clock.now.At? && ev.ts < clock.now.ns {
        return Refused;
      }
      var id := queue.Push(ev);
      return Scheduled(id);
    }

    /** The calls a handler makes on the loop, in order. */
    method ServeRequests(requests: seq<Request>)
      requires Valid() && !closed
      modifies queue
      ensures Valid() && Contents() == Serve(old(Contents()), requests)
    {
      for i := 0 to |requests|
        invariant Valid() && clock.now == old(clock.now) && state == old(state)
        invariant Serve(Contents(), requests[i..]) == Serve(old(Contents()), requests)
      {
        assert requests[i..][1..] == requests[i + 1..];
        match requests[i] {
          case Schedule(ev) => var _ := Schedule(ev);
          case Draw => var _ := queue.NextSeq();
        }
      }
    }

    /** One turn of the loop: pop, advance the clock, dispatch. */
    method Turn(ghost left: nat) returns (stop: Option<Stop>, ghost done: seq<Dispatch>)
      requires Valid() && !closed && left > 0
      modifies this`state, clock, queue
      ensures Valid()
      ensures stop.Some? ==>
                RunBatch(handlers, old(Contents()), left) == Outcome(done, Contents(), stop.value)
      ensures stop.None? ==>
                RunBatch(handlers, old(Contents()), left) ==
                Prepend(done, RunBatch(handlers, Contents(), left - 1))
    {
      hide Serve, Sorted, DrawnBefore, HeapOrdered;
      ghost var before := Contents();
      done := [];
      var popped := queue.Pop();
      if popped.None? {
        return Some(Drained), done;
      }
      var ev := popped.value;
      var fault := clock.Advance(ev.ts, ev.utc);
      if fault != NoError {
        return Some(ClockFault), done;
      }
      if ev.kind !in handlers {
        return Some(NoHandler), done;
      }
      var reply := handlers[ev.kind](state, ev, queue.nextID);
      state := reply.state;
      ServeRequests(reply.requests);
      assert Contents() == Handled(handlers, before);
      done := [Dispatch(before.queue[0], At(ev.ts))];
      return if reply.ok then None else Some(HandlerFault), done;
    }

    /** Drain the queue, seeing a cancelled context after `budget` dispatches. */
    method Run(budget: nat) returns (stop: Stop, ghost trace: seq<Dispatch>)
      requires Valid() && !closed
      modifies this`state, this`closed, clock, queue
      ensures Valid() && closed
      ensures Outcome(trace, Contents(), stop) == RunBatch(handlers, old(Contents()), budget)
    {
      hide RunBatch, Queue.Valid;
      trace := [];
      var left: nat := budget;
      while left > 0
        invariant Valid() && !closed
        invariant RunBatch(handlers, old(Contents()), budget) ==
                  Prepend(trace, RunBatch(handlers, Contents(), left))
      {
        ghost var done;
        var halt;
        halt, done := Turn(left);
        trace := trace + done;
        if halt.Some? {
          closed := true;
          return halt.value, trace;
        }
        PrependTwice(trace[..|trace| - |done|], done, RunBatch(handlers, Contents(), left - 1));
        left := left - 1;
      }
      CancelledAtOnce(handlers, Contents());
      closed := true;
      return Cancelled, trace;
    }
  }

  lemma CancelledAtOnce<S>(h: Handlers<S>, m: Machine<S>)
    ensures RunBatch(h, m, 0) == Outcome([], m, Cancelled)
  {
  }

  function Prepend<S>(trace: seq<Dispatch>, o: Outcome<S>): Outcome<S> {
    o.(trace := trace + o.trace)
  }

  lemma PrependTwice<S>(a: seq<Dispatch>, b: seq<Dispatch>, o: Outcome<S>)
    ensures Prepend(a, Prepend(b, o)) == Prepend(a + b, o)
  {
  }
}
