/** When the streaming loop and the batch loop dispatch the same events in the same order:
    exactly when every follow-on is due before the next source event. */
module StreamBatch {
  import opened Int64
  import opened Clock
  import opened EventQueue
  import opened BatchLoop
  import opened StreamLoop

  function Events(q: seq<Queued>): seq<Event> {
    seq(|q|, i requires 0 <= i < |q| => q[i].ev)
  }

  /** A batch trace as its handlers saw it, sequence numbers forgotten. */
  function Views(trace: seq<Dispatch>): seq<Seen> {
    seq(|trace|, i requires 0 <= i < |trace| => Seen(trace[i].item.ev, trace[i].clock))
  }

  /** Source events arrive in UTC and in (time, kind) order. */
  predicate InOrder(src: seq<Event>) {
    && (forall i :: 0 <= i < |src| ==> src[i].utc)
    && (forall i, j :: 0 <= i < j < |src| ==> !KeyLess(src[j], src[i]))
  }

  /** The batch loop seeded with the source before it runs. */
  function Seeded<S>(src: seq<Event>, initial: S): Machine<S> {
    Serve(Machine([], 0, ZeroTime, initial), seq(|src|, i requires 0 <= i < |src| => Schedule(src[i])))
  }

  /** The streaming loop before it runs; its virtual clock may start anywhere. */
  function Fed<S>(src: seq<Event>, initial: S, start: Instant): Feed<S> {
    Feed(Machine([], 0, start, initial), ZeroTime, src, false)
  }

  /** Every accepted follow-on of `cause` is strictly before the next source event. */
  predicate DueBefore(rs: seq<Request>, cause: Event, src: seq<Event>) {
    src != [] ==>
      forall i :: 0 <= i < |rs| && rs[i].Schedule? && Accepts(At(cause.ts), rs[i].ev) ==> KeyLess(rs[i].ev, src[0])
  }

  /** ... at every dispatch of the streaming run. */
  predicate FollowOnsFit<S>(h: Handlers<S>, f: Feed<S>, budget: nat)
    decreases budget, f.draining
  {
    budget > 0 ==>
      if !HasNext(f) then f.draining ==> FollowOnsFit(h, f.(draining := false), budget)
      else
        Accepts(f.last, Next(f)) && Next(f).kind in h ==>
          && DueBefore(StreamReply(h, f).requests, Next(f), SourceLeft(f))
          && (StreamReply(h, f).ok ==> FollowOnsFit(h, Dispatched(h, f), budget - 1))
  }

  // ---- queues without sequence numbers ----

  /** Stable insertion by (time, kind). */
  function InsertEvent(q: seq<Event>, e: Event): seq<Event> {
    if q == [] || KeyLess(e, q[0]) then [e] + q else [q[0]] + InsertEvent(q[1..], e)
  }

  lemma {:induction false} InsertForgets(q: seq<Queued>, x: Queued)
    requires DrawnBefore(q, x.id)
    ensures Events(Insert(q, x)) == InsertEvent(Events(q), x.ev)
  {
    if q != [] {
      assert Events(q)[1..] == Events(q[1..]);
      if !Less(x, q[0]) {
        InsertForgets(q[1..], x);
        assert Events(Insert(q, x)) == [q[0].ev] + Events(Insert(q[1..], x));
      } else {
        assert Events([x] + q) == [x.ev] + Events(q);
      }
    } else {
      assert Events([x]) == [x.ev] + Events([]);
    }
  }

  lemma {:induction false} InsertBeforeSource(q: seq<Event>, src: seq<Event>, e: Event)
    requires src != [] ==> KeyLess(e, src[0])
    ensures InsertEvent(q + src, e) == InsertEvent(q, e) + src
  {
    if q == [] {
      assert q + src == src;
      if src == [] { assert [e] + src == [e]; }
    } else {
      assert (q + src)[1..] == q[1..] + src;
      if KeyLess(e, q[0]) {
        assert [e] + (q + src) == [e] + q + src;
      } else {
        InsertBeforeSource(q[1..], src, e);
        assert [q[0]] + (InsertEvent(q[1..], e) + src) == [q[0]] + InsertEvent(q[1..], e) + src;
      }
    }
  }

  /** How the two loops' worlds correspond: which handler states are linked, which events are
      twins, and how many numbers the batch counter is ahead. */
  datatype Bond<!S> = Bond(link: (S, S) -> bool, twin: (Event, Event) -> bool, lead: nat)

  /** Twins differ in what they carry, never in time, kind or zone. */
  ghost predicate KeepsKeys(twin: (Event, Event) -> bool) {
    forall e: Event, d: Event :: twin(e, d) ==> e.ts == d.ts && e.kind == d.kind && e.utc == d.utc
  }

  /** The handlers cannot tell the two loops apart: from linked states and twin events, with the
      batch counter ahead, they ask for twins and end in linked states. Equality bonds handlers
      that ignore the numbers they draw; renumbering bonds those that store them or put them
      into the events they schedule. */
  ghost predicate Uniform<S(!new)>(h: Handlers<S>, bond: Bond<S>) {
    && KeepsKeys(bond.twin)
    && forall s: S, t: S, e: Event, d: Event, m: nat, n: nat ::
         d.kind in h && bond.link(s, t) && bond.twin(e, d) && m == n + bond.lead ==>
           AnswersAlike(h[d.kind](s, e, m), h[d.kind](t, d, n), bond)
  }

  predicate AnswersAlike<S>(a: Response<S>, b: Response<S>, bond: Bond<S>) {
    TwinRequests(a.requests, b.requests, bond.twin) && a.ok == b.ok && bond.link(a.state, b.state)
  }

  predicate TwinRequest(r: Request, q: Request, twin: (Event, Event) -> bool) {
    if r.Schedule? then q.Schedule? && twin(r.ev, q.ev) else q.Draw?
  }

  predicate TwinRequests(rs: seq<Request>, qs: seq<Request>, twin: (Event, Event) -> bool) {
    |rs| == |qs| && forall i :: 0 <= i < |rs| ==> TwinRequest(rs[i], qs[i], twin)
  }

  predicate Paired(xs: seq<Event>, ys: seq<Event>, twin: (Event, Event) -> bool) {
    |xs| == |ys| && forall i :: 0 <= i < |xs| ==> twin(xs[i], ys[i])
  }

  lemma {:induction false} InsertPaired(xs: seq<Event>, ys: seq<Event>, e: Event, d: Event, twin: (Event, Event) -> bool)
    requires KeepsKeys(twin) && Paired(xs, ys, twin) && twin(e, d)
    ensures Paired(InsertEvent(xs, e), InsertEvent(ys, d), twin)
  {
    if xs != [] && !KeyLess(e, xs[0]) {
      InsertPaired(xs[1..], ys[1..], e, d, twin);
    }
  }

  /** Two machines in linked states that differ in the source events queued up front and in the
      numbers those took. */
  ghost predicate Matches<S>(bond: Bond<S>, b: Machine<S>, s: Machine<S>, src: seq<Event>) {
    && WellFormed(b) && WellFormed(s)
    && Paired(Events(b.queue), Events(s.queue) + src, bond.twin)
    && b.nextID == s.nextID + bond.lead && bond.link(b.state, s.state)
  }

  lemma ServeOneMatches<S>(bond: Bond<S>, b: Machine<S>, s: Machine<S>, src: seq<Event>, r: Request, q: Request)
    requires Matches(bond, b, s, src) && KeepsKeys(bond.twin) && TwinRequest(r, q, bond.twin) && b.clock == s.clock
    requires q.Schedule? && Accepts(s.clock, q.ev) && src != [] ==> KeyLess(q.ev, src[0])
    ensures Matches(bond, ServeOne(b, r), ServeOne(s, q), src)
    ensures ServeOne(b, r).clock == b.clock && ServeOne(s, q).clock == s.clock
  {
    if q.Schedule? && Accepts(s.clock, q.ev) {
      hide Less, KeyLess, Insert, InsertEvent, Sorted, DrawnBefore, Paired, Events;
      var x, y := Queued(r.ev, b.nextID), Queued(q.ev, s.nextID);
      InsertFacts(b.queue, x);
      InsertFacts(s.queue, y);
      InsertForgets(b.queue, x);
      InsertForgets(s.queue, y);
      InsertBeforeSource(Events(s.queue), src, q.ev);
      InsertPaired(Events(b.queue), Events(s.queue) + src, r.ev, q.ev, bond.twin);
    }
  }

  lemma {:induction false} ServeMatches<S>(
    bond: Bond<S>, b: Machine<S>, s: Machine<S>, src: seq<Event>, rs: seq<Request>, qs: seq<Request>, cause: Event)
    requires Matches(bond, b, s, src) && KeepsKeys(bond.twin) && TwinRequests(rs, qs, bond.twin)
    requires b.clock == s.clock == At(cause.ts) && DueBefore(qs, cause, src)
    ensures Matches(bond, Serve(b, rs), Serve(s, qs), src)
    decreases |rs|
  {
    if rs != [] {
      hide Matches, KeyLess, Insert, KeepsKeys;
      assert TwinRequest(rs[0], qs[0], bond.twin);
      ServeOneMatches(bond, b, s, src, rs[0], qs[0]);
      assert DueBefore(qs[1..], cause, src);
      ServeMatches(bond, ServeOne(b, rs[0]), ServeOne(s, qs[0]), src, rs[1..], qs[1..], cause);
    }
  }

  /** The states of the two loops at the same point of the same run. The streaming clock may
      start anywhere; it agrees with the batch clock from the first dispatch on. */
  ghost predicate Together<S>(bond: Bond<S>, b: Machine<S>, f: Feed<S>) {
    && Matches(bond, b, f.machine, f.src)
    && b.clock == f.last
    && (f.last != ZeroTime ==> f.machine.clock == f.last)
    && (!f.draining ==> f.machine.queue == [])
  }

  /** Both loops dispatch twins next. */
  lemma SameNext<S>(bond: Bond<S>, b: Machine<S>, f: Feed<S>)
    requires Together(bond, b, f) && HasNext(f)
    ensures b.queue != [] && bond.twin(b.queue[0].ev, Next(f))
    ensures Paired(Events(b.queue[1..]), Events(FollowOnsLeft(f)) + SourceLeft(f), bond.twin)
    ensures Sorted(b.queue[1..]) && DrawnBefore(b.queue[1..], b.nextID)
    ensures Sorted(FollowOnsLeft(f)) && DrawnBefore(FollowOnsLeft(f), f.machine.nextID)
  {
    hide Sorted, DrawnBefore, Events;
    DueNext(f);
    EventsLength(b.queue);
    TailFacts(b.queue, b.nextID);
    if f.draining { TailFacts(f.machine.queue, f.machine.nextID); }
    EventsTail(b.queue);
    assert bond.twin(Events(b.queue)[0], (Events(f.machine.queue) + f.src)[0]);
    PairedTail(Events(b.queue), Next(f), Events(FollowOnsLeft(f)) + SourceLeft(f), bond.twin);
  }

  lemma EventsLength(q: seq<Queued>)
    ensures |Events(q)| == |q|
  {
  }

  lemma EventsTail(q: seq<Queued>)
    requires q != []
    ensures |Events(q)| == |q| && Events(q)[0] == q[0].ev && Events(q[1..]) == Events(q)[1..]
  {
  }

  lemma PairedTail(xs: seq<Event>, y: Event, ys: seq<Event>, twin: (Event, Event) -> bool)
    requires Paired(xs, [y] + ys, twin)
    ensures xs != [] && Paired(xs[1..], ys, twin)
  {
    forall i | 0 <= i < |ys| ensures twin(xs[1..][i], ys[i]) {
      assert ys[i] == ([y] + ys)[i + 1];
    }
  }

  lemma DueNext<S>(f: Feed<S>)
    requires HasNext(f) && (f.draining || f.machine.queue == [])
    ensures Events(f.machine.queue) + f.src == [Next(f)] + (Events(FollowOnsLeft(f)) + SourceLeft(f))
  {
  }

  lemma SameReply<S(!new)>(h: Handlers<S>, bond: Bond<S>, b: Machine<S>, f: Feed<S>)
    requires Uniform(h, bond) && Together(bond, b, f) && HasNext(f) && Next(f).kind in h
    requires b.queue != [] && bond.twin(b.queue[0].ev, Next(f))
    ensures b.queue[0].ev.ts == Next(f).ts && b.queue[0].ev.kind == Next(f).kind && b.queue[0].ev.utc == Next(f).utc
    ensures AnswersAlike(Reply(h, b), StreamReply(h, f), bond)
  {
    hide AnswersAlike, Events, WellFormed, Paired;
    var e, d, n := b.queue[0].ev, Next(f), f.machine.nextID;
    assert bond.link(b.state, f.machine.state);
    assert AnswersAlike(h[d.kind](b.state, e, n + bond.lead), h[d.kind](f.machine.state, d, n), bond);
  }

  /** If the follow-ons of this dispatch fit, the loops stay together. */
  lemma StepTogether<S(!new)>(h: Handlers<S>, bond: Bond<S>, b: Machine<S>, f: Feed<S>)
    requires Uniform(h, bond) && Together(bond, b, f) && HasNext(f) && Next(f).kind in h
    requires DueBefore(StreamReply(h, f).requests, Next(f), SourceLeft(f))
    ensures b.queue != [] && bond.twin(b.queue[0].ev, Next(f)) && b.queue[0].ev.kind == Next(f).kind
    ensures b.queue[0].ev.ts == Next(f).ts && Reply(h, b).ok == StreamReply(h, f).ok
    ensures Together(bond, Handled(h, b), Dispatched(h, f))
  {
    hide Sorted, DrawnBefore, KeyLess, Events, Serve, DueBefore, Paired, TwinRequests, Reply, StreamReply, KeepsKeys;
    SameNext(bond, b, f);
    SameReply(h, bond, b, f);
    var ev, r, q := Next(f), Reply(h, b), StreamReply(h, f);
    var b0 := b.(queue := b.queue[1..], clock := At(ev.ts), state := r.state);
    var s0 := f.machine.(queue := FollowOnsLeft(f), clock := At(ev.ts), state := q.state);
    ServeMatches(bond, b0, s0, SourceLeft(f), r.requests, q.requests, ev);
    ServeClock(b0, r.requests);
    ServeClock(s0, q.requests);
  }

  lemma {:induction false} ServeClock<S>(m: Machine<S>, rs: seq<Request>)
    ensures Serve(m, rs).clock == m.clock
    decreases |rs|
  {
    if rs != [] { ServeClock(ServeOne(m, rs[0]), rs[1..]); }
  }

  /** Twin events at the same clock readings, dispatch by dispatch. */
  predicate TwinTraces(batch: seq<Dispatch>, stream: seq<Seen>, twin: (Event, Event) -> bool) {
    && |batch| == |stream|
    && forall i :: 0 <= i < |batch| ==> twin(batch[i].item.ev, stream[i].ev) && batch[i].clock == stream[i].clock
  }

  lemma TwinTracesStep(d: Dispatch, batch: seq<Dispatch>, s: Seen, stream: seq<Seen>, twin: (Event, Event) -> bool)
    requires TwinTraces(batch, stream, twin) && twin(d.item.ev, s.ev) && d.clock == s.clock
    ensures TwinTraces([d] + batch, [s] + stream, twin)
  {
  }

  /** Where the two loops stand relative to each other; `start` is the streaming clock's reading
      before its first dispatch. */
  ghost predicate EndsAlike<S>(bond: Bond<S>, batch: Outcome<S>, stream: StreamOutcome<S>, start: Instant) {
    var b, f := batch.machine, stream.feed;
    && TwinTraces(batch.trace, stream.trace, bond.twin) && batch.stop == stream.stop
    && bond.link(b.state, f.machine.state)
    && b.nextID == f.machine.nextID + bond.lead
    && b.clock == f.last
    && f.machine.clock == if f.last == ZeroTime then start else b.clock
  }

  /** While follow-ons fit, the loops see twin events at the same clock readings, stop for the
      same reason in linked states and keep the same distance between their counters - wherever
      they are cancelled. */
  lemma {:induction false} RunsTogether<S(!new)>(h: Handlers<S>, bond: Bond<S>, b: Machine<S>, f: Feed<S>, budget: nat)
    requires Uniform(h, bond) && Together(bond, b, f) && FollowOnsFit(h, f, budget)
    ensures EndsAlike(bond, RunBatch(h, b, budget), RunFeed(h, f, budget), f.machine.clock)
    decreases budget, f.draining
  {
    if budget == 0 {
    } else if !HasNext(f) {
      NothingNext(bond, b, f);
      if f.draining { RunsTogether(h, bond, b, f.(draining := false), budget); }
    } else {
      SameNext(bond, b, f);
      KeysAgree(h, bond, b, f);
      if Accepts(f.last, Next(f)) && Next(f).kind in h {
        hide Uniform, Sorted, DrawnBefore, Events, Paired, DueBefore;
        StepTogether(h, bond, b, f);
        StepRuns(h, bond, b, f, budget);
      }
    }
  }

  lemma StepRuns<S(!new)>(h: Handlers<S>, bond: Bond<S>, b: Machine<S>, f: Feed<S>, budget: nat)
    requires budget > 0 && Uniform(h, bond) && HasNext(f) && Next(f).kind in h && b.queue != []
    requires Accepts(f.last, Next(f)) && Accepts(b.clock, b.queue[0].ev)
    requires bond.twin(b.queue[0].ev, Next(f)) && b.queue[0].ev.ts == Next(f).ts && b.queue[0].ev.kind == Next(f).kind
    requires Reply(h, b).ok == StreamReply(h, f).ok && Together(bond, Handled(h, b), Dispatched(h, f))
    requires StreamReply(h, f).ok ==> FollowOnsFit(h, Dispatched(h, f), budget - 1)
    ensures EndsAlike(bond, RunBatch(h, b, budget), RunFeed(h, f, budget), f.machine.clock)
    decreases budget, f.draining, 0
  {
    hide Uniform, Handled, Reply, StreamReply, Accepts, FollowOnsFit, Matches;
    var m, g := Handled(h, b), Dispatched(h, f);
    TogetherMeans(bond, m, g);
    DispatchedLast(h, f);
    if Reply(h, b).ok {
      RunsTogether(h, bond, m, g, budget - 1);
      LastStays(h, g, budget - 1);
    }
    hide Dispatched, Together;
    var batch, stream := RunBatch(h, m, budget - 1), RunFeed(h, g, budget - 1);
    var d, s := Dispatch(b.queue[0], At(b.queue[0].ev.ts)), Seen(Next(f), At(Next(f).ts));
    if Reply(h, b).ok {
      TwinTracesStep(d, batch.trace, s, stream.trace, bond.twin);
    } else {
      TwinTracesStep(d, [], s, [], bond.twin);
    }
  }

  lemma DispatchedLast<S>(h: Handlers<S>, f: Feed<S>)
    requires HasNext(f) && Next(f).kind in h
    ensures Dispatched(h, f).last == At(Next(f).ts)
  {
  }

  /** Once something was dispatched, the last timestamp never goes back to none. */
  lemma {:induction false} LastStays<S>(h: Handlers<S>, f: Feed<S>, budget: nat)
    requires f.last != ZeroTime
    ensures RunFeed(h, f, budget).feed.last != ZeroTime
    decreases budget, f.draining
  {
    if budget == 0 {
    } else if !HasNext(f) {
      if f.draining { LastStays(h, f.(draining := false), budget); }
    } else if Accepts(f.last, Next(f)) && Next(f).kind in h {
      DispatchedLast(h, f);
      LastStays(h, Dispatched(h, f), budget - 1);
    }
  }

  lemma NothingNext<S>(bond: Bond<S>, b: Machine<S>, f: Feed<S>)
    requires Together(bond, b, f) && !HasNext(f)
    ensures f.draining ==> Together(bond, b, f.(draining := false))
    ensures !f.draining ==> b.queue == []
    ensures TogetherEnds(bond, b, f)
  {
    EventsLength(b.queue);
    EventsLength(f.machine.queue);
  }

  ghost predicate TogetherEnds<S>(bond: Bond<S>, b: Machine<S>, f: Feed<S>) {
    && bond.link(b.state, f.machine.state) && b.nextID == f.machine.nextID + bond.lead
    && b.clock == f.last && (f.last != ZeroTime ==> f.machine.clock == f.last)
  }

  lemma TogetherMeans<S>(bond: Bond<S>, b: Machine<S>, f: Feed<S>)
    requires Together(bond, b, f)
    ensures TogetherEnds(bond, b, f)
  {
  }

  lemma KeysAgree<S(!new)>(h: Handlers<S>, bond: Bond<S>, b: Machine<S>, f: Feed<S>)
    requires Uniform(h, bond) && Together(bond, b, f) && HasNext(f) && b.queue != []
    requires bond.twin(b.queue[0].ev, Next(f))
    ensures b.queue[0].ev.kind == Next(f).kind && b.queue[0].ev.ts == Next(f).ts
    ensures Accepts(b.clock, b.queue[0].ev) == Accepts(f.last, Next(f))
  {
    hide Matches;
  }

  /** Seeding an ordered source leaves it in order. */
  lemma {:induction false} SeedKeepsOrder<S>(m: Machine<S>, src: seq<Event>, k: nat)
    requires InOrder(src) && k <= |src| && m.clock == ZeroTime
    requires WellFormed(m) && Events(m.queue) == src[..k]
    ensures var n := Serve(m, seq(|src| - k, i requires 0 <= i < |src| - k => Schedule(src[k + i])));
            && WellFormed(n) && Events(n.queue) == src && n.clock == ZeroTime && n.state == m.state
            && n.nextID == m.nextID + |src| - k
    decreases |src| - k
  {
    hide Insert, InsertEvent, Sorted, DrawnBefore, KeyLess;
    var rs := seq(|src| - k, i requires 0 <= i < |src| - k => Schedule(src[k + i]));
    if k < |src| {
      var x := Queued(src[k], m.nextID);
      InsertFacts(m.queue, x);
      InsertForgets(m.queue, x);
      AppendEvent(src[..k], src[k]);
      assert src[..k + 1] == src[..k] + [src[k]];
      assert rs[0] == Schedule(src[k]);
      assert rs[1..] == seq(|src| - (k + 1), i requires 0 <= i < |src| - (k + 1) => Schedule(src[k + 1 + i]));
      SeedKeepsOrder(ServeOne(m, rs[0]), src, k + 1);
    } else {
      assert src[..k] == src;
    }
  }

  lemma {:induction false} AppendEvent(q: seq<Event>, e: Event)
    requires forall i :: 0 <= i < |q| ==> !KeyLess(e, q[i])
    ensures InsertEvent(q, e) == q + [e]
  {
    if q != [] { AppendEvent(q[1..], e); }
  }

  lemma StartsTogether<S>(bond: Bond<S>, src: seq<Event>, initial: S, start: Instant)
    requires InOrder(src) && Paired(src, src, bond.twin) && bond.link(initial, initial) && bond.lead == |src|
    ensures Together(bond, Seeded(src, initial), Fed(src, initial, start))
  {
    SeededInOrder(src, initial);
    hide Seeded, Sorted, DrawnBefore;
    EmptyWellFormed(Machine([], 0, start, initial));
    assert Events([]) + src == src;
  }

  lemma SeededInOrder<S>(src: seq<Event>, initial: S)
    requires InOrder(src)
    ensures var n := Seeded(src, initial);
            WellFormed(n) && Events(n.queue) == src && n.clock == ZeroTime && n.state == initial && n.nextID == |src|
  {
    hide Sorted, DrawnBefore, InOrder, Serve;
    var m := Machine([], 0, ZeroTime, initial);
    EmptyWellFormed(m);
    assert Events(m.queue) == src[..0];
    SeedKeepsOrder(m, src, 0);
    assert seq(|src|, i requires 0 <= i < |src| => Schedule(src[i])) ==
           seq(|src| - 0, i requires 0 <= i < |src| - 0 => Schedule(src[0 + i]));
  }

  lemma EmptyWellFormed<S>(m: Machine<S>)
    requires m.queue == []
    ensures WellFormed(m)
  {
  }

  /** Stream simulates batch: twin events in the same order at the same clock readings, same
      stop, linked final states, and counters exactly |src| apart, at every cancellation point
      and wherever the streaming clock started. */
  lemma StreamSimulatesBatch<S(!new)>(
    h: Handlers<S>, bond: Bond<S>, src: seq<Event>, initial: S, start: Instant, budget: nat)
    requires InOrder(src) && FollowOnsFit(h, Fed(src, initial, start), budget)
    requires Uniform(h, bond) && bond.lead == |src|
    requires bond.link(initial, initial) && Paired(src, src, bond.twin)
    ensures EndsAlike(bond, RunBatch(h, Seeded(src, initial), budget), RunFeed(h, Fed(src, initial, start), budget), start)
  {
    hide RunBatch, RunFeed, Seeded, FollowOnsFit, Uniform, EndsAlike;
    StartsTogether(bond, src, initial, start);
    RunsTogether(h, bond, Seeded(src, initial), Fed(src, initial, start), budget);
  }

  /** Handlers that ignore the numbers they draw. */
  ghost predicate CounterFree<S(!new)>(h: Handlers<S>) {
    forall kind: Kind, s: S, ev: Event, m: nat, n: nat :: kind in h ==> h[kind](s, ev, m) == h[kind](s, ev, n)
  }

  /** The bond under which events are literally the same. */
  function Literal<S>(link: (S, S) -> bool, lead: nat): Bond<S> {
    Bond(link, (e: Event, d: Event) => e == d, lead)
  }

  /** The bond under which states are the same, too. */
  ghost function SameBond<S>(lead: nat): Bond<S> {
    Literal((s, t) => s == t, lead)
  }

  lemma LiteralTraces(batch: seq<Dispatch>, stream: seq<Seen>)
    requires TwinTraces(batch, stream, (e: Event, d: Event) => e == d)
    ensures Views(batch) == stream
  {
  }

  lemma LiteralRequests(rs: seq<Request>, qs: seq<Request>)
    requires TwinRequests(rs, qs, (e: Event, d: Event) => e == d)
    ensures rs == qs
  {
    forall i | 0 <= i < |rs| ensures rs[i] == qs[i] {
      assert TwinRequest(rs[i], qs[i], (e: Event, d: Event) => e == d);
    }
  }

  lemma LiteralEvents(xs: seq<Event>, ys: seq<Event>)
    requires Paired(xs, ys, (e: Event, d: Event) => e == d)
    ensures xs == ys
  {
  }

  lemma CounterFreeIsUniform<S(!new)>(h: Handlers<S>, lead: nat)
    requires CounterFree(h)
    ensures Uniform(h, SameBond(lead))
  {
    hide CounterFree, AnswersAlike;
    var bond: Bond<S> := SameBond(lead);
    forall s: S, t: S, e: Event, d: Event, m: nat, n: nat
      | d.kind in h && bond.link(s, t) && bond.twin(e, d) && m == n + lead
      ensures AnswersAlike(h[d.kind](s, e, m), h[d.kind](t, d, n), bond)
    {
      SameAnswer(h, d.kind, s, d, m, n);
      AlikeItself(h[d.kind](t, d, n), lead);
    }
  }

  lemma SameAnswer<S(!new)>(h: Handlers<S>, kind: Kind, s: S, ev: Event, m: nat, n: nat)
    requires CounterFree(h) && kind in h
    ensures h[kind](s, ev, m) == h[kind](s, ev, n)
  {
  }

  lemma AlikeItself<S>(r: Response<S>, lead: nat)
    ensures AnswersAlike(r, r, SameBond(lead))
  {
  }

  /** For them stream equals batch: the final states are the same. */
  lemma StreamEqualsBatch<S(!new)>(h: Handlers<S>, src: seq<Event>, initial: S, start: Instant, budget: nat)
    requires InOrder(src) && FollowOnsFit(h, Fed(src, initial, start), budget) && CounterFree(h)
    ensures var batch := RunBatch(h, Seeded(src, initial), budget);
            var stream := RunFeed(h, Fed(src, initial, start), budget);
            && Views(batch.trace) == stream.trace && batch.stop == stream.stop
            && batch.machine.state == stream.feed.machine.state
            && batch.machine.nextID == stream.feed.machine.nextID + |src|
            && batch.machine.clock == stream.feed.last
            && stream.feed.machine.clock == if stream.feed.last == ZeroTime then start else batch.machine.clock
  {
    hide RunBatch, RunFeed, Seeded, Fed, FollowOnsFit, Uniform, TwinTraces, Views;
    CounterFreeIsUniform(h, |src|);
    StreamSimulatesBatch(h, SameBond(|src|), src, initial, start, budget);
    LiteralTraces(RunBatch(h, Seeded(src, initial), budget).trace, RunFeed(h, Fed(src, initial, start), budget).trace);
  }

  // ---- order ids ----

  /** A handler state together with every sequence number drawn so far, in order: the numbers
      the executor turns into order ids. */
  datatype Logged<+S> = Logged(inner: S, drawn: seq<nat>)

  /** The numbers drawn by these requests when the counter stands at n and the clock at ts. */
  function Drawn(rs: seq<Request>, n: nat, ts: int): seq<nat>
    decreases |rs|
  {
    if rs == [] then []
    else
      match rs[0]
      case Draw => [n] + Drawn(rs[1..], n + 1, ts)
      case Schedule(ev) => Drawn(rs[1..], if Accepts(At(ts), ev) then n + 1 else n, ts)
  }

  /** They are the numbers the loop's counter hands out to exactly the draws among the requests. */
  lemma {:induction false} DrawnAreTaken(rs: seq<Request>, n: nat, ts: int, k: nat)
    requires k < |rs| && rs[k].Draw?
    ensures n + Taken(At(ts), rs[..k]) in Drawn(rs, n, ts)
    decreases |rs|
  {
    hide Accepts;
    if k > 0 {
      var m := n + if rs[0].Draw? || Accepts(At(ts), rs[0].ev) then 1 else 0;
      DrawnAreTaken(rs[1..], m, ts, k - 1);
      TakenFirst(At(ts), rs[..k]);
      assert rs[..k][1..] == rs[1..][..k - 1];
    } else {
      assert rs[..0] == [];
    }
  }

  lemma {:induction false} TakenFirst(clock: Instant, rs: seq<Request>)
    requires rs != []
    ensures Taken(clock, rs) == (if rs[0].Draw? || Accepts(clock, rs[0].ev) then 1 else 0) + Taken(clock, rs[1..])
    decreases |rs|
  {
    hide Accepts;
    var n := |rs| - 1;
    if n == 0 {
      assert rs[..0] == [] && rs[1..] == [];
    } else {
      TakenFirst(clock, rs[..n]);
      assert rs[..n][1..] == rs[1..][..n - 1];
    }
  }

  function LogHandler<S>(f: Handler<S>): Handler<Logged<S>> {
    (s: Logged<S>, ev: Event, n: nat) =>
      var r := f(s.inner, ev, n);
      Response(Logged(r.state, s.drawn + Drawn(r.requests, n, ev.ts)), r.requests, r.ok)
  }

  function LogHandlers<S>(h: Handlers<S>): Handlers<Logged<S>> {
    map kind | kind in h :: LogHandler(h[kind])
  }

  /** The same numbers, each `lead` higher. */
  predicate Renumbers(xs: seq<nat>, ys: seq<nat>, lead: nat) {
    |xs| == |ys| && forall i :: 0 <= i < |xs| ==> xs[i] == ys[i] + lead
  }

  lemma {:induction false} DrawnShifts(rs: seq<Request>, n: nat, ts: int, lead: nat)
    ensures Renumbers(Drawn(rs, n + lead, ts), Drawn(rs, n, ts), lead)
    decreases |rs|
  {
    if rs != [] {
      DrawnShifts(rs[1..], n + 1, ts, lead);
      DrawnShifts(rs[1..], n, ts, lead);
    }
  }

  ghost function LogBond<S>(lead: nat): Bond<Logged<S>> {
    Literal((s: Logged<S>, t: Logged<S>) => s.inner == t.inner && Renumbers(s.drawn, t.drawn, lead), lead)
  }

  lemma LogIsUniform<S(!new)>(h: Handlers<S>, lead: nat)
    requires CounterFree(h)
    ensures Uniform(LogHandlers(h), LogBond(lead))
  {
    var bond: Bond<Logged<S>> := LogBond(lead);
    forall s: Logged<S>, t: Logged<S>, e: Event, d: Event, m: nat, n: nat
      | d.kind in h && bond.link(s, t) && bond.twin(e, d) && m == n + lead
      ensures AnswersAlike(LogHandler(h[d.kind])(s, e, m), LogHandler(h[d.kind])(t, d, n), bond)
    {
      SameAnswer(h, d.kind, s.inner, d, m, n);
      DrawnShifts(h[d.kind](t.inner, d, n).requests, n, d.ts, lead);
    }
  }

  /** The numbers handlers draw correspond one by one: batch draws each |src| later, for the
      events it was seeded with. */
  lemma OrderIdsCorrespond<S(!new)>(h: Handlers<S>, src: seq<Event>, initial: S, start: Instant, budget: nat)
    requires InOrder(src) && CounterFree(h)
    requires FollowOnsFit(LogHandlers(h), Fed(src, Logged(initial, []), start), budget)
    ensures var batch := RunBatch(LogHandlers(h), Seeded(src, Logged(initial, [])), budget);
            var stream := RunFeed(LogHandlers(h), Fed(src, Logged(initial, []), start), budget);
            && Views(batch.trace) == stream.trace && batch.stop == stream.stop
            && batch.machine.state.inner == stream.feed.machine.state.inner
            && Renumbers(batch.machine.state.drawn, stream.feed.machine.state.drawn, |src|)
  {
    hide RunBatch, RunFeed, Seeded, Fed, FollowOnsFit, LogHandlers, Uniform, CounterFree, TwinTraces, Views;
    LogIsUniform(h, |src|);
    StreamSimulatesBatch(LogHandlers(h), LogBond(|src|), src, Logged(initial, []), start, budget);
    LiteralTraces(RunBatch(LogHandlers(h), Seeded(src, Logged(initial, [])), budget).trace,
                  RunFeed(LogHandlers(h), Fed(src, Logged(initial, []), start), budget).trace);
  }

  /** Handlers that put a drawn number into the fill they schedule, and remember it when the fill
      comes back. */
  function TaggedFills(): Handlers<seq<int>> {
    map[KIND_BAR := (s: seq<int>, ev: Event, n: nat) =>
          Response(s, [Draw, Schedule(Event(ev.ts, KIND_FILL, true, n))], true),
        KIND_FILL := (s: seq<int>, ev: Event, n: nat) => Response(s + [ev.payload], [], true)]
  }

  /** Fills carry numbers `lead` apart; every other event is the same in both loops. */
  function TagBond(lead: nat): Bond<seq<int>> {
    Bond((s: seq<int>, t: seq<int>) => |s| == |t| && forall i :: 0 <= i < |s| ==> s[i] == t[i] + lead,
         (e: Event, d: Event) => e == d.(payload := d.payload + if d.kind == KIND_FILL then lead else 0),
         lead)
  }

  /** Such handlers are covered too: the loops stay together on a source of bars, with each fill's
      tag |src| higher in the batch loop. */
  lemma TagsCorrespond(src: seq<Event>, start: Instant, budget: nat)
    requires InOrder(src) && (forall i :: 0 <= i < |src| ==> src[i].kind == KIND_BAR)
    requires FollowOnsFit(TaggedFills(), Fed(src, [], start), budget)
    ensures EndsAlike(TagBond(|src|), RunBatch(TaggedFills(), Seeded(src, []), budget),
                      RunFeed(TaggedFills(), Fed(src, [], start), budget), start)
  {
    hide RunBatch, RunFeed, Seeded, Fed, FollowOnsFit, Uniform, EndsAlike;
    TagsAreUniform(|src|);
    StreamSimulatesBatch(TaggedFills(), TagBond(|src|), src, [], start, budget);
  }

  lemma TagsAreUniform(lead: nat)
    ensures Uniform(TaggedFills(), TagBond(lead))
  {
    var h, bond := TaggedFills(), TagBond(lead);
    forall s: seq<int>, t: seq<int>, e: Event, d: Event, m: nat, n: nat
      | d.kind in h && bond.link(s, t) && bond.twin(e, d) && m == n + lead
      ensures AnswersAlike(h[d.kind](s, e, m), h[d.kind](t, d, n), bond)
    {
      if d.kind == KIND_BAR {
        assert h[d.kind](s, e, m).requests == [Draw, Schedule(Event(e.ts, KIND_FILL, true, m))];
        assert h[d.kind](t, d, n).requests == [Draw, Schedule(Event(d.ts, KIND_FILL, true, n))];
      } else {
        assert h[d.kind](s, e, m) == Response(s + [e.payload], [], true);
        assert h[d.kind](t, d, n) == Response(t + [d.payload], [], true);
      }
    }
  }

  // ---- the condition is necessary ----

  function SeenEvents(trace: seq<Seen>): seq<Event> {
    seq(|trace|, i requires 0 <= i < |trace| => trace[i].ev)
  }

  predicate NoRepeats(evs: seq<Event>) {
    forall i, j :: 0 <= i < j < |evs| ==> evs[i] != evs[j]
  }

  lemma {:induction false} EmbedsEvents(a: seq<Queued>, b: seq<Queued>)
    requires Embeds(a, b)
    ensures Embeds(Events(a), Events(b))
    decreases |b|
  {
    if a != [] {
      assert Events(b)[1..] == Events(b[1..]);
      assert Events(a)[1..] == Events(a[1..]);
      if a[0] == b[0] {
        EmbedsEvents(a[1..], b[1..]);
      } else {
        EmbedsEvents(a, b[1..]);
        if a[0].ev == b[0].ev { EmbedsSkip(Events(a), Events(b[1..])); }
      }
    }
  }

  lemma {:induction false} EmbedsAppend<T>(a: seq<T>, b: seq<T>, c: seq<T>)
    requires Embeds(a, b)
    ensures Embeds(a + c, b + c)
    decreases |b|
  {
    if b == [] {
      assert a + c == c && b + c == c;
      EmbedsSelf(c);
    } else {
      assert (b + c)[1..] == b[1..] + c && b + c == [b[0]] + (b[1..] + c);
      if a == [] {
        EmbedsAppend([], b[1..], c);
        EmbedsLater([] + c, b[0], b[1..] + c);
        assert [] + c == a + c;
      } else if a[0] == b[0] {
        EmbedsAppend(a[1..], b[1..], c);
        assert (a + c)[1..] == a[1..] + c;
      } else {
        EmbedsAppend(a, b[1..], c);
      }
    }
  }

  lemma {:induction false} EmbedsPair<T>(q: seq<T>, i: nat, j: nat)
    requires i < j < |q|
    ensures Embeds([q[i], q[j]], q)
    decreases i
  {
    if i == 0 {
      EmbedsOne(q[1..], j - 1);
      assert [q[i], q[j]][1..] == [q[j]];
    } else {
      EmbedsPair(q[1..], i - 1, j - 1);
      assert q == [q[0]] + q[1..];
      EmbedsLater([q[i], q[j]], q[0], q[1..]);
    }
  }

  lemma {:induction false} EmbedsOne<T>(q: seq<T>, j: nat)
    requires j < |q|
    ensures Embeds([q[j]], q)
    decreases j
  {
    if j > 0 && q[j] != q[0] { EmbedsOne(q[1..], j - 1); }
  }

  lemma {:induction false} PairPositions(t: seq<Event>, x: Event, y: Event) returns (i: nat, j: nat)
    requires Embeds([x, y], t)
    ensures i < j < |t| && t[i] == x && t[j] == y
    decreases |t|
  {
    if t[0] == x {
      assert [x, y][1..] == [y];
      EmbedsMember([y], t[1..], y);
      i := 0;
      j :| 0 < j < |t| && t[j] == y;
    } else {
      i, j := PairPositions(t[1..], x, y);
      i, j := i + 1, j + 1;
    }
  }

  /** Without repeats nothing can come both before and after something else. */
  lemma OrderIsUnique(t: seq<Event>, x: Event, y: Event)
    requires NoRepeats(t) && Embeds([x, y], t)
    ensures !Embeds([y, x], t)
  {
    if Embeds([y, x], t) {
      var i, j := PairPositions(t, x, y);
      var k, l := PairPositions(t, y, x);
    }
  }

  /** A drained streaming run has dispatched its follow-ons and then its source, in order. */
  lemma {:induction false} DrainedFeedDispatchesAll<S>(h: Handlers<S>, f: Feed<S>, budget: nat)
    requires RunFeed(h, f, budget).stop == Drained && (f.draining || f.machine.queue == [])
    ensures Embeds(Events(f.machine.queue) + f.src, SeenEvents(RunFeed(h, f, budget).trace))
    decreases budget, f.draining
  {
    hide Embeds, Dispatched, StreamReply;
    if !HasNext(f) {
      if f.draining {
        DrainedFeedDispatchesAll(h, f.(draining := false), budget);
      } else {
        assert Events(f.machine.queue) + f.src == [];
        EmbedsSelf<Event>([]);
        assert SeenEvents([]) == [];
      }
    } else {
      var n := Dispatched(h, f);
      DispatchedDrains(h, f);
      DrainedFeedDispatchesAll(h, n, budget - 1);
      var rest := RunFeed(h, n, budget - 1).trace;
      DispatchedEmbeds(h, f);
      EmbedsTransitive(Events(FollowOnsLeft(f)) + SourceLeft(f), Events(n.machine.queue) + n.src, SeenEvents(rest));
      EmbedsCons(Next(f), Events(FollowOnsLeft(f)) + SourceLeft(f), SeenEvents(rest));
      assert SeenEvents(RunFeed(h, f, budget).trace) == [Next(f)] + SeenEvents(rest);
      DueNext(f);
    }
  }

  lemma EmbedsCons<T>(x: T, a: seq<T>, b: seq<T>)
    requires Embeds(a, b)
    ensures Embeds([x] + a, [x] + b)
  {
  }

  lemma DispatchedEmbeds<S>(h: Handlers<S>, f: Feed<S>)
    requires HasNext(f) && Next(f).kind in h
    ensures Embeds(Events(FollowOnsLeft(f)) + SourceLeft(f),
                   Events(Dispatched(h, f).machine.queue) + Dispatched(h, f).src)
  {
    var r := StreamReply(h, f);
    var m := f.machine.(queue := FollowOnsLeft(f), clock := At(Next(f).ts), state := r.state);
    ServeEmbeds(m, r.requests);
    EmbedsEvents(m.queue, Serve(m, r.requests).queue);
    EmbedsAppend(Events(m.queue), Events(Serve(m, r.requests).queue), SourceLeft(f));
  }

  /** A follow-on that is not due before the next source event is dispatched after it by the
      batch loop ... */
  lemma BatchPutsSourceFirst<S>(b: Machine<S>, rs: seq<Request>, n: Queued, k: nat)
    requires WellFormed(b) && n in b.queue && k < |rs| && rs[k].Schedule?
    requires Accepts(b.clock, rs[k].ev) && !KeyLess(rs[k].ev, n.ev) && Sorted(Serve(b, rs).queue)
    ensures Embeds([n.ev, rs[k].ev], Events(Serve(b, rs).queue))
  {
    hide Serve, Embeds;
    var q := Serve(b, rs).queue;
    var x := AcceptedIsQueued(b, rs, k);
    ServeEmbeds(b, rs);
    EmbedsMember(b.queue, q, n);
    assert n.id < b.nextID;
    assert Less(n, x);
    var i :| 0 <= i < |q| && q[i] == n;
    var j :| 0 <= j < |q| && q[j] == x;
    LessIsStrictTotal(n, x, n);
    assert i < j;
    EmbedsPair(Events(q), i, j);
  }

  /** ... and before it by the streaming loop. */
  lemma StreamPutsFollowOnFirst<S>(s: Machine<S>, rs: seq<Request>, src: seq<Event>, k: nat)
    requires k < |rs| && rs[k].Schedule? && Accepts(s.clock, rs[k].ev) && src != []
    ensures Embeds([rs[k].ev, src[0]], Events(Serve(s, rs).queue) + src)
  {
    var q := Serve(s, rs).queue;
    var x := AcceptedIsQueued(s, rs, k);
    var i :| 0 <= i < |q| && q[i] == x;
    assert (Events(q) + src)[|q|] == src[0] && (Events(q) + src)[i] == x.ev;
    EmbedsPair(Events(q) + src, i, |q|);
  }

  lemma StepMustFit<S(!new)>(
    h: Handlers<S>, link: (S, S) -> bool, lead: nat, b: Machine<S>, f: Feed<S>, budget: nat)
    requires Uniform(h, Literal(link, lead)) && Together(Literal(link, lead), b, f) && HasNext(f) && Ahead(b)
    requires RunBatch(h, b, budget).stop == Drained == RunFeed(h, f, budget).stop
    requires Views(RunBatch(h, b, budget).trace) == RunFeed(h, f, budget).trace
    requires NoRepeats(SeenEvents(RunFeed(h, f, budget).trace))
    ensures DueBefore(StreamReply(h, f).requests, Next(f), SourceLeft(f))
  {
    SameNext(Literal(link, lead), b, f);
    SameReply(h, Literal(link, lead), b, f);
    LiteralRequests(Reply(h, b).requests, StreamReply(h, f).requests);
    LiteralEvents(Events(b.queue[1..]), Events(FollowOnsLeft(f)) + SourceLeft(f));
    var ev, r, src := Next(f), StreamReply(h, f), SourceLeft(f);
    var b0 := b.(queue := b.queue[1..], clock := At(ev.ts), state := Reply(h, b).state);
    var s0 := f.machine.(queue := FollowOnsLeft(f), clock := At(ev.ts), state := r.state);
    HandledKeeps(h, b);
    forall k | src != [] && 0 <= k < |r.requests| && r.requests[k].Schedule? && Accepts(At(ev.ts), r.requests[k].ev)
      ensures KeyLess(r.requests[k].ev, src[0])
    {
      if !KeyLess(r.requests[k].ev, src[0]) {
        var n := b0.queue[|s0.queue|];
        assert n.ev == Events(b0.queue)[|s0.queue|] == (Events(s0.queue) + src)[|s0.queue|] == src[0];
        BatchPutsSourceFirst(b0, r.requests, n, k);
        StreamPutsFollowOnFirst(s0, r.requests, src, k);
        RestsAgree(h, b, f, budget, r.requests[k].ev, src[0]);
      }
    }
  }

  /** What is left of two equal drained traces cannot have a pair in both orders. */
  lemma RestsAgree<S>(h: Handlers<S>, b: Machine<S>, f: Feed<S>, budget: nat, x: Event, y: Event)
    requires budget > 0 && HasNext(f) && Next(f).kind in h && b.queue != [] && b.queue[0].ev == Next(f)
    requires RunBatch(h, b, budget).stop == Drained == RunFeed(h, f, budget).stop
    requires Views(RunBatch(h, b, budget).trace) == RunFeed(h, f, budget).trace
    requires NoRepeats(SeenEvents(RunFeed(h, f, budget).trace))
    requires Embeds([x, y], Events(Dispatched(h, f).machine.queue) + Dispatched(h, f).src)
    ensures !Embeds([y, x], Events(Handled(h, b).queue))
  {
    hide Embeds, RunBatch, RunFeed, Handled, Dispatched, Events, Items, SeenEvents, NoRepeats;
    var n, g := Handled(h, b), Dispatched(h, f);
    TailsAgree(h, b, f, budget);
    var batch, stream := RunBatch(h, n, budget - 1).trace, RunFeed(h, g, budget - 1).trace;
    DrainedDispatchesAll(h, n, budget - 1);
    DispatchedDrains(h, f);
    DrainedFeedDispatchesAll(h, g, budget - 1);
    EmbedsEvents(n.queue, Items(batch));
    EmbedsTransitive([x, y], Events(g.machine.queue) + g.src, SeenEvents(stream));
    OrderIsUnique(SeenEvents(stream), x, y);
    if Embeds([y, x], Events(n.queue)) {
      EmbedsTransitive([y, x], Events(n.queue), Events(Items(batch)));
    }
  }

  lemma DispatchedDrains<S>(h: Handlers<S>, f: Feed<S>)
    requires HasNext(f) && Next(f).kind in h
    ensures Dispatched(h, f).draining
  {
  }

  lemma ViewsStep(d: Dispatch, rest: seq<Dispatch>)
    ensures Views([d] + rest) == [Seen(d.item.ev, d.clock)] + Views(rest)
  {
  }

  lemma TailsAgree<S>(h: Handlers<S>, b: Machine<S>, f: Feed<S>, budget: nat)
    requires budget > 0 && HasNext(f) && Next(f).kind in h && b.queue != [] && b.queue[0].ev == Next(f)
    requires RunBatch(h, b, budget).stop == Drained == RunFeed(h, f, budget).stop
    requires Views(RunBatch(h, b, budget).trace) == RunFeed(h, f, budget).trace
    requires NoRepeats(SeenEvents(RunFeed(h, f, budget).trace))
    ensures RunBatch(h, Handled(h, b), budget - 1).stop == Drained == RunFeed(h, Dispatched(h, f), budget - 1).stop
    ensures Views(RunBatch(h, Handled(h, b), budget - 1).trace) == RunFeed(h, Dispatched(h, f), budget - 1).trace
    ensures Events(Items(RunBatch(h, Handled(h, b), budget - 1).trace)) ==
            SeenEvents(RunFeed(h, Dispatched(h, f), budget - 1).trace)
    ensures NoRepeats(SeenEvents(RunFeed(h, Dispatched(h, f), budget - 1).trace))
  {
    hide Handled, Dispatched;
    var batch := RunBatch(h, Handled(h, b), budget - 1).trace;
    var stream := RunFeed(h, Dispatched(h, f), budget - 1).trace;
    ViewsStep(Dispatch(b.queue[0], At(Next(f).ts)), batch);
    assert RunFeed(h, f, budget).trace[1..] == stream;
    assert Views(RunBatch(h, b, budget).trace)[1..] == Views(batch);
    assert SeenEvents(RunFeed(h, f, budget).trace)[1..] == SeenEvents(stream);
    assert Events(Items(batch)) == SeenEvents(Views(batch));
  }

  lemma {:induction false} RunsMustFit<S(!new)>(
    h: Handlers<S>, link: (S, S) -> bool, lead: nat, b: Machine<S>, f: Feed<S>, budget: nat)
    requires Uniform(h, Literal(link, lead)) && Together(Literal(link, lead), b, f) && Ahead(b)
    requires RunBatch(h, b, budget).stop == Drained == RunFeed(h, f, budget).stop
    requires Views(RunBatch(h, b, budget).trace) == RunFeed(h, f, budget).trace
    requires NoRepeats(SeenEvents(RunFeed(h, f, budget).trace))
    ensures FollowOnsFit(h, f, budget)
    decreases budget, f.draining
  {
    hide RunBatch, RunFeed, Handled, Dispatched, DueBefore, Views, SeenEvents, NoRepeats, Ahead, Uniform;
    if budget == 0 {
    } else if !HasNext(f) {
      if f.draining {
        DrainEnds(h, f, budget);
        RunsMustFit(h, link, lead, b, f.(draining := false), budget);
      }
    } else {
      DrainedStep(h, f, budget);
      SameNext(Literal(link, lead), b, f);
      StepMustFit(h, link, lead, b, f, budget);
      StepTogether(h, Literal(link, lead), b, f);
      hide Together, Matches;
      TogetherIsWellFormed(Literal(link, lead), b, f);
      HandledKeeps(h, b);
      TailsAgree(h, b, f, budget);
      RunsMustFit(h, link, lead, Handled(h, b), Dispatched(h, f), budget - 1);
    }
  }

  lemma TogetherIsWellFormed<S>(bond: Bond<S>, b: Machine<S>, f: Feed<S>)
    requires Together(bond, b, f)
    ensures WellFormed(b)
  {
  }

  lemma DrainedStep<S>(h: Handlers<S>, f: Feed<S>, budget: nat)
    requires RunFeed(h, f, budget).stop == Drained && HasNext(f)
    ensures budget > 0 && Accepts(f.last, Next(f)) && Next(f).kind in h && StreamReply(h, f).ok
  {
  }

  lemma SeedIsAhead<S>(src: seq<Event>, initial: S)
    ensures Ahead(Seeded(src, initial))
  {
    ServeKeeps(Machine([], 0, ZeroTime, initial), seq(|src|, i requires 0 <= i < |src| => Schedule(src[i])));
  }

  /** For runs that drain and never dispatch the same event twice, streaming and batch agree
      if and only if every follow-on was due before the next source event. */
  lemma StreamEqualsBatchIff<S(!new)>(
    h: Handlers<S>, link: (S, S) -> bool, src: seq<Event>, initial: S, start: Instant, budget: nat)
    requires InOrder(src) && Uniform(h, Literal(link, |src|)) && link(initial, initial)
    requires RunBatch(h, Seeded(src, initial), budget).stop == Drained
    requires RunFeed(h, Fed(src, initial, start), budget).stop == Drained
    requires NoRepeats(SeenEvents(RunFeed(h, Fed(src, initial, start), budget).trace))
    ensures Views(RunBatch(h, Seeded(src, initial), budget).trace) == RunFeed(h, Fed(src, initial, start), budget).trace
            <==> FollowOnsFit(h, Fed(src, initial, start), budget)
  {
    hide RunBatch, RunFeed, Seeded, Fed, FollowOnsFit, Uniform;
    StartsTogether(Literal(link, |src|), src, initial, start);
    SeedIsAhead(src, initial);
    if FollowOnsFit(h, Fed(src, initial, start), budget) {
      StreamSimulatesBatch(h, Literal(link, |src|), src, initial, start, budget);
      LiteralTraces(RunBatch(h, Seeded(src, initial), budget).trace, RunFeed(h, Fed(src, initial, start), budget).trace);
    } else if Views(RunBatch(h, Seeded(src, initial), budget).trace) == RunFeed(h, Fed(src, initial, start), budget).trace {
      RunsMustFit(h, link, |src|, Seeded(src, initial), Fed(src, initial, start), budget);
    }
  }

  // ---- two same-time bars with same-time fills diverge ----

  function Bar(t: int64, p: int): Event {
    Event(t, KIND_BAR, true, p)
  }

  function FillOf(t: int64, p: int): Event {
    Event(t, KIND_FILL, true, p)
  }

  /** Every bar schedules a fill at its own timestamp, as internal/core/event.go describes. */
  function FillPerBar(): Handlers<()> {
    map[KIND_BAR := (s: (), ev: Event, n: nat) => Response((), [Schedule(FillOf(ev.ts, ev.payload))], true),
        KIND_FILL := (s: (), ev: Event, n: nat) => Response((), [], true)]
  }

  /** The streaming loop settles each bar's fill before the next bar; the batch loop
      delivers both bars first. */
  lemma SameTimeFillsDiverge(t: int64)
    ensures var src := [Bar(t, 1), Bar(t, 2)];
            var h := FillPerBar();
            && InOrder(src)
            && SeenEvents(RunFeed(h, Fed(src, (), ZeroTime), 5).trace) == [Bar(t, 1), FillOf(t, 1), Bar(t, 2), FillOf(t, 2)]
            && Events(Items(RunBatch(h, Seeded(src, ()), 5).trace)) ==
               [Bar(t, 1), Bar(t, 2), FillOf(t, 1), FillOf(t, 2)]
  {
    StreamSettlesFirst(t);
    BatchDeliversFirst(t);
  }

  lemma ServeNone<S>(m: Machine<S>)
    ensures Serve(m, []) == m
  {
  }

  lemma ServeSingle<S>(m: Machine<S>, r: Request)
    ensures Serve(m, [r]) == ServeOne(m, r)
  {
  }

  lemma InsertSecond(a: Queued, x: Queued)
    requires Less(a, x)
    ensures Insert([a], x) == [a, x]
  {
  }

  lemma StreamSettlesFirst(t: int64)
    ensures var src := [Bar(t, 1), Bar(t, 2)];
            SeenEvents(RunFeed(FillPerBar(), Fed(src, (), ZeroTime), 5).trace) ==
            [Bar(t, 1), FillOf(t, 1), Bar(t, 2), FillOf(t, 2)]
  {
    var h, src := FillPerBar(), [Bar(t, 1), Bar(t, 2)];
    var f0 := Fed(src, (), ZeroTime);
    var f1 := Feed(Machine([Queued(FillOf(t, 1), 0)], 1, At(t), ()), At(t), [Bar(t, 2)], true);
    var f2 := Feed(Machine([], 1, At(t), ()), At(t), [Bar(t, 2)], true);
    var f3 := Feed(Machine([Queued(FillOf(t, 2), 1)], 2, At(t), ()), At(t), [], true);
    var f4 := Feed(Machine([], 2, At(t), ()), At(t), [], true);
    hide Serve;
    assert Dispatched(h, f0) == f1 by { ServeSingle(f0.machine.(clock := At(t)), Schedule(FillOf(t, 1))); }
    assert Dispatched(h, f1) == f2 by { ServeNone(f2.machine); }
    assert Dispatched(h, f2.(draining := false)) == f3 by {
      ServeSingle(f2.machine, Schedule(FillOf(t, 2)));
    }
    assert Dispatched(h, f3) == f4 by { ServeNone(f4.machine); }
    hide Dispatched;
    assert RunFeed(h, f4, 1).trace == [];
    assert RunFeed(h, f3, 2).trace == [Seen(FillOf(t, 2), At(t))];
    assert RunFeed(h, f2, 3).trace == [Seen(Bar(t, 2), At(t)), Seen(FillOf(t, 2), At(t))];
    assert RunFeed(h, f1, 4).trace == [Seen(FillOf(t, 1), At(t))] + RunFeed(h, f2, 3).trace;
    assert RunFeed(h, f0, 5).trace == [Seen(Bar(t, 1), At(t))] + RunFeed(h, f1, 4).trace;
  }

  lemma BatchDeliversFirst(t: int64)
    ensures var src := [Bar(t, 1), Bar(t, 2)];
            && InOrder(src)
            && Events(Items(RunBatch(FillPerBar(), Seeded(src, ()), 5).trace)) ==
               [Bar(t, 1), Bar(t, 2), FillOf(t, 1), FillOf(t, 2)]
  {
    hide Seeded, Handled;
    var h := FillPerBar();
    var b1, b2 := Queued(Bar(t, 1), 0), Queued(Bar(t, 2), 1);
    var g1, g2 := Queued(FillOf(t, 1), 2), Queued(FillOf(t, 2), 3);
    SeedTwo(t);
    BatchSteps(t);
    assert RunBatch(h, Machine([], 4, At(t), ()), 1).trace == [];
    var m3 := Machine([g2], 4, At(t), ());
    assert RunBatch(h, m3, 2).trace == [Dispatch(g2, At(t))];
    var m2 := Machine([g1, g2], 4, At(t), ());
    assert RunBatch(h, m2, 3).trace == [Dispatch(g1, At(t)), Dispatch(g2, At(t))];
    var m1 := Machine([b2, g1], 3, At(t), ());
    assert RunBatch(h, m1, 4).trace == [Dispatch(b2, At(t))] + RunBatch(h, m2, 3).trace;
    var m0 := Machine([b1, b2], 2, ZeroTime, ());
    assert RunBatch(h, m0, 5).trace == [Dispatch(b1, At(t))] + RunBatch(h, m1, 4).trace;
  }

  lemma BatchSteps(t: int64)
    ensures var h := FillPerBar();
            var b1, b2 := Queued(Bar(t, 1), 0), Queued(Bar(t, 2), 1);
            var g1, g2 := Queued(FillOf(t, 1), 2), Queued(FillOf(t, 2), 3);
            && Handled(h, Machine([b1, b2], 2, ZeroTime, ())) == Machine([b2, g1], 3, At(t), ())
            && Handled(h, Machine([b2, g1], 3, At(t), ())) == Machine([g1, g2], 4, At(t), ())
            && Handled(h, Machine([g1, g2], 4, At(t), ())) == Machine([g2], 4, At(t), ())
            && Handled(h, Machine([g2], 4, At(t), ())) == Machine([], 4, At(t), ())
  {
    hide Serve;
    var b1, b2 := Queued(Bar(t, 1), 0), Queued(Bar(t, 2), 1);
    var g1, g2 := Queued(FillOf(t, 1), 2), Queued(FillOf(t, 2), 3);
    InsertSecond(b2, g1);
    InsertSecond(g1, g2);
    assert [b1, b2][1..] == [b2] && [b2, g1][1..] == [g1] && [g1, g2][1..] == [g2];
    ServeSingle(Machine([b2], 2, At(t), ()), Schedule(FillOf(t, 1)));
    ServeSingle(Machine([g1], 3, At(t), ()), Schedule(FillOf(t, 2)));
    ServeNone(Machine([g2], 4, At(t), ()));
    ServeNone(Machine([], 4, At(t), ()));
  }

  lemma SeedTwo(t: int64)
    ensures Seeded([Bar(t, 1), Bar(t, 2)], ()) ==
            Machine([Queued(Bar(t, 1), 0), Queued(Bar(t, 2), 1)], 2, ZeroTime, ())
  {
    var src := [Bar(t, 1), Bar(t, 2)];
    var m := Machine([], 0, ZeroTime, ());
    var rs := seq(|src|, i requires 0 <= i < |src| => Schedule(src[i]));
    assert rs == [Schedule(Bar(t, 1)), Schedule(Bar(t, 2))];
    assert rs[1..] == [Schedule(Bar(t, 2))];
    InsertSecond(Queued(Bar(t, 1), 0), Queued(Bar(t, 2), 1));
    ServeSingle(ServeOne(m, rs[0]), rs[1]);
  }

  // ---- a repeated event hides a late follow-on ----

  /** The first bar schedules an event equal to the second source bar. */
  function EchoBar(): Handlers<()> {
    map[KIND_BAR := (s: (), ev: Event, n: nat) =>
          Response((), if ev.payload == 1 then [Schedule(Bar(ev.ts, 2))] else [], true)]
  }

  /** Why the equivalence asks for distinct events: here both runs drain with equal traces,
      although the follow-on is not due before the next source event. */
  lemma RepeatsHideLateFollowOns(t: int64)
    ensures var src, h := [Bar(t, 1), Bar(t, 2)], EchoBar();
            var batch, stream := RunBatch(h, Seeded(src, ()), 4), RunFeed(h, Fed(src, (), ZeroTime), 4);
            && InOrder(src) && CounterFree(h) && batch.stop == Drained == stream.stop
            && Views(batch.trace) == stream.trace
            && !FollowOnsFit(h, Fed(src, (), ZeroTime), 4)
  {
    hide Serve, Seeded, RunBatch, RunFeed;
    EchoBatch(t);
    EchoStream(t);
    var src, h := [Bar(t, 1), Bar(t, 2)], EchoBar();
    var rs := StreamReply(h, Fed(src, (), ZeroTime)).requests;
    assert rs == [Schedule(Bar(t, 2))] && SourceLeft(Fed(src, (), ZeroTime)) == [Bar(t, 2)];
    assert !KeyLess(rs[0].ev, Bar(t, 2)) && Accepts(At(t), rs[0].ev);
  }

  lemma EchoBatch(t: int64)
    ensures var o := RunBatch(EchoBar(), Seeded([Bar(t, 1), Bar(t, 2)], ()), 4);
            && o.stop == Drained
            && Views(o.trace) == [Seen(Bar(t, 1), At(t)), Seen(Bar(t, 2), At(t)), Seen(Bar(t, 2), At(t))]
  {
    hide Serve, Seeded;
    var h := EchoBar();
    var b1, b2, g := Queued(Bar(t, 1), 0), Queued(Bar(t, 2), 1), Queued(Bar(t, 2), 2);
    var m0, m1 := Machine([b1, b2], 2, ZeroTime, ()), Machine([b2, g], 3, At(t), ());
    var m2, m3 := Machine([g], 3, At(t), ()), Machine([], 3, At(t), ());
    SeedTwo(t);
    InsertSecond(b2, g);
    assert m0.queue[1..] == [b2] && m1.queue[1..] == [g];
    assert Handled(h, m0) == m1 by { ServeSingle(Machine([b2], 2, At(t), ()), Schedule(Bar(t, 2))); }
    assert Handled(h, m1) == m2 by { ServeNone(m2); }
    assert Handled(h, m2) == m3 by { ServeNone(m3); }
    hide Handled;
    assert RunBatch(h, m3, 1) == Outcome([], m3, Drained);
    assert RunBatch(h, m2, 2) == Outcome([Dispatch(g, At(t))], m3, Drained);
    assert RunBatch(h, m1, 3) == Outcome([Dispatch(b2, At(t)), Dispatch(g, At(t))], m3, Drained);
    assert RunBatch(h, m0, 4) == Outcome([Dispatch(b1, At(t)), Dispatch(b2, At(t)), Dispatch(g, At(t))], m3, Drained);
  }

  lemma EchoStream(t: int64)
    ensures var o := RunFeed(EchoBar(), Fed([Bar(t, 1), Bar(t, 2)], (), ZeroTime), 4);
            && o.stop == Drained
            && o.trace == [Seen(Bar(t, 1), At(t)), Seen(Bar(t, 2), At(t)), Seen(Bar(t, 2), At(t))]
  {
    hide Serve;
    var h := EchoBar();
    var f0 := Fed([Bar(t, 1), Bar(t, 2)], (), ZeroTime);
    var f1 := Feed(Machine([Queued(Bar(t, 2), 0)], 1, At(t), ()), At(t), [Bar(t, 2)], true);
    var f2 := Feed(Machine([], 1, At(t), ()), At(t), [Bar(t, 2)], true);
    var f3 := Feed(Machine([], 1, At(t), ()), At(t), [], true);
    assert Dispatched(h, f0) == f1 by { ServeSingle(f0.machine.(clock := At(t)), Schedule(Bar(t, 2))); }
    assert Dispatched(h, f1) == f2 by { ServeNone(f2.machine); }
    assert Dispatched(h, f2.(draining := false)) == f3 by { ServeNone(f2.machine); }
    hide Dispatched;
    var b := Seen(Bar(t, 2), At(t));
    assert RunFeed(h, f3, 1) == StreamOutcome([], f3.(draining := false), Drained);
    assert RunFeed(h, f2, 2) == StreamOutcome([b], f3.(draining := false), Drained);
    assert RunFeed(h, f1, 3) == StreamOutcome([b, b], f3.(draining := false), Drained);
    assert RunFeed(h, f0, 4) == StreamOutcome([Seen(Bar(t, 1), At(t)), b, b], f3.(draining := false), Drained);
  }
}
