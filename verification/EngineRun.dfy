/** Seeding and run shape of internal/engine/engine.go: every bar once, in (time,
    registration) order, and one sample per timestamp after its bars. */
module EngineRun {
  import opened Int64
  import opened Clock
  import opened EventQueue
  import opened BatchLoop
  import opened Sums

  datatype BarRecord = BarRecord(ts: int64, utc: bool)

  datatype Instrument = Instrument(symbol: string, bars: seq<BarRecord>)

  /** A bar's event; the payload is the registration index of its instrument. */
  function BarEvent(reg: nat, b: BarRecord): Event {
    Event(b.ts, KIND_BAR, b.utc, reg)
  }

  function SampleEvent(t: int64): Event {
    Event(t, KIND_SAMPLE, true, -1)
  }

  function BarsOf(reg: nat, bars: seq<BarRecord>): seq<Event> {
    seq(|bars|, i requires 0 <= i < |bars| => BarEvent(reg, bars[i]))
  }

  /** All bar events, instrument by instrument in registration order. */
  function AllBars(instruments: seq<Instrument>): seq<Event> {
    if instruments == [] then []
    else
      var n := |instruments| - 1;
      AllBars(instruments[..n]) + BarsOf(n, instruments[n].bars)
  }

  function TotalBars(instruments: seq<Instrument>): nat {
    if instruments == [] then 0
    else TotalBars(instruments[..|instruments| - 1]) + |instruments[|instruments| - 1].bars|
  }

  ghost function TimesOf(evs: seq<Event>): set<int64> {
    set e | e in evs :: e.ts
  }

  predicate AscendingTimes(ts: seq<int64>) {
    forall i, j :: 0 <= i < j < |ts| ==> ts[i] < ts[j]
  }

  function Samples(ts: seq<int64>): seq<Event> {
    seq(|ts|, i requires 0 <= i < |ts| => SampleEvent(ts[i]))
  }

  predicate AllUTC(evs: seq<Event>) {
    forall i :: 0 <= i < |evs| ==> evs[i].utc
  }

  function Schedules(evs: seq<Event>): seq<Request> {
    seq(|evs|, i requires 0 <= i < |evs| => Request.Schedule(evs[i]))
  }

  /** The machine after scheduling `evs` in order. */
  function SeedWith<S>(m: Machine<S>, evs: seq<Event>): Machine<S> {
    Serve(m, Schedules(evs))
  }

  // ---- seeding ----

  lemma SeedStep<S>(m: Machine<S>, evs: seq<Event>)
    requires evs != []
    ensures SeedWith(m, evs) == SeedWith(ServeOne(m, Request.Schedule(evs[0])), evs[1..])
  {
    assert Schedules(evs)[1..] == Schedules(evs[1..]);
  }

  lemma {:induction false} SeedAppend<S>(m: Machine<S>, a: seq<Event>, b: seq<Event>)
    ensures SeedWith(m, a + b) == SeedWith(SeedWith(m, a), b)
    decreases |a|
  {
    if a == [] {
      assert a + b == b;
    } else {
      SeedStep(m, a);
      SeedStep(m, a + b);
      assert (a + b)[1..] == a[1..] + b;
      SeedAppend(ServeOne(m, Request.Schedule(a[0])), a[1..], b);
    }
  }

  /** The seeded events with the sequence numbers they get. */
  function Numbered(evs: seq<Event>, first: nat): seq<Queued> {
    seq(|evs|, i requires 0 <= i < |evs| => Queued(evs[i], first + i))
  }

  function CountKind(q: seq<Queued>, kind: Kind): nat {
    if q == [] then 0 else (if q[0].ev.kind == kind then 1 else 0) + CountKind(q[1..], kind)
  }

  lemma {:induction false} InsertCounts(q: seq<Queued>, x: Queued, kind: Kind)
    ensures CountKind(Insert(q, x), kind) == CountKind(q, kind) + if x.ev.kind == kind then 1 else 0
  {
    hide Less;
    if q == [] || Less(x, q[0]) {
      assert ([x] + q)[1..] == q;
    } else {
      InsertCounts(q[1..], x, kind);
      assert ([q[0]] + Insert(q[1..], x))[1..] == Insert(q[1..], x);
    }
  }

  function CountEvents(evs: seq<Event>, kind: Kind): nat {
    if evs == [] then 0 else (if evs[0].kind == kind then 1 else 0) + CountEvents(evs[1..], kind)
  }

  lemma SeedsOne<S>(m: Machine<S>, ev: Event, kind: Kind)
    requires m.clock == ZeroTime && WellFormed(m) && ev.utc
    ensures var n, x := ServeOne(m, Request.Schedule(ev)), Queued(ev, m.nextID);
            && WellFormed(n) && n.clock == ZeroTime && n.state == m.state && n.nextID == m.nextID + 1
            && multiset(n.queue) == multiset(m.queue) + multiset{x}
            && CountKind(n.queue, kind) == CountKind(m.queue, kind) + if ev.kind == kind then 1 else 0
  {
    hide Sorted, DrawnBefore, Insert, CountKind;
    var x := Queued(ev, m.nextID);
    InsertFacts(m.queue, x);
    InsertKeeps(m.queue, x);
    InsertCounts(m.queue, x, kind);
  }

  /** Seeding a fresh loop queues exactly the given events, numbered in order. */
  lemma {:induction false} SeedItems<S>(m: Machine<S>, evs: seq<Event>)
    requires m.clock == ZeroTime && WellFormed(m) && AllUTC(evs)
    ensures var n := SeedWith(m, evs);
            && WellFormed(n) && n.clock == ZeroTime && n.state == m.state
            && multiset(n.queue) == multiset(m.queue) + multiset(Numbered(evs, m.nextID))
    decreases |evs|
  {
    hide SeedWith, WellFormed, ServeOne, Numbered;
    if evs == [] {
      SeedNothing(m);
      NumberedStep(evs, m.nextID);
    } else {
      SeedsOne(m, evs[0], KIND_BAR);
      SeedStep(m, evs);
      SeedItems(ServeOne(m, Request.Schedule(evs[0])), evs[1..]);
      NumberedStep(evs, m.nextID);
    }
  }

  lemma NumberedStep(evs: seq<Event>, first: nat)
    ensures evs == [] ==> multiset(Numbered(evs, first)) == multiset{}
    ensures evs != [] ==> multiset(Numbered(evs, first)) ==
                          multiset{Queued(evs[0], first)} + multiset(Numbered(evs[1..], first + 1))
  {
    if evs != [] {
      assert Numbered(evs, first) == [Queued(evs[0], first)] + Numbered(evs[1..], first + 1);
    }
  }

  lemma {:induction false} SeedCounts<S>(m: Machine<S>, evs: seq<Event>, kind: Kind)
    requires m.clock == ZeroTime && WellFormed(m) && AllUTC(evs)
    ensures CountKind(SeedWith(m, evs).queue, kind) == CountKind(m.queue, kind) + CountEvents(evs, kind)
    decreases |evs|
  {
    hide SeedWith, WellFormed, ServeOne, CountKind;
    if evs == [] {
      SeedNothing(m);
    } else {
      SeedsOne(m, evs[0], kind);
      SeedStep(m, evs);
      SeedCounts(ServeOne(m, Request.Schedule(evs[0])), evs[1..], kind);
    }
  }

  // ---- runs whose handlers put only fills on the queue ----

  /** What a handler may do to the loop: draw a sequence number for an order id, or schedule a
      fill. The engine's own executor settles fills inside the handlers; scheduled fills are
      the path its registered fill handler keeps open. */
  datatype Action = DrawID | EmitFill(ts: int64, utc: bool, payload: int)

  /** What one handler does: its new state, its calls on the loop, and whether it succeeded. */
  datatype Effect<+S> = Effect(state: S, actions: seq<Action>, ok: bool)

  type Reaction<!S> = (S, Event, nat) -> Effect<S>

  /** The bodies of handleBar, handleFill and handleSample. */
  datatype Engine<!S> = Engine(onBar: Reaction<S>, onFill: Reaction<S>, onSample: Reaction<S>)

  /** Counters and everything else the engine's handlers update. */
  datatype EngineState<+S> = EngineState(barsProcessed: nat, sampledDays: nat, inner: S)

  function RequestOf(a: Action): Request {
    match a
    case DrawID => Draw
    case EmitFill(ts, utc, payload) => Request.Schedule(Event(ts, KIND_FILL, utc, payload))
  }

  function RequestsOf(actions: seq<Action>): seq<Request> {
    seq(|actions|, i requires 0 <= i < |actions| => RequestOf(actions[i]))
  }

  function Answer<S>(s: EngineState<S>, e: Effect<S>): Response<EngineState<S>> {
    Response(s.(inner := e.state), RequestsOf(e.actions), e.ok)
  }

  function BarHandler<S>(e: Engine<S>): Handler<EngineState<S>> {
    (s: EngineState<S>, ev: Event, n: nat) =>
      Answer(s.(barsProcessed := s.barsProcessed + 1), e.onBar(s.inner, ev, n))
  }

  function FillHandler<S>(e: Engine<S>): Handler<EngineState<S>> {
    (s: EngineState<S>, ev: Event, n: nat) => Answer(s, e.onFill(s.inner, ev, n))
  }

  function SampleHandler<S>(e: Engine<S>): Handler<EngineState<S>> {
    (s: EngineState<S>, ev: Event, n: nat) =>
      Answer(if e.onSample(s.inner, ev, n).ok then s.(sampledDays := s.sampledDays + 1) else s,
             e.onSample(s.inner, ev, n))
  }

  function EngineHandlers<S>(e: Engine<S>): Handlers<EngineState<S>> {
    var bar: Handler<EngineState<S>>, fill: Handler<EngineState<S>>, sample: Handler<EngineState<S>> :=
      BarHandler(e), FillHandler(e), SampleHandler(e);
    map[KIND_BAR := bar, KIND_FILL := fill, KIND_SAMPLE := sample]
  }

  lemma HandlersAnswer<S>(e: Engine<S>, s: EngineState<S>, ev: Event, n: nat)
    ensures var h := EngineHandlers(e);
            && h.Keys == {KIND_BAR, KIND_FILL, KIND_SAMPLE}
            && h[KIND_BAR](s, ev, n) == Answer(s.(barsProcessed := s.barsProcessed + 1), e.onBar(s.inner, ev, n))
            && h[KIND_FILL](s, ev, n) == Answer(s, e.onFill(s.inner, ev, n))
            && h[KIND_SAMPLE](s, ev, n) ==
               Answer(if e.onSample(s.inner, ev, n).ok then s.(sampledDays := s.sampledDays + 1) else s,
                      e.onSample(s.inner, ev, n))
  {
    hide Answer, BarHandler, FillHandler, SampleHandler;
    BarAnswers(e, s, ev, n);
    FillAnswers(e, s, ev, n);
    SampleAnswers(e, s, ev, n);
  }

  lemma BarAnswers<S>(e: Engine<S>, s: EngineState<S>, ev: Event, n: nat)
    ensures BarHandler(e)(s, ev, n) == Answer(s.(barsProcessed := s.barsProcessed + 1), e.onBar(s.inner, ev, n))
  {
    hide Answer;
  }

  lemma FillAnswers<S>(e: Engine<S>, s: EngineState<S>, ev: Event, n: nat)
    ensures FillHandler(e)(s, ev, n) == Answer(s, e.onFill(s.inner, ev, n))
  {
    hide Answer;
  }

  lemma SampleAnswers<S>(e: Engine<S>, s: EngineState<S>, ev: Event, n: nat)
    ensures SampleHandler(e)(s, ev, n) ==
            Answer(if e.onSample(s.inner, ev, n).ok then s.(sampledDays := s.sampledDays + 1) else s,
                   e.onSample(s.inner, ev, n))
  {
    hide Answer;
  }

  /** Everything queued or dispatched that is not a fill. */
  function NonFills(q: seq<Queued>): seq<Queued> {
    if q == [] then []
    else (if q[0].ev.kind == KIND_FILL then [] else [q[0]]) + NonFills(q[1..])
  }

  lemma {:induction false} InsertFill(q: seq<Queued>, x: Queued)
    requires x.ev.kind == KIND_FILL
    ensures NonFills(Insert(q, x)) == NonFills(q)
  {
    hide Less;
    if q == [] || Less(x, q[0]) {
      assert ([x] + q)[1..] == q;
    } else {
      InsertFill(q[1..], x);
      assert ([q[0]] + Insert(q[1..], x))[1..] == Insert(q[1..], x);
    }
  }

  lemma {:induction false} ActionsAddFills<S>(m: Machine<S>, actions: seq<Action>)
    ensures var n := Serve(m, RequestsOf(actions));
            NonFills(n.queue) == NonFills(m.queue) && n.state == m.state && n.clock == m.clock
    decreases |actions|
  {
    if actions != [] {
      var rs := RequestsOf(actions);
      assert rs[1..] == RequestsOf(actions[1..]);
      if actions[0].EmitFill? { InsertFill(m.queue, Queued(rs[0].ev, m.nextID)); }
      hide Insert, NonFills;
      ActionsAddFills(ServeOne(m, rs[0]), actions[1..]);
    }
  }

  /** What the engine's handler of one kind answers. */
  lemma EngineReply<S>(e: Engine<S>, m: Machine<EngineState<S>>)
    requires m.queue != [] && m.queue[0].ev.kind in EngineHandlers(e)
    ensures var r, kind := Reply(EngineHandlers(e), m), m.queue[0].ev.kind;
            && (exists actions :: r.requests == RequestsOf(actions))
            && r.state.barsProcessed == m.state.barsProcessed + (if kind == KIND_BAR then 1 else 0)
            && (r.ok ==> r.state.sampledDays == m.state.sampledDays + if kind == KIND_SAMPLE then 1 else 0)
  {
    hide RequestsOf, EngineHandlers;
    HandlersAnswer(e, m.state, m.queue[0].ev, m.nextID);
  }

  /** Dispatching the head takes it off the queue and adds nothing but fills. */
  lemma SettlingStep<S>(e: Engine<S>, m: Machine<EngineState<S>>)
    requires m.queue != [] && m.queue[0].ev.kind in EngineHandlers(e)
    ensures var h := EngineHandlers(e);
            NonFills(Handled(h, m).queue) == NonFills(m.queue[1..]) && Handled(h, m).state == Reply(h, m).state
  {
    hide EngineHandlers, Serve, RequestsOf, NonFills;
    var r := Reply(EngineHandlers(e), m);
    EngineReply(e, m);
    var actions :| r.requests == RequestsOf(actions);
    ActionsAddFills(m.(queue := m.queue[1..], clock := At(m.queue[0].ev.ts), state := r.state), actions);
  }

  /** A drained engine run dispatches exactly the queued bars and samples, in queue order, and
      counts them - whatever fills are scheduled along the way. */
  lemma {:induction false} SettlingRun<S>(e: Engine<S>, m: Machine<EngineState<S>>, budget: nat)
    requires RunBatch(EngineHandlers(e), m, budget).stop == Drained
    ensures var o := RunBatch(EngineHandlers(e), m, budget);
            && NonFills(Items(o.trace)) == NonFills(m.queue)
            && o.machine.state.barsProcessed == m.state.barsProcessed + CountKind(NonFills(m.queue), KIND_BAR)
            && o.machine.state.sampledDays == m.state.sampledDays + CountKind(NonFills(m.queue), KIND_SAMPLE)
    decreases budget
  {
    hide EngineHandlers, Handled, Reply;
    var h := EngineHandlers(e);
    if m.queue != [] {
      var n := Handled(h, m);
      EngineReply(e, m);
      SettlingStep(e, m);
      SettlingRun(e, n, budget - 1);
      var rest := RunBatch(h, n, budget - 1).trace;
      NonFillsStep(Dispatch(m.queue[0], At(m.queue[0].ev.ts)), rest);
      CountStep(m.queue, KIND_BAR);
      CountStep(m.queue, KIND_SAMPLE);
    }
  }

  lemma NonFillsStep(d: Dispatch, rest: seq<Dispatch>)
    ensures NonFills(Items([d] + rest)) == (if d.item.ev.kind == KIND_FILL then [] else [d.item]) + NonFills(Items(rest))
  {
    assert Items([d] + rest)[1..] == Items(rest);
  }

  lemma CountStep(q: seq<Queued>, kind: Kind)
    requires q != [] && kind != KIND_FILL
    ensures CountKind(NonFills(q), kind) == CountKind(NonFills(q[1..]), kind) + if q[0].ev.kind == kind then 1 else 0
  {
    if q[0].ev.kind == KIND_FILL {
      assert NonFills(q) == NonFills(q[1..]);
    } else {
      assert NonFills(q)[1..] == NonFills(q[1..]);
    }
  }

  /** No sample schedules a fill at its own timestamp. */
  ghost predicate SamplesComeLast<S(!new)>(e: Engine<S>) {
    forall s: S, ev: Event, n: nat :: EmitsLater(e.onSample(s, ev, n).actions, ev.ts)
  }

  predicate EmitsLater(actions: seq<Action>, ts: int64) {
    forall i :: 0 <= i < |actions| && actions[i].EmitFill? ==> actions[i].ts != ts
  }

  lemma FillsFitAbove(actions: seq<Action>, cause: Event)
    requires || cause.kind == KIND_BAR || cause.kind == KIND_FILL
             || (cause.kind == KIND_SAMPLE && EmitsLater(actions, cause.ts))
    ensures NoneBelow(RequestsOf(actions), cause)
  {
  }

  lemma ReplyFitsAbove<S(!new)>(e: Engine<S>, m: Machine<EngineState<S>>)
    requires m.queue != [] && m.queue[0].ev.kind in EngineHandlers(e) && SamplesComeLast(e)
    ensures NoneBelow(Reply(EngineHandlers(e), m).requests, m.queue[0].ev)
  {
    hide EngineHandlers, NoneBelow, RequestsOf, EmitsLater;
    var s, ev, n := m.state, m.queue[0].ev, m.nextID;
    HandlersAnswer(e, s, ev, n);
    if ev.kind == KIND_BAR {
      FillsFitAbove(e.onBar(s.inner, ev, n).actions, ev);
    } else if ev.kind == KIND_FILL {
      FillsFitAbove(e.onFill(s.inner, ev, n).actions, ev);
    } else {
      FillsFitAbove(e.onSample(s.inner, ev, n).actions, ev);
    }
  }

  lemma {:induction false} EngineNeverBelow<S(!new)>(e: Engine<S>, m: Machine<EngineState<S>>, budget: nat)
    requires SamplesComeLast(e)
    ensures NeverBelow(EngineHandlers(e), m, budget)
    decreases budget
  {
    hide EngineHandlers, NoneBelow, SamplesComeLast, Handled, Reply;
    if budget > 0 && m.queue != [] && m.queue[0].ev.kind in EngineHandlers(e) {
      ReplyFitsAbove(e, m);
      EngineNeverBelow(e, Handled(EngineHandlers(e), m), budget - 1);
    }
  }

  // ---- the shape of a clean run ----

  /** Seeds: all bars, then one sample per distinct timestamp. */
  ghost predicate SeedsFor(instruments: seq<Instrument>, ts: seq<int64>) {
    AllUTC(AllBars(instruments)) && AscendingTimes(ts) && Elements(ts) == TimesOf(AllBars(instruments))
  }

  function Seeds(instruments: seq<Instrument>, ts: seq<int64>): seq<Event> {
    AllBars(instruments) + Samples(ts)
  }

  lemma {:induction false} BarsShape(instruments: seq<Instrument>)
    ensures |AllBars(instruments)| == TotalBars(instruments)
    ensures forall i :: 0 <= i < |AllBars(instruments)| ==>
              AllBars(instruments)[i].kind == KIND_BAR && 0 <= AllBars(instruments)[i].payload < |instruments|
    ensures forall i, j :: 0 <= i < j < |AllBars(instruments)| ==>
              AllBars(instruments)[i].payload <= AllBars(instruments)[j].payload
  {
    if instruments != [] { BarsShape(instruments[..|instruments| - 1]); }
  }

  /** `i` is one of the bars of instrument `r`. */
  predicate BarIndex(instruments: seq<Instrument>, r: int, i: int) {
    0 <= r < |instruments| && 0 <= i < |instruments[r].bars|
  }

  /** Where bar i of instrument r stands: after all bars of the instruments before it. */
  function Position(instruments: seq<Instrument>, r: nat, i: nat): nat
    requires BarIndex(instruments, r, i)
  {
    TotalBars(instruments[..r]) + i
  }

  /** The bar's own time and zone, as a bar of its instrument. */
  function BarAt(instruments: seq<Instrument>, r: nat, i: nat): Event
    requires BarIndex(instruments, r, i)
  {
    Event(instruments[r].bars[i].ts, KIND_BAR, instruments[r].bars[i].utc, r)
  }

  /** Every bar is seeded, at its own position, with its own time and zone. */
  lemma {:induction false} EveryBarIsSeeded(instruments: seq<Instrument>, r: nat, i: nat)
    requires BarIndex(instruments, r, i)
    ensures Position(instruments, r, i) < |AllBars(instruments)|
    ensures AllBars(instruments)[Position(instruments, r, i)] == BarAt(instruments, r, i)
  {
    var n := |instruments| - 1;
    BarsShape(instruments[..n]);
    if r < n {
      EveryBarIsSeeded(instruments[..n], r, i);
      assert instruments[..n][..r] == instruments[..r];
    }
  }

  /** And nothing else is: every seeded bar event is the bar of some instrument. */
  lemma {:induction false} OnlyBarsAreSeeded(instruments: seq<Instrument>, p: nat) returns (r: nat, i: nat)
    requires p < |AllBars(instruments)|
    ensures BarIndex(instruments, r, i) && p == Position(instruments, r, i)
    ensures AllBars(instruments)[p] == BarAt(instruments, r, i)
  {
    var n := |instruments| - 1;
    BarsShape(instruments[..n]);
    if p < |AllBars(instruments[..n])| {
      r, i := OnlyBarsAreSeeded(instruments[..n], p);
      assert instruments[..n][..r] == instruments[..r];
    } else {
      r, i := n, p - |AllBars(instruments[..n])|;
    }
  }

  /** What Seed's outcome says of the bars themselves: it succeeds exactly when they are all UTC,
      and samples exactly their times. */
  lemma SeedsMean(instruments: seq<Instrument>)
    ensures AllUTC(AllBars(instruments)) <==>
            forall r, i :: BarIndex(instruments, r, i) ==> instruments[r].bars[i].utc
    ensures forall t :: t in TimesOf(AllBars(instruments)) <==>
              exists r, i :: BarIndex(instruments, r, i) && instruments[r].bars[i].ts == t
  {
    var all := AllBars(instruments);
    forall r, i | BarIndex(instruments, r, i)
      ensures instruments[r].bars[i].ts in TimesOf(all)
      ensures AllUTC(all) ==> instruments[r].bars[i].utc
    {
      EveryBarIsSeeded(instruments, r, i);
      assert all[Position(instruments, r, i)] in all;
    }
    forall p: nat | p < |all|
      ensures exists r, i :: BarIndex(instruments, r, i) && instruments[r].bars[i].ts == all[p].ts
                             && instruments[r].bars[i].utc == all[p].utc
    {
      var r, i := OnlyBarsAreSeeded(instruments, p);
    }
    forall t | t in TimesOf(all)
      ensures exists r, i :: BarIndex(instruments, r, i) && instruments[r].bars[i].ts == t
    {
      var p :| 0 <= p < |all| && all[p].ts == t;
    }
  }

  lemma {:induction false} CountUniform(evs: seq<Event>, kind: Kind, k: Kind)
    requires forall i :: 0 <= i < |evs| ==> evs[i].kind == kind
    ensures CountEvents(evs, k) == if k == kind then |evs| else 0
  {
    if evs != [] { CountUniform(evs[1..], kind, k); }
  }

  lemma {:induction false} CountAppend(a: seq<Event>, b: seq<Event>, kind: Kind)
    ensures CountEvents(a + b, kind) == CountEvents(a, kind) + CountEvents(b, kind)
    decreases |a|
  {
    if a == [] {
      assert a + b == b;
    } else {
      assert (a + b)[1..] == a[1..] + b;
      CountAppend(a[1..], b, kind);
    }
  }

  function SeededEngine<S>(instruments: seq<Instrument>, ts: seq<int64>, inner: S): Machine<EngineState<S>> {
    SeedWith(Machine([], 0, ZeroTime, EngineState(0, 0, inner)), Seeds(instruments, ts))
  }

  lemma SeededFacts<S>(instruments: seq<Instrument>, ts: seq<int64>, inner: S)
    requires SeedsFor(instruments, ts)
    ensures var m := SeededEngine(instruments, ts, inner);
            && WellFormed(m) && Ahead(m) && m.state == EngineState(0, 0, inner)
            && multiset(m.queue) == multiset(Numbered(Seeds(instruments, ts), 0))
            && NonFills(m.queue) == m.queue
            && CountKind(m.queue, KIND_BAR) == TotalBars(instruments)
            && CountKind(m.queue, KIND_SAMPLE) == |ts|
  {
    hide CountEvents, CountKind, SeedWith, Sorted, DrawnBefore, SeedsFor, Seeds, Numbered, AllUTC, NonFills;
    var m0 := Machine([], 0, ZeroTime, EngineState(0, 0, inner));
    var evs := Seeds(instruments, ts);
    SeedTotals(instruments, ts);
    EmptyQueue(m0);
    SeedItems(m0, evs);
    SeedCounts(m0, evs, KIND_BAR);
    SeedCounts(m0, evs, KIND_SAMPLE);
    var m := SeedWith(m0, evs);
    assert multiset(m0.queue) + multiset(Numbered(evs, 0)) == multiset(Numbered(evs, 0));
    forall i | 0 <= i < |m.queue| ensures m.queue[i].ev.kind != KIND_FILL && m.queue[i].ev.utc {
      SeededItem(evs, m.queue, i);
      SeedKinds(instruments, ts, m.queue[i].id);
    }
    NoFills(m.queue);
  }

  lemma SeedKinds(instruments: seq<Instrument>, ts: seq<int64>, i: nat)
    requires SeedsFor(instruments, ts) && i < |Seeds(instruments, ts)|
    ensures Seeds(instruments, ts)[i].utc && Seeds(instruments, ts)[i].kind != KIND_FILL
  {
    BarsShape(instruments);
  }

  lemma {:induction false} NoFills(q: seq<Queued>)
    requires forall i :: 0 <= i < |q| ==> q[i].ev.kind != KIND_FILL
    ensures NonFills(q) == q
  {
    if q != [] { NoFills(q[1..]); }
  }

  /** Engine run shape. After a run that drains, the dispatched bars and samples are the seeded
      events, each exactly once, in strict (time, kind, sequence) order; all bars and one sample
      per distinct timestamp were counted. */
  lemma CleanRunIsComplete<S>(e: Engine<S>, instruments: seq<Instrument>, ts: seq<int64>, inner: S, budget: nat)
    requires SeedsFor(instruments, ts)
    requires RunBatch(EngineHandlers(e), SeededEngine(instruments, ts, inner), budget).stop == Drained
    ensures var o := RunBatch(EngineHandlers(e), SeededEngine(instruments, ts, inner), budget);
            && multiset(NonFills(Items(o.trace))) == multiset(Numbered(Seeds(instruments, ts), 0))
            && Sorted(NonFills(Items(o.trace)))
            && (forall r, i :: BarIndex(instruments, r, i) ==>
                  Queued(BarAt(instruments, r, i), Position(instruments, r, i)) in Items(o.trace))
            && |NonFills(Items(o.trace))| == TotalBars(instruments) + |ts|
            && o.machine.state.barsProcessed == TotalBars(instruments)
            && o.machine.state.sampledDays == |ts|
  {
    hide RunBatch, EngineHandlers, SeededEngine, CountKind, Sorted, DrawnBefore, SeedsFor, Seeds, Numbered, NonFills, Ahead;
    SeededFacts(instruments, ts, inner);
    SettlingRun(e, SeededEngine(instruments, ts, inner), budget);
    CleanRunHolds(instruments, ts,
                  Items(RunBatch(EngineHandlers(e), SeededEngine(instruments, ts, inner), budget).trace));
  }

  /** If samples schedule no fill at their own timestamp, the whole trace, scheduled fills
      included, is in strict order. */
  lemma CleanRunIsSorted<S(!new)>(
    e: Engine<S>, instruments: seq<Instrument>, ts: seq<int64>, inner: S, budget: nat)
    requires SeedsFor(instruments, ts) && SamplesComeLast(e)
    requires RunBatch(EngineHandlers(e), SeededEngine(instruments, ts, inner), budget).stop == Drained
    ensures Sorted(Items(RunBatch(EngineHandlers(e), SeededEngine(instruments, ts, inner), budget).trace))
  {
    hide RunBatch, EngineHandlers, SeededEngine, CountKind, DrawnBefore, SeedsFor, Seeds, Numbered, NonFills, Ahead, Less;
    hide SamplesComeLast, NeverBelow;
    var m := SeededEngine(instruments, ts, inner);
    SeededFacts(instruments, ts, inner);
    EngineNeverBelow(e, m, budget);
    StrictIffNeverBelow(EngineHandlers(e), m, budget);
  }

  lemma EmptyQueue<S>(m: Machine<S>)
    requires m.queue == []
    ensures WellFormed(m) && CountKind(m.queue, KIND_BAR) == CountKind(m.queue, KIND_SAMPLE) == 0
  {
  }

  lemma SeedTotals(instruments: seq<Instrument>, ts: seq<int64>)
    requires SeedsFor(instruments, ts)
    ensures AllUTC(Seeds(instruments, ts))
    ensures CountEvents(Seeds(instruments, ts), KIND_BAR) == TotalBars(instruments)
    ensures CountEvents(Seeds(instruments, ts), KIND_SAMPLE) == |ts|
  {
    BarsShape(instruments);
    hide CountEvents;
    CountAppend(AllBars(instruments), Samples(ts), KIND_BAR);
    CountAppend(AllBars(instruments), Samples(ts), KIND_SAMPLE);
    CountUniform(AllBars(instruments), KIND_BAR, KIND_BAR);
    CountUniform(AllBars(instruments), KIND_BAR, KIND_SAMPLE);
    CountUniform(Samples(ts), KIND_SAMPLE, KIND_BAR);
    CountUniform(Samples(ts), KIND_SAMPLE, KIND_SAMPLE);
  }

  lemma {:induction false} NonFillMember(q: seq<Queued>, i: nat)
    requires i < |q| && q[i].ev.kind != KIND_FILL
    ensures q[i] in NonFills(q)
  {
    if i > 0 { NonFillMember(q[1..], i - 1); }
  }

  /** Reading the order off a sorted trace whose bars and samples are the seeds, with or without
      its fills: within a timestamp the bars come first, in registration order, then the fills,
      then the one sample. */
  lemma CleanRunOrder(instruments: seq<Instrument>, ts: seq<int64>, items: seq<Queued>, i: nat, j: nat)
    requires SeedsFor(instruments, ts) && Sorted(items) && i < j < |items|
    requires multiset(NonFills(items)) == multiset(Numbered(Seeds(instruments, ts), 0))
    ensures items[i].ev.ts <= items[j].ev.ts
    ensures items[i].ev.ts == items[j].ev.ts ==> items[i].ev.kind != KIND_SAMPLE
    ensures items[i].ev.ts == items[j].ev.ts && items[j].ev.kind == KIND_BAR ==>
              items[i].ev.kind == KIND_BAR && items[i].ev.payload <= items[j].ev.payload
  {
    hide NonFills, AllUTC;
    assert Less(items[i], items[j]);
    if items[i].ev.kind != KIND_FILL { SeededMember(instruments, ts, items, i); }
    if items[j].ev.kind != KIND_FILL { SeededMember(instruments, ts, items, j); }
    BarsShape(instruments);
  }

  lemma SeededMember(instruments: seq<Instrument>, ts: seq<int64>, items: seq<Queued>, i: nat)
    requires i < |items| && items[i].ev.kind != KIND_FILL
    requires multiset(NonFills(items)) == multiset(Numbered(Seeds(instruments, ts), 0))
    ensures var evs := Seeds(instruments, ts); items[i].id < |evs| && items[i].ev == evs[items[i].id]
  {
    hide Seeds;
    NonFillMember(items, i);
    var q := NonFills(items);
    var k :| 0 <= k < |q| && q[k] == items[i];
    SeededItem(Seeds(instruments, ts), q, k);
  }

  lemma SeededItem(evs: seq<Event>, items: seq<Queued>, i: nat)
    requires i < |items| && multiset(items) == multiset(Numbered(evs, 0))
    ensures items[i].id < |evs| && items[i].ev == evs[items[i].id]
  {
    assert items[i] in multiset(items);
    assert items[i] in Numbered(evs, 0);
  }

  lemma {:induction false} NonFillOf(q: seq<Queued>, x: Queued)
    requires x in NonFills(q)
    ensures x in q
  {
    if x != q[0] { NonFillOf(q[1..], x); }
  }

  /** What such a trace holds, said of the instruments' own bars: every bar, under its own number,
      and nothing else but one sample per bar time. */
  lemma CleanRunHolds(instruments: seq<Instrument>, ts: seq<int64>, items: seq<Queued>)
    requires SeedsFor(instruments, ts)
    requires multiset(NonFills(items)) == multiset(Numbered(Seeds(instruments, ts), 0))
    ensures |NonFills(items)| == TotalBars(instruments) + |ts|
    ensures forall r, i :: BarIndex(instruments, r, i) ==>
              Queued(BarAt(instruments, r, i), Position(instruments, r, i)) in items
    ensures forall r, i :: BarIndex(instruments, r, i) ==>
              exists k :: 0 <= k < |items| && items[k].ev == Event(instruments[r].bars[i].ts, KIND_SAMPLE, true, -1)
    ensures forall k :: 0 <= k < |items| && items[k].ev.kind != KIND_FILL ==>
              exists r, i :: BarIndex(instruments, r, i) && instruments[r].bars[i].ts == items[k].ev.ts &&
                (|| items[k] == Queued(BarAt(instruments, r, i), Position(instruments, r, i))
                 || items[k].ev == Event(instruments[r].bars[i].ts, KIND_SAMPLE, true, -1))
  {
    var evs := Seeds(instruments, ts);
    BarsShape(instruments);
    assert |NonFills(items)| == |multiset(NonFills(items))| == |multiset(Numbered(evs, 0))| == |evs|;
    hide Seeds, SeedsFor;
    forall r, i | BarIndex(instruments, r, i)
      ensures Queued(BarAt(instruments, r, i), Position(instruments, r, i)) in items
      ensures exists k :: 0 <= k < |items| && items[k].ev == Event(instruments[r].bars[i].ts, KIND_SAMPLE, true, -1)
    {
      BarIsHeld(instruments, ts, items, r, i);
    }
    forall k | 0 <= k < |items| && items[k].ev.kind != KIND_FILL
      ensures exists r, i :: BarIndex(instruments, r, i) && instruments[r].bars[i].ts == items[k].ev.ts &&
                (|| items[k] == Queued(BarAt(instruments, r, i), Position(instruments, r, i))
                 || items[k].ev == Event(instruments[r].bars[i].ts, KIND_SAMPLE, true, -1))
    {
      ItemIsSeeded(instruments, ts, items, k);
    }
  }

  lemma BarIsHeld(instruments: seq<Instrument>, ts: seq<int64>, items: seq<Queued>, r: nat, i: nat)
    requires SeedsFor(instruments, ts) && BarIndex(instruments, r, i)
    requires multiset(NonFills(items)) == multiset(Numbered(Seeds(instruments, ts), 0))
    ensures Queued(BarAt(instruments, r, i), Position(instruments, r, i)) in items
    ensures exists k :: 0 <= k < |items| && items[k].ev == Event(instruments[r].bars[i].ts, KIND_SAMPLE, true, -1)
  {
    var evs, p := Seeds(instruments, ts), Position(instruments, r, i);
    EveryBarIsSeeded(instruments, r, i);
    assert evs[p] == BarAt(instruments, r, i);
    var x := Queued(evs[p], p);
    assert Numbered(evs, 0)[p] == x;
    assert x in multiset(NonFills(items)) by { assert x in multiset(Numbered(evs, 0)); }
    NonFillOf(items, x);
    SeedsMean(instruments);
    var k := EveryTimeIsSampled(instruments, ts, items, instruments[r].bars[i].ts);
  }

  lemma ItemIsSeeded(instruments: seq<Instrument>, ts: seq<int64>, items: seq<Queued>, k: nat)
    requires SeedsFor(instruments, ts) && k < |items| && items[k].ev.kind != KIND_FILL
    requires multiset(NonFills(items)) == multiset(Numbered(Seeds(instruments, ts), 0))
    ensures exists r, i :: BarIndex(instruments, r, i) && instruments[r].bars[i].ts == items[k].ev.ts &&
              (|| items[k] == Queued(BarAt(instruments, r, i), Position(instruments, r, i))
               || items[k].ev == Event(instruments[r].bars[i].ts, KIND_SAMPLE, true, -1))
  {
    SeededMember(instruments, ts, items, k);
    var p, n := items[k].id, |AllBars(instruments)|;
    if p < n {
      var r, i := OnlyBarsAreSeeded(instruments, p);
      assert items[k] == Queued(BarAt(instruments, r, i), Position(instruments, r, i));
    } else {
      var t := ts[p - n];
      assert t in Elements(ts);
      SeedsMean(instruments);
      var r, i :| BarIndex(instruments, r, i) && instruments[r].bars[i].ts == t;
      assert items[k].ev == Event(instruments[r].bars[i].ts, KIND_SAMPLE, true, -1);
    }
  }

  /** Every distinct bar timestamp is sampled in the run. */
  lemma EveryTimeIsSampled(instruments: seq<Instrument>, ts: seq<int64>, items: seq<Queued>, t: int64) returns (i: nat)
    requires SeedsFor(instruments, ts) && t in TimesOf(AllBars(instruments))
    requires multiset(NonFills(items)) == multiset(Numbered(Seeds(instruments, ts), 0))
    ensures i < |items| && items[i].ev == SampleEvent(t)
  {
    assert t in Elements(ts);
    var k :| 0 <= k < |ts| && ts[k] == t;
    var evs := Seeds(instruments, ts);
    var p := |AllBars(instruments)| + k;
    assert evs[p] == SampleEvent(t);
    var x := Queued(evs[p], p);
    assert Numbered(evs, 0)[p] == x;
    assert x in multiset(Numbered(evs, 0));
    assert x in multiset(NonFills(items));
    NonFillOf(items, x);
    i :| 0 <= i < |items| && items[i] == x;
  }

  // ---- the code ----

  method SortTimes(times: set<int64>) returns (ts: seq<int64>)
    ensures AscendingTimes(ts) && Elements(ts) == times
  {
    var rest := times;
    ts := [];
    while rest != {}
      invariant rest <= times && AscendingTimes(ts) && Elements(ts) == times - rest
      decreases rest
    {
      var t :| t in rest;
      InsertTimeFacts(ts, t);
      ts := InsertTime(ts, t);
      assert times - rest + {t} == times - (rest - {t});
      rest := rest - {t};
    }
  }

  function InsertTime(ts: seq<int64>, t: int64): seq<int64> {
    if ts == [] || t < ts[0] then [t] + ts else [ts[0]] + InsertTime(ts[1..], t)
  }

  lemma {:induction false} InsertTimeFacts(ts: seq<int64>, t: int64)
    requires AscendingTimes(ts) && t !in ts
    ensures AscendingTimes(InsertTime(ts, t)) && Elements(InsertTime(ts, t)) == Elements(ts) + {t}
  {
    if ts != [] && t > ts[0] {
      var rest := InsertTime(ts[1..], t);
      InsertTimeFacts(ts[1..], t);
      ElementsCons(ts[0], rest);
      ElementsCons(ts[0], ts[1..]);
      assert ts == [ts[0]] + ts[1..];
      ConsAscending(ts[0], rest);
    } else {
      ElementsCons(t, ts);
      ConsAscending(t, ts);
    }
  }

  lemma ElementsCons(t: int64, ts: seq<int64>)
    ensures Elements([t] + ts) == {t} + Elements(ts)
    ensures forall x :: x in Elements(ts) <==> x in ts
  {
  }

  lemma ConsAscending(t: int64, ts: seq<int64>)
    requires AscendingTimes(ts) && forall x :: x in Elements(ts) ==> t < x
    ensures AscendingTimes([t] + ts)
  {
    forall i | 0 <= i < |ts| ensures t < ts[i] {
      assert ts[i] in Elements(ts);
    }
  }

  /** Schedule events in order, stopping at the first one refused. */
  method ScheduleAll<S>(loop: Loop<S>, evs: seq<Event>) returns (ok: bool)
    requires loop.Valid() && !loop.closed && loop.clock.now == ZeroTime
    modifies loop.queue
    ensures loop.Valid() && (ok <==> AllUTC(evs))
    ensures ok ==> loop.Contents() == SeedWith(old(loop.Contents()), evs)
  {
    hide SeedWith, Insert, Sorted, DrawnBefore, HeapOrdered;
    assert evs[..0] == [];
    SeedNothing(loop.Contents());
    for i := 0 to |evs|
      invariant loop.Valid() && loop.state == old(loop.state)
      invariant forall k :: 0 <= k < i ==> evs[k].utc
      invariant loop.Contents() == SeedWith(old(loop.Contents()), evs[..i])
    {
      var r := loop.Schedule(evs[i]);
      if !r.Scheduled? {
        return false;
      }
      SeedOneMore(old(loop.Contents()), evs, i);
    }
    assert evs[..|evs|] == evs;
    return true;
  }

  lemma SeedNothing<S>(m: Machine<S>)
    ensures SeedWith(m, []) == m
  {
  }

  lemma SeedOneMore<S>(m: Machine<S>, evs: seq<Event>, i: nat)
    requires i < |evs|
    ensures SeedWith(m, evs[..i + 1]) == ServeOne(SeedWith(m, evs[..i]), Request.Schedule(evs[i]))
  {
    assert evs[..i + 1] == evs[..i] + [evs[i]];
    SeedAppend(m, evs[..i], [evs[i]]);
    SeedStep(SeedWith(m, evs[..i]), [evs[i]]);
    assert [evs[i]][1..] == [];
  }

  /** Engine.seed: bars instrument by instrument, then one sample per unique timestamp. */
  method Seed<S>(loop: Loop<S>, instruments: seq<Instrument>) returns (ok: bool, total: nat, ts: seq<int64>)
    requires loop.Valid() && !loop.closed && loop.clock.now == ZeroTime
    modifies loop.queue
    ensures loop.Valid() && (ok <==> forall r, i :: BarIndex(instruments, r, i) ==> instruments[r].bars[i].utc)
    ensures ok ==> forall t :: t in ts <==> exists r, i :: BarIndex(instruments, r, i) && instruments[r].bars[i].ts == t
    ensures ok ==> SeedsFor(instruments, ts) && total == TotalBars(instruments)
    ensures ok ==> loop.Contents() == SeedWith(old(loop.Contents()), Seeds(instruments, ts))
  {
    hide SeedWith;
    SeedsMean(instruments);
    ts, total := [], 0;
    ghost var start := loop.Contents();
    var times: set<int64> := {};
    SeedNothing(start);
    for n := 0 to |instruments|
      invariant loop.Valid() && loop.clock.now == ZeroTime && loop.state == old(loop.state)
      invariant AllUTC(AllBars(instruments[..n])) && total == TotalBars(instruments[..n])
      invariant times == TimesOf(AllBars(instruments[..n]))
      invariant loop.Contents() == SeedWith(start, AllBars(instruments[..n]))
    {
      var evs := BarsOf(n, instruments[n].bars);
      BarsStep(instruments, n);
      SeedAppend(start, AllBars(instruments[..n]), evs);
      ok := ScheduleAll(loop, evs);
      if !ok {
        BarsPrefix(instruments, n + 1);
        return;
      }
      times := times + set e | e in evs :: e.ts;
      total := total + |instruments[n].bars|;
    }
    assert instruments[..|instruments|] == instruments;
    ts := SortTimes(times);
    SeedAppend(start, AllBars(instruments), Samples(ts));
    ok := ScheduleAll(loop, Samples(ts));
    assert forall t :: t in ts <==> t in Elements(ts);
  }

  lemma BarsStep(instruments: seq<Instrument>, n: nat)
    requires n < |instruments|
    ensures var before, evs := AllBars(instruments[..n]), BarsOf(n, instruments[n].bars);
            && AllBars(instruments[..n + 1]) == before + evs
            && TotalBars(instruments[..n + 1]) == TotalBars(instruments[..n]) + |instruments[n].bars|
            && TimesOf(before + evs) == TimesOf(before) + TimesOf(evs)
            && (AllUTC(before + evs) <==> AllUTC(before) && AllUTC(evs))
  {
    assert instruments[..n + 1][..n] == instruments[..n];
    var before, evs := AllBars(instruments[..n]), BarsOf(n, instruments[n].bars);
    assert forall i :: 0 <= i < |evs| ==> (before + evs)[|before| + i] == evs[i];
    assert forall i :: 0 <= i < |before| ==> (before + evs)[i] == before[i];
  }

  lemma {:induction false} BarsPrefix(instruments: seq<Instrument>, n: nat)
    requires n <= |instruments| && !AllUTC(AllBars(instruments[..n]))
    ensures !AllUTC(AllBars(instruments))
    decreases |instruments| - n
  {
    if n == |instruments| {
      assert instruments[..n] == instruments;
    } else {
      BarsStep(instruments, n);
      BarsPrefix(instruments, n + 1);
    }
  }
}
