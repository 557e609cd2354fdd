/** The streaming loop of internal/core/stream.go under its virtual clock discipline. */
module StreamLoop {
  import opened Int64
  import opened Clock
  import opened EventQueue
  import opened BatchLoop

  /** One dispatch as a handler sees it: the event and the clock reading. */
  datatype Seen = Seen(ev: Event, clock: Instant)

  /** `machine.queue` holds only follow-ons; `last` is the last dispatched timestamp. */
  datatype Feed<+S> = Feed(machine: Machine<S>, last: Instant, src: seq<Event>, draining: bool)

  datatype StreamOutcome<+S> = StreamOutcome(trace: seq<Seen>, feed: Feed<S>, stop: Stop)

  /** Something is left to dispatch from this state without pulling the source dry. */
  predicate HasNext<S>(f: Feed<S>) {
    if f.draining then f.machine.queue != [] else f.src != []
  }

  /** The event dispatched next: the queue's head while draining, else the next source event. */
  function Next<S>(f: Feed<S>): Event
    requires HasNext(f)
  {
    if f.draining then f.machine.queue[0].ev else f.src[0]
  }

  function SourceLeft<S>(f: Feed<S>): seq<Event>
    requires HasNext(f)
  {
    if f.draining then f.src else f.src[1..]
  }

  function FollowOnsLeft<S>(f: Feed<S>): seq<Queued>
    requires HasNext(f)
  {
    if f.draining then f.machine.queue[1..] else f.machine.queue
  }

  function StreamReply<S>(h: Handlers<S>, f: Feed<S>): Response<S>
    requires HasNext(f) && Next(f).kind in h
  {
    h[Next(f).kind](f.machine.state, Next(f), f.machine.nextID)
  }

  /** The state once the next event has been dispatched and its requests served. */
  function Dispatched<S>(h: Handlers<S>, f: Feed<S>): Feed<S>
    requires HasNext(f) && Next(f).kind in h
  {
    var ev, r := Next(f), StreamReply(h, f);
    var m := f.machine.(queue := FollowOnsLeft(f), clock := At(ev.ts), state := r.state);
    Feed(Serve(m, r.requests), At(ev.ts), SourceLeft(f), true)
  }

  /** RunStream: dispatch a source event, drain the follow-ons, repeat. */
  function RunFeed<S>(h: Handlers<S>, f: Feed<S>, budget: nat): StreamOutcome<S>
    decreases budget, f.draining
  {
    if budget == 0 then StreamOutcome([], f, Cancelled)
    else if !HasNext(f) then
      if f.draining then RunFeed(h, f.(draining := false), budget) else StreamOutcome([], f, Drained)
    else
      var ev := Next(f);
      var taken := f.(machine := f.machine.(queue := FollowOnsLeft(f)), src := SourceLeft(f));
      if !Accepts(f.last, ev) then StreamOutcome([], taken, ClockFault)
      else if ev.kind !in h then
        StreamOutcome([], taken.(machine := taken.machine.(clock := At(ev.ts)), last := At(ev.ts)), NoHandler)
      else
        var next := Dispatched(h, f);
        var rest := if StreamReply(h, f).ok then RunFeed(h, next, budget - 1)
                    else StreamOutcome([], next, HandlerFault);
        rest.(trace := [Seen(ev, At(ev.ts))] + rest.trace)
  }

  // ---- what a run means, without recursion ----

  /** A drained queue hands over to the source. */
  function Ready<S>(f: Feed<S>): Feed<S> {
    if f.draining && f.machine.queue == [] then f.(draining := false) else f
  }

  /** `fs` are the states along a run: in each the next event - a follow-on while any is left, else
      a source event - is accepted and has a handler, is dispatched at its own time, and leaves the
      next state; every reply but perhaps the last one is ok. */
  predicate FeedSteps<S(==)>(h: Handlers<S>, fs: seq<Feed<S>>, trace: seq<Seen>) {
    && |fs| == |trace| + 1
    && forall k :: 0 <= k < |trace| ==> Delivers(h, Ready(fs[k]), trace[k], fs[k + 1], k + 1 < |trace|)
  }

  predicate Delivers<S(==)>(h: Handlers<S>, f: Feed<S>, seen: Seen, next: Feed<S>, goesOn: bool) {
    && HasNext(f) && Next(f).kind in h && Accepts(f.last, Next(f))
    && seen == Seen(Next(f), At(Next(f).ts)) && next == Dispatched(h, f)
    && (goesOn ==> StreamReply(h, f).ok)
  }

  /** Why a run stopped, and in what state. */
  predicate FeedStopsRightly<S(==)>(h: Handlers<S>, fs: seq<Feed<S>>, o: StreamOutcome<S>, budget: nat)
    requires FeedSteps(h, fs, o.trace)
  {
    var n := |o.trace|;
    var last := Ready(fs[n]);
    && n <= budget
    && (n > 0 ==> Delivers(h, Ready(fs[n - 1]), o.trace[n - 1], fs[n], false))
    && (o.stop == HandlerFault <==> n > 0 && !StreamReply(h, Ready(fs[n - 1])).ok)
    && match o.stop
       case HandlerFault => o.feed == fs[n]
       case Cancelled => n == budget && o.feed == fs[n]
       case Drained => n < budget && !last.draining && last.src == [] && o.feed == last
       case ClockFault =>
         && n < budget && HasNext(last) && !Accepts(last.last, Next(last))
         && o.feed.machine == last.machine.(queue := FollowOnsLeft(last))
       case NoHandler =>
         && n < budget && HasNext(last) && Accepts(last.last, Next(last)) && Next(last).kind !in h
         && o.feed.machine == last.machine.(queue := FollowOnsLeft(last), clock := At(Next(last).ts))
  }

  /** Every streaming run is such a chain of dispatches, and stops for the reason it says. */
  lemma {:induction false} FeedIsChain<S>(h: Handlers<S>, f: Feed<S>, budget: nat) returns (fs: seq<Feed<S>>)
    ensures FeedSteps(h, fs, RunFeed(h, f, budget).trace) && fs[0] == f
    ensures FeedStopsRightly(h, fs, RunFeed(h, f, budget), budget)
    decreases budget
  {
    FeedUnfolds(h, f, budget);
    hide Dispatched, StreamReply, Accepts, RunFeed;
    var g := Ready(f);
    if budget == 0 || !HasNext(g) || !Accepts(g.last, Next(g)) || Next(g).kind !in h {
      fs := [f];
    } else if !StreamReply(h, g).ok {
      fs := [f, Dispatched(h, g)];
    } else {
      var rest := FeedIsChain(h, Dispatched(h, g), budget - 1);
      var o, tail := RunFeed(h, f, budget), RunFeed(h, Dispatched(h, g), budget - 1);
      fs := [f] + rest;
      FeedStepsCons(h, f, rest, tail.trace);
      assert fs[|o.trace|] == rest[|tail.trace|];
      if tail.trace != [] { assert fs[|o.trace| - 1] == rest[|tail.trace| - 1]; }
    }
  }

  /** One step of the run, from a state that is ready. */
  ghost predicate FeedStep<S>(h: Handlers<S>, g: Feed<S>, o: StreamOutcome<S>, budget: nat)
    requires budget > 0
  {
    if !HasNext(g) then o == StreamOutcome([], g, Drained) && !g.draining
    else if Accepts(g.last, Next(g)) && Next(g).kind in h then
      var d := Seen(Next(g), At(Next(g).ts));
      o == if StreamReply(h, g).ok then Before([d], RunFeed(h, Dispatched(h, g), budget - 1))
           else StreamOutcome([d], Dispatched(h, g), HandlerFault)
    else
      && o.trace == []
      && if !Accepts(g.last, Next(g)) then
           o.stop == ClockFault && o.feed.machine == g.machine.(queue := FollowOnsLeft(g))
         else
           && o.stop == NoHandler
           && o.feed.machine == g.machine.(queue := FollowOnsLeft(g), clock := At(Next(g).ts))
  }

  lemma FeedUnfolds<S>(h: Handlers<S>, f: Feed<S>, budget: nat)
    ensures budget == 0 ==> RunFeed(h, f, budget) == StreamOutcome([], f, Cancelled)
    ensures budget > 0 ==> FeedStep(h, Ready(f), RunFeed(h, f, budget), budget)
  {
    if budget == 0 {
      StreamCancelled(h, f);
    } else {
      hide FeedStep, RunFeed;
      ReadyUnfolds(h, Ready(f), budget);
      if f.draining && f.machine.queue == [] { DrainEnds(h, f, budget); }
    }
  }

  lemma ReadyUnfolds<S>(h: Handlers<S>, g: Feed<S>, budget: nat)
    requires budget > 0 && Ready(g) == g
    ensures FeedStep(h, g, RunFeed(h, g, budget), budget)
  {
    hide Dispatched, StreamReply, Accepts;
    assert !HasNext(g) ==> !g.draining;
  }

  lemma FeedStepsCons<S>(h: Handlers<S>, f: Feed<S>, rest: seq<Feed<S>>, trace: seq<Seen>)
    requires var g := Ready(f);
             && HasNext(g) && Next(g).kind in h && Accepts(g.last, Next(g)) && StreamReply(h, g).ok
             && FeedSteps(h, rest, trace) && rest[0] == Dispatched(h, g)
    ensures FeedSteps(h, [f] + rest, [Seen(Next(Ready(f)), At(Next(Ready(f)).ts))] + trace)
  {
    var fs, all := [f] + rest, [Seen(Next(Ready(f)), At(Next(Ready(f)).ts))] + trace;
    assert Delivers(h, Ready(f), all[0], rest[0], true);
    hide Delivers, Ready;
    forall k | 0 <= k < |all| ensures Delivers(h, Ready(fs[k]), all[k], fs[k + 1], k + 1 < |all|) {
      if k == 0 {
        DeliversLast(h, Ready(f), all[0], rest[0]);
      } else {
        assert fs[k] == rest[k - 1] && all[k] == trace[k - 1] && fs[k + 1] == rest[k];
      }
    }
  }

  lemma DeliversLast<S>(h: Handlers<S>, f: Feed<S>, seen: Seen, next: Feed<S>)
    requires Delivers(h, f, seen, next, true)
    ensures Delivers(h, f, seen, next, false)
  {
  }

  // ---- the mutable loop ----

  class Streamer<S> {
    const clock: VirtualClock
    const queue: Queue
    var handlers: Handlers<S>
    var state: S
    /** lastTs and haveLast: ZeroTime until the first dispatch. */
    var last: Instant
    var closed: bool

    ghost predicate Valid()
      reads this, queue
    {
      queue.Valid()
    }

    ghost function Contents(): Machine<S>
      reads this, clock, queue
    {
      Machine(queue.model, queue.nextID, clock.now, state)
    }

    constructor (initial: S, start: Instant)
      ensures Valid() && !closed && fresh(clock) && fresh(queue)
      ensures Contents() == Machine([], 0, start, initial) && handlers == map[] && last == ZeroTime
    {
      clock := new VirtualClock(start);
      queue := new Queue();
      handlers, state, last, closed := map[], initial, ZeroTime, false;
    }

    method Schedule(ev: Event) returns (r: ScheduleResult)
      requires Valid()
      modifies queue
      ensures Valid()
      ensures r == if closed then LoopClosed
                   else if Accepts(clock.now, ev) then Scheduled(old(queue.nextID)) else Refused
      ensures Contents() == if closed then old(Contents())
                            else ServeOne(old(Contents()), Request.Schedule(ev))
    {
      if closed {
        return LoopClosed;
      }
      if !ev.utc {
        return Refused;
      }
      if clock.now.At? && ev.ts < clock.now.ns {
        return Refused;
      }
      var id := queue.Push(ev);
      return Scheduled(id);
    }

    method ServeRequests(requests: seq<Request>)
      requires Valid() && !closed
      modifies queue
      ensures Valid() && Contents() == Serve(old(Contents()), requests)
    {
      for i := 0 to |requests|
        invariant Valid() && clock.now == old(clock.now) && state == old(state)
        invariant Serve(Contents(), requests[i..]) == Serve(old(Contents()), requests)
      {
        assert requests[i..][1..] == requests[i + 1..];
        match requests[i] {
          case Schedule(ev) => var _ := Schedule(ev);
          case Draw => var _ := queue.NextSeq();
        }
      }
    }

    /** dispatch: validate, move the clock, route one event. */
    method Deliver(ev: Event) returns (stop: Option<Stop>)
      requires Valid() && !closed
      modifies this`state, this`last, clock, queue
      ensures Valid()
      ensures !Accepts(old(last), ev) ==>
                stop == Some(ClockFault) && Contents() == old(Contents()) && last == old(last)
      ensures Accepts(old(last), ev) ==> last == At(ev.ts)
      ensures Accepts(old(last), ev) && ev.kind !in handlers ==>
                stop == Some(NoHandler) && Contents() == old(Contents()).(clock := At(ev.ts))
      ensures Accepts(old(last), ev) && ev.kind in handlers ==>
                var r := handlers[ev.kind](old(state), ev, old(queue.nextID));
                && stop == (if r.ok then None else Some(HandlerFault))
                && Contents() == Serve(old(Contents()).(clock := At(ev.ts), state := r.state), r.requests)
    {
      if !ev.utc {
        return Some(ClockFault);
      }
      if last.At? && ev.ts < last.ns {
        return Some(ClockFault);
      }
      last := At(ev.ts);
      clock.Set(ev.ts);
      if ev.kind !in handlers {
        return Some(NoHandler);
      }
      var reply := handlers[ev.kind](state, ev, queue.nextID);
      state := reply.state;
      ServeRequests(reply.requests);
      return if reply.ok then None else Some(HandlerFault);
    }

    /** drainQueue and the source pull in one turn: dispatch whatever comes next. */
    method Turn(src: seq<Event>, draining: bool, ghost left: nat)
      returns (stop: Option<Stop>, rest: seq<Event>, ghost seen: seq<Seen>)
      requires Valid() && !closed && left > 0
      requires HasNext(Feed(Contents(), last, src, draining))
      modifies this`state, this`last, clock, queue
      ensures Valid()
      ensures var before := Feed(old(Contents()), old(last), src, draining);
              var o := RunFeed(handlers, before, left);
              && (stop.Some? ==> o.stop == stop.value && o.trace == seen && o.feed.machine == Contents())
              && (stop.None? ==>
                    && rest == SourceLeft(before)
                    && o == Before(seen, RunFeed(handlers, Feed(Contents(), last, rest, true), left - 1)))
    {
      hide Serve, Sorted, DrawnBefore, HeapOrdered;
      ghost var before := Feed(Contents(), last, src, draining);
      var ev;
      if draining {
        var popped := queue.Pop();
        ev, rest := popped.value, src;
      } else {
        ev, rest := src[0], src[1..];
      }
      stop := Deliver(ev);
      seen := if stop == None || stop == Some(HandlerFault) then [Seen(ev, At(ev.ts))] else [];
    }

    method Run(src: seq<Event>, budget: nat) returns (stop: Stop, ghost trace: seq<Seen>)
      requires Valid() && !closed
      modifies this`state, this`last, this`closed, clock, queue
      ensures Valid() && closed
      ensures var o := RunFeed(handlers, Feed(old(Contents()), old(last), src, false), budget);
              o.trace == trace && o.stop == stop && o.feed.machine == Contents()
    {
      hide RunFeed, Queue.Valid;
      trace := [];
      var rest, draining := src, false;
      var left: nat := budget;
      while left > 0
        invariant Valid() && !closed
        invariant RunFeed(handlers, Feed(old(Contents()), old(last), src, false), budget) ==
                  Before(trace, RunFeed(handlers, Feed(Contents(), last, rest, draining), left))
        decreases left, draining
      {
        var pending := QueueLength();
        if draining && pending == 0 {
          DrainEnds(handlers, Feed(Contents(), last, rest, true), left);
          draining := false;
        } else if !draining && rest == [] {
          StreamEnds(handlers, Feed(Contents(), last, rest, false), left);
          closed := true;
          return Drained, trace;
        } else {
          ghost var seen, was := [], trace;
          var halt;
          halt, rest, seen := Turn(rest, draining, left);
          trace := trace + seen;
          if halt.Some? {
            closed := true;
            return halt.value, trace;
          }
          BeforeTwice(was, seen, RunFeed(handlers, Feed(Contents(), last, rest, true), left - 1));
          left, draining := left - 1, true;
        }
      }
      StreamCancelled(handlers, Feed(Contents(), last, rest, draining));
      closed := true;
      return Cancelled, trace;
    }

    method QueueLength() returns (n: nat)
      requires Valid()
      ensures n == |queue.model|
    {
      n := |queue.heap|;
      assert |queue.heap| == |multiset(queue.heap)| == |multiset(queue.model)|;
    }
  }

  function Before<S>(trace: seq<Seen>, o: StreamOutcome<S>): StreamOutcome<S> {
    o.(trace := trace + o.trace)
  }

  lemma BeforeTwice<S>(a: seq<Seen>, b: seq<Seen>, o: StreamOutcome<S>)
    ensures Before(a, Before(b, o)) == Before(a + b, o)
  {
  }

  lemma DrainEnds<S>(h: Handlers<S>, f: Feed<S>, budget: nat)
    requires budget > 0 && f.draining && f.machine.queue == []
    ensures RunFeed(h, f, budget) == RunFeed(h, f.(draining := false), budget)
  {
  }

  lemma StreamEnds<S>(h: Handlers<S>, f: Feed<S>, budget: nat)
    requires budget > 0 && !f.draining && f.src == []
    ensures RunFeed(h, f, budget) == StreamOutcome([], f, Drained)
  {
  }

  lemma StreamCancelled<S>(h: Handlers<S>, f: Feed<S>)
    ensures RunFeed(h, f, 0) == StreamOutcome([], f, Cancelled)
  {
  }
}
