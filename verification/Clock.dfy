/** The clocks of internal/core/clock.go. */
module Clock {

  /** A time.Time: the zero time, or nanoseconds since the epoch. */
  datatype Instant = ZeroTime | At(ns: int)

  /** The reversal test shared by clock and loops: the zero time precedes everything. */
  predicate Precedes(ts: int, now: Instant) {
    now.At? && ts < now.ns
  }

  datatype ClockError = NoError | NotUTC | TimeReversal

  /** The event-driven clock of the batch loop: refuses to move back. */
  class SimClock {
    var now: Instant

    constructor ()
      ensures now == ZeroTime
    {
      now := ZeroTime;
    }

    method Advance(ts: int, utc: bool) returns (e: ClockError)
      modifies this
      ensures e == NoError <==> utc && !Precedes(ts, old(now))
      ensures now == if e == NoError then At(ts) else old(now)
    {
      if !utc {
        return NotUTC;
      }
      if now.At? && ts < now.ns {
        return TimeReversal;
      }
      now := At(ts);
      return NoError;
    }
  }

  /** The controllable clock of the streaming loop: Set never checks the order. */
  class VirtualClock {
    var now: Instant

    constructor (start: Instant)
      ensures now == start
    {
      now := start;
    }

    method Set(ts: int)
      modifies this
      ensures now == At(ts)
    {
      now := At(ts);
    }
  }
}
