/** The netting position of internal/accounting/position.go: the state it holds, the
    exact effect of one fill (error paths included) and the mutable class. */
module Ledger {
  import opened Int64
  import opened Rounding
  import opened Clock

  datatype Error = InvalidArgument | OverflowError
  datatype Result<+T> = Ok(value: T) | Err(error: Error)

  datatype Side = Buy | Sell | UnknownSide

  datatype Fill = Fill(
    tradeID: string, clientOrderID: string, strategyID: string, symbol: string,
    side: Side, qty: int64, price: int64, commission: int64, ts: Instant)

  /** The mutable part of a Position, as a value. */
  datatype Book = Book(qty: int64, basis: int64, realized: int64, updatedAt: Instant)

  const FLAT := Book(0, 0, 0, ZeroTime)

  datatype FillOutcome = FillOutcome(
    realizedDelta: int64, didOpen: bool, didClose: bool, didChange: bool, didFlip: bool)

  /** What a call leaves behind and what it returns; a failing call may leave changes. */
  datatype Applied<+T> = Applied(book: Book, result: Result<T>)

  predicate SameSign(a: int64, b: int64) {
    if a == 0 || b == 0 then a == b else (a > 0) == (b > 0)
  }

  /** absQty and absQtyVal: negation wraps at MinInt64. */
  function AbsQty(q: int64): int64 {
    if q < 0 then Wrap(0 - q) else q
  }

  function OpenLeg(b: Book, qty: int64, price: int64): Applied<()> {
    match CheckedMul(price, qty)
    case None => Applied(b, Err(OverflowError))
    case Some(add) =>
      match CheckedAdd(b.basis, add)
      case None => Applied(b, Err(OverflowError))
      case Some(n) => Applied(b.(basis := n), Ok(()))
  }

  /** The realized amount of a closing leg before it is quantized to cents. */
  function RealizedFull(b: Book, closeQty: int64, price: int64, prevQty: int64): Option<int64> {
    var released := MulDiv(b.basis, AbsQty(closeQty), AbsQty(prevQty));
    match CheckedMul(price, closeQty)
    case None => None
    case Some(proceeds) =>
      if prevQty > 0 then CheckedSub(proceeds, released) else CheckedSub(released, proceeds)
  }

  function CloseLeg(b: Book, closeQty: int64, price: int64, prevQty: int64): Applied<int64> {
    var prevAbs, closeAbs := AbsQty(prevQty), AbsQty(closeQty);
    if closeAbs == 0 then Applied(b, Ok(0))
    else
      match RealizedFull(b, closeQty, price, prevQty)
      case None => Applied(b, Err(OverflowError))
      case Some(full) =>
        var delta := RoundToCents(full);
        match CheckedSub(b.basis, MulDiv(b.basis, closeAbs, prevAbs))
        case None => Applied(b, Err(OverflowError))
        case Some(remaining) =>
          var reduced := b.(basis := if closeAbs == prevAbs then 0 else remaining);
          match CheckedAdd(reduced.realized, delta)
          case None => Applied(reduced, Err(OverflowError))
          case Some(acc) => Applied(reduced.(realized := acc), Ok(delta))
  }

  function SignedDelta(f: Fill): Result<int64> {
    if f.qty <= 0 then Err(InvalidArgument)
    else
      match f.side
      case Buy => Ok(f.qty)
      case Sell => var d: int64 := 0 - f.qty; Ok(d)
      case UnknownSide => Err(InvalidArgument)
  }

  /** Position.ApplyFill. */
  function Apply(b: Book, f: Fill): Applied<FillOutcome> {
    match SignedDelta(f)
    case Err(e) => Applied(b, Err(e))
    case Ok(delta) =>
      match CheckedAdd(b.qty, delta)
      case None => Applied(b, Err(OverflowError))
      case Some(newQty) => Settle(b, f, newQty)
  }

  function Settle(b: Book, f: Fill, newQty: int64): Applied<FillOutcome> {
    if b.qty == 0 then
      var leg := OpenLeg(b, f.qty, f.price);
      if leg.result.Err? then Applied(leg.book, Err(leg.result.error))
      else Applied(Stamp(leg.book, newQty, f), Ok(FillOutcome(0, true, false, false, false)))
    else if SameSign(b.qty, newQty) && AbsQty(newQty) > AbsQty(b.qty) then
      var leg := OpenLeg(b, f.qty, f.price);
      if leg.result.Err? then Applied(leg.book, Err(leg.result.error))
      else Applied(Stamp(leg.book, newQty, f), Ok(FillOutcome(0, false, false, true, false)))
    else if SameSign(b.qty, newQty) && newQty != 0 then
      var leg := CloseLeg(b, f.qty, f.price, b.qty);
      if leg.result.Err? then Applied(leg.book, Err(leg.result.error))
      else Applied(Stamp(leg.book, newQty, f), Ok(FillOutcome(leg.result.value, false, false, true, false)))
    else
      var leg := CloseLeg(b, AbsQty(b.qty), f.price, b.qty);
      if leg.result.Err? then Applied(leg.book, Err(leg.result.error))
      else if newQty == 0 then
        Applied(Stamp(leg.book, newQty, f), Ok(FillOutcome(leg.result.value, false, true, false, false)))
      else
        var open := OpenLeg(leg.book, AbsQty(newQty), f.price);
        if open.result.Err? then Applied(open.book, Err(open.result.error))
        else Applied(Stamp(open.book, newQty, f), Ok(FillOutcome(leg.result.value, true, true, false, true)))
  }

  function Stamp(b: Book, newQty: int64, f: Fill): Book {
    b.(qty := newQty, updatedAt := f.ts)
  }

  /** Position.UnrealizedPnL. */
  function Unrealized(b: Book, last: int64): Option<int64> {
    if b.qty == 0 then Some(0)
    else
      match CheckedMul(last, b.qty)
      case None => None
      case Some(mkt) =>
        if b.qty < 0 then
          match CheckedNeg(b.basis)
          case None => None
          case Some(cost) => CheckedSub(mkt, cost)
        else CheckedSub(mkt, b.basis)
  }

  /** Position.AvgEntryPrice. */
  function AvgEntryPrice(b: Book): int64 {
    if b.qty == 0 then 0 else AccountingDiv(b.basis, AbsQty(b.qty))
  }

  /** One netted position, updated in place. */
  class Position {
    const strategyID: string
    const symbol: string
    var signedQty: int64
    var entryNotional: int64
    var realized: int64
    var updatedAt: Instant

    ghost function State(): Book
      reads this
    {
      Book(signedQty, entryNotional, realized, updatedAt)
    }

    constructor (strategyID: string, symbol: string)
      ensures State() == FLAT
      ensures this.strategyID == strategyID && this.symbol == symbol
    {
      this.strategyID, this.symbol := strategyID, symbol;
      signedQty, entryNotional, realized, updatedAt := 0, 0, 0, ZeroTime;
    }

    method ApplyFill(f: Fill) returns (r: Result<FillOutcome>)
      modifies this
      ensures Applied(State(), r) == Apply(old(State()), f)
    {
      if f.qty <= 0 {
        return Err(InvalidArgument);
      }
      var delta: int64;
      match f.side {
        case Buy => delta := f.qty;
        case Sell => delta := 0 - f.qty;
        case UnknownSide => return Err(InvalidArgument);
      }
      var prevQty := signedQty;
      var sum := CheckedAdd(prevQty, delta);
      if sum.None? {
        return Err(OverflowError);
      }
      var newQty := sum.value;
      var out: FillOutcome;
      if prevQty == 0 {
        var leg := AddLeg(f.qty, f.price);
        if leg.Err? { return Err(leg.error); }
        out := FillOutcome(0, true, false, false, false);
      } else if SameSign(prevQty, newQty) && AbsQty(newQty) > AbsQty(prevQty) {
        var leg := AddLeg(f.qty, f.price);
        if leg.Err? { return Err(leg.error); }
        out := FillOutcome(0, false, false, true, false);
      } else if SameSign(prevQty, newQty) && newQty != 0 {
        var leg := ReduceLeg(f.qty, f.price, prevQty);
        if leg.Err? { return Err(leg.error); }
        out := FillOutcome(leg.value, false, false, true, false);
      } else if newQty == 0 {
        var leg := ReduceLeg(AbsQty(prevQty), f.price, prevQty);
        if leg.Err? { return Err(leg.error); }
        out := FillOutcome(leg.value, false, true, false, false);
      } else {
        var leg := ReduceLeg(AbsQty(prevQty), f.price, prevQty);
        if leg.Err? { return Err(leg.error); }
        var open := AddLeg(AbsQty(newQty), f.price);
        if open.Err? { return Err(open.error); }
        out := FillOutcome(leg.value, true, true, false, true);
      }
      signedQty := newQty;
      updatedAt := f.ts;
      return Ok(out);
    }

    /** openLeg: grow the cost basis by qty*price. */
    method AddLeg(qty: int64, price: int64) returns (r: Result<()>)
      modifies this`entryNotional
      ensures Applied(State(), r) == OpenLeg(old(State()), qty, price)
    {
      var add := CheckedMul(price, qty);
      if add.None? { return Err(OverflowError); }
      var n := CheckedAdd(entryNotional, add.value);
      if n.None? { return Err(OverflowError); }
      entryNotional := n.value;
      return Ok(());
    }

    /** closeLeg: release the closed share of the basis and realize its PnL in cents. */
    method ReduceLeg(closeQty: int64, price: int64, prevQty: int64) returns (r: Result<int64>)
      modifies this`entryNotional, this`realized
      ensures Applied(State(), r) == CloseLeg(old(State()), closeQty, price, prevQty)
    {
      hide MulDiv, RoundToCents, CheckedMul;
      var prevAbs, closeAbs := AbsQty(prevQty), AbsQty(closeQty);
      if closeAbs == 0 { return Ok(0); }
      var releasedCost := MulDiv(entryNotional, closeAbs, prevAbs);
      var proceeds := CheckedMul(price, closeQty);
      if proceeds.None? { return Err(OverflowError); }
      var full := if prevQty > 0
                  then CheckedSub(proceeds.value, releasedCost)
                  else CheckedSub(releasedCost, proceeds.value);
      if full.None? { return Err(OverflowError); }
      var delta := RoundToCents(full.value);
      var left := CheckedSub(entryNotional, releasedCost);
      if left.None? { return Err(OverflowError); }
      var remaining := left.value;
      if closeAbs == prevAbs { remaining := 0; }
      entryNotional := remaining;
      var acc := CheckedAdd(realized, delta);
      if acc.None? { return Err(OverflowError); }
      realized := acc.value;
      return Ok(delta);
    }

    method UnrealizedPnL(last: int64) returns (u: Option<int64>)
      ensures u == Unrealized(State(), last)
    {
      if signedQty == 0 { return Some(0); }
      var mkt := CheckedMul(last, signedQty);
      if mkt.None? { return None; }
      var cost := entryNotional;
      if signedQty < 0 {
        var neg := CheckedNeg(cost);
        if neg.None? { return None; }
        cost := neg.value;
      }
      u := CheckedSub(mkt.value, cost);
    }
  }
}
