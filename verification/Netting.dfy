/** What a fill means, said without the code's cases: how many open shares it closes,
    how many it opens, what cost it releases and what it realizes. */
module Netting {
  import opened Int64
  import opened Rounding
  import opened Ledger

  /** `x` with the sign of a position: positive for a long, negated for a short. */
  function Signed(qty: int, x: int): int {
    if qty > 0 then x else if qty < 0 then 0 - x else 0
  }

  function Min(a: int, b: int): int {
    if a < b then a else b
  }

  predicate Valid(f: Fill) {
    f.qty > 0 && f.price > 0 && f.side != UnknownSide
  }

  function Delta(f: Fill): int {
    match f.side
    case Buy => f.qty
    case Sell => 0 - f.qty
    case UnknownSide => 0
  }

  /** Open shares that a signed fill closes. */
  function Closed(qty: int, delta: int): nat {
    if (qty > 0 && delta < 0) || (qty < 0 && delta > 0) then Min(Abs(qty), Abs(delta)) else 0
  }

  /** Shares of the fill left over to open or increase a leg. */
  function Opened(qty: int, delta: int): nat {
    Abs(delta) - Closed(qty, delta)
  }

  /** The invariant of a book built from positive-price fills: at least one raw unit of
      cost per open share, none when flat, and |qty| representable. */
  predicate Sound(b: Book) {
    MIN64 < b.qty && Abs(b.qty) <= b.basis && (b.qty == 0 ==> b.basis == 0)
  }

  /** Cost released by closing `closed` shares. */
  function Released(b: Book, closed: nat): int
    requires closed <= Abs(b.qty) && Sound(b)
  {
    if closed == 0 then 0 else MulDiv(b.basis, closed, Abs(b.qty))
  }

  /** PnL of the closed shares before quantization: the variable realizedFull. */
  function ExactPnl(b: Book, f: Fill): int
    requires Sound(b)
  {
    var closed := Closed(b.qty, Delta(f));
    Signed(b.qty, f.price * closed - Released(b, closed))
  }

  /** The netting rule. */
  ghost predicate Nets(b: Book, f: Fill, b': Book, out: FillOutcome)
    requires Sound(b)
  {
    var closed, open := Closed(b.qty, Delta(f)), Opened(b.qty, Delta(f));
    var released := b.basis + f.price * open - b'.basis;
    && b'.qty == b.qty + Delta(f)
    && b'.updatedAt == f.ts
    && (closed == 0 ==> released == 0 && out.realizedDelta == 0)
    && (closed > 0 ==>
      && NearestEven(b.basis * closed, Abs(b.qty), released)
      && out.realizedDelta % 100 == 0
      && NearestEven(Signed(b.qty, f.price * closed - released), 100, out.realizedDelta / 100))
    && b'.realized == b.realized + out.realizedDelta
    && (out.didOpen <==> open > 0 && (b.qty == 0 || closed > 0))
    && (out.didClose <==> closed > 0 && closed == Abs(b.qty))
    && (out.didFlip <==> out.didOpen && out.didClose)
    && (out.didChange <==> !out.didOpen && !out.didClose)
  }

  /** The numbers a fill has to be able to represent. */
  predicate Representable(b: Book, f: Fill)
    requires Sound(b) && Valid(f)
  {
    var closed, open := Closed(b.qty, Delta(f)), Opened(b.qty, Delta(f));
    && Fits(b.qty + Delta(f))
    && Fits(f.price * closed)
    && Fits(b.basis - Released(b, closed) + f.price * open)
    && Fits(b.realized + if closed == 0 then 0 else Cents(ExactPnl(b, f)))
  }

  /** Half-even cents of any amount in range. */
  function Cents(x: int): int {
    if Fits(x) then RoundToCents(x) else 0
  }

  /** The opening and increasing branches. */
  lemma AddingNets(b: Book, f: Fill)
    requires Sound(b) && Valid(f) && Closed(b.qty, Delta(f)) == 0 && b.qty + Delta(f) != MIN64
    ensures Apply(b, f).result.Ok? <==> Representable(b, f)
    ensures Apply(b, f).result.Ok? ==>
              Nets(b, f, Apply(b, f).book, Apply(b, f).result.value) && Sound(Apply(b, f).book)
    ensures Apply(b, f).result.Err? ==> Apply(b, f).book == b
  {
    hide CheckedMul, Apply;
    AddingBranch(b, f);
    Product(f.price, f.qty);
    assert f.price * 0 == 0;
  }

  lemma AddingBranch(b: Book, f: Fill)
    requires Sound(b) && Valid(f) && Closed(b.qty, Delta(f)) == 0 && b.qty + Delta(f) != MIN64
    ensures !Fits(b.qty + Delta(f)) ==> Apply(b, f) == Applied(b, Err(OverflowError))
    ensures Fits(b.qty + Delta(f)) ==>
              var leg := OpenLeg(b, f.qty, f.price);
              Apply(b, f) ==
              if leg.result.Err? then Applied(b, Err(OverflowError))
              else Applied(Stamp(leg.book, b.qty + Delta(f), f),
                           Ok(FillOutcome(0, b.qty == 0, false, b.qty != 0, false)))
  {
    hide CloseLeg, CheckedMul;
  }

  /** A product of positive numbers is at least each factor. */
  lemma Product(price: int, qty: int)
    requires price > 0 && qty >= 0
    ensures price * qty >= qty
  {
  }

  /** What closeLeg does when it closes `c` of the open shares. */
  lemma ClosingLeg(b: Book, c: int64, price: int64)
    requires Sound(b) && 0 < c <= Abs(b.qty) && price > 0
    ensures AbsQty(b.qty) == Abs(b.qty)
    ensures NearestEven(b.basis * c, Abs(b.qty), Released(b, c))
    ensures c <= Released(b, c) <= b.basis - (Abs(b.qty) - c)
    ensures c == Abs(b.qty) ==> Released(b, c) == b.basis
    ensures var pnl := Signed(b.qty, price * c - Released(b, c));
            var leg := CloseLeg(b, c, price, b.qty);
            if !Fits(price * c) then leg == Applied(b, Err(OverflowError))
            else
              && Fits(pnl)
              && RoundToCents(pnl) % 100 == 0
              && NearestEven(pnl, 100, RoundToCents(pnl) / 100)
              && leg.book.(realized := b.realized) == b.(basis := b.basis - Released(b, c))
              && (leg.result == if Fits(b.realized + RoundToCents(pnl))
                                then Ok(RoundToCents(pnl)) else Err(OverflowError))
              && (leg.result.Ok? ==> leg.book.realized == b.realized + RoundToCents(pnl))
              && (leg.result.Err? ==> leg.book.realized == b.realized)
  {
    hide MulDiv, RoundToCents, CheckedMul;
    MulDivShare(b.basis, c, Abs(b.qty));
    ReleasedBounds(b, c);
    Product(price, c);
    var pnl := Signed(b.qty, price * c - Released(b, c));
    if Fits(price * c) {
      RoundToCentsExact(pnl);
    }
  }

  lemma ReleasedBounds(b: Book, c: int64)
    requires Sound(b) && 0 < c <= Abs(b.qty)
    ensures c <= Released(b, c) <= b.basis - (Abs(b.qty) - c)
  {
    MulDivShare(b.basis, c, Abs(b.qty));
    ShareAtLeastOne(b.basis, c, Abs(b.qty), Released(b, c));
  }

  lemma ShareAtLeastOne(basis: int, c: int, p: int, released: int)
    requires 0 < c <= p <= basis && NearestEven(basis * c, p, released)
    ensures c <= released <= basis - (p - c)
  {
    Product(p, basis);
    ShareInRange(basis, c, p, released, 1, basis);
    Product(p, c);
    MulMono(p, basis, c);
    MulMono(c, p, basis);
    NearestEvenBounds(basis * c, p, released, c, basis);
  }

  lemma MulMono(x: int, y: int, c: int)
    requires x <= y && c >= 0
    ensures x * c <= y * c
  {
  }

  /** Rounding the released share keeps the remaining basis within [lo, hi] per share. */
  lemma ShareInRange(basis: int, c: int, p: int, released: int, lo: int, hi: int)
    requires 0 < c <= p && NearestEven(basis * c, p, released)
    requires lo * p <= basis <= hi * p
    ensures lo * (p - c) <= basis - released <= hi * (p - c)
  {
    hide NearestEven;
    CrossMultiply(basis, c, p, lo);
    CrossMultiply(basis, c, p, hi);
    MulNonneg(p - c, basis - lo * p);
    MulNonneg(p - c, hi * p - basis);
    MulSigns(p - c, basis - hi * p);
    NearestEvenBounds(basis * c, p, released, basis - hi * (p - c), basis - lo * (p - c));
  }

  lemma CrossMultiply(basis: int, c: int, p: int, x: int)
    ensures (basis - x * (p - c)) * p == basis * c + (p - c) * (basis - x * p)
  {
  }

  /** Which legs a closing fill runs. */
  lemma ClosingBranch(b: Book, f: Fill)
    requires Sound(b) && Valid(f) && Closed(b.qty, Delta(f)) > 0
    ensures Fits(b.qty + Delta(f)) && b.qty + Delta(f) > MIN64
    ensures var c, o, newQty := Closed(b.qty, Delta(f)), Opened(b.qty, Delta(f)), b.qty + Delta(f);
            var leg := CloseLeg(b, c, f.price, b.qty);
            Apply(b, f) ==
            if leg.result.Err? then Applied(leg.book, Err(leg.result.error))
            else if o == 0 then
              Applied(Stamp(leg.book, newQty, f),
                      Ok(FillOutcome(leg.result.value, false, newQty == 0, newQty != 0, false)))
            else
              var open := OpenLeg(leg.book, o, f.price);
              if open.result.Err? then Applied(open.book, Err(open.result.error))
              else Applied(Stamp(open.book, newQty, f), Ok(FillOutcome(leg.result.value, true, true, false, true)))
  {
    hide CloseLeg, OpenLeg;
  }

  /** Partial and exact closes. */
  lemma ReducingNets(b: Book, f: Fill)
    requires Sound(b) && Valid(f) && Closed(b.qty, Delta(f)) > 0 && Opened(b.qty, Delta(f)) == 0
    ensures Apply(b, f).result.Ok? <==> Representable(b, f)
    ensures Apply(b, f).result.Ok? ==>
              Nets(b, f, Apply(b, f).book, Apply(b, f).result.value) && Sound(Apply(b, f).book)
    ensures Apply(b, f).result.Err? ==> (Apply(b, f).book != b <==> Fits(f.price * Closed(b.qty, Delta(f))))
  {
    hide Apply, CloseLeg, MulDiv, RoundToCents, OpenLeg, NearestEven;
    assert f.price * 0 == 0;
    ClosingBranch(b, f);
    ClosingLeg(b, f.qty, f.price);
  }

  /** Flips: the whole open quantity closes, the residual opens at the fill price. */
  lemma FlippingNets(b: Book, f: Fill)
    requires Sound(b) && Valid(f) && Closed(b.qty, Delta(f)) > 0 && Opened(b.qty, Delta(f)) > 0
    ensures Apply(b, f).result.Ok? <==> Representable(b, f)
    ensures Apply(b, f).result.Ok? ==>
              Nets(b, f, Apply(b, f).book, Apply(b, f).result.value) && Sound(Apply(b, f).book)
    ensures Apply(b, f).result.Err? ==>
              (Apply(b, f).book != b <==>
               Fits(b.qty + Delta(f)) && Fits(f.price * Closed(b.qty, Delta(f))))
  {
    hide Apply, CloseLeg, MulDiv, RoundToCents, OpenLeg, NearestEven;
    var c, o := Closed(b.qty, Delta(f)), Opened(b.qty, Delta(f));
    ClosingBranch(b, f);
    ClosingLeg(b, c, f.price);
    FreshLeg(CloseLeg(b, c, f.price, b.qty).book, o, f.price);
  }

  /** Opening on an empty basis. */
  lemma FreshLeg(b: Book, o: int64, price: int64)
    requires o > 0 && price > 0
    ensures price * o >= o
    ensures b.basis == 0 ==>
              OpenLeg(b, o, price) == if Fits(price * o) then Applied(b.(basis := price * o), Ok(()))
                                      else Applied(b, Err(OverflowError))
  {
  }

  /** ApplyFill implements the netting rule: on a sound book a positive-price fill
      succeeds exactly when its numbers are representable, and then it nets. */
  lemma FillNets(b: Book, f: Fill)
    requires Sound(b) && Valid(f) && b.qty + Delta(f) != MIN64
    ensures Apply(b, f).result.Ok? <==> Representable(b, f)
    ensures Apply(b, f).result.Ok? ==>
              Nets(b, f, Apply(b, f).book, Apply(b, f).result.value) && Sound(Apply(b, f).book)
  {
    if Closed(b.qty, Delta(f)) == 0 {
      AddingNets(b, f);
    } else if Opened(b.qty, Delta(f)) == 0 {
      ReducingNets(b, f);
    } else {
      FlippingNets(b, f);
    }
  }

  /** The one quantity that breaks the rule: absQty wraps at MinInt64, so a short increased
      to exactly MinInt64 shares is settled as a reduction. No such fill is representable,
      and every one the code accepts leaves an unsound book. */
  lemma MinQuantityBreaksNetting(b: Book, f: Fill)
    requires Sound(b) && Valid(f) && b.qty + Delta(f) == MIN64
    ensures !Representable(b, f)
    ensures Apply(b, f).result.Ok? ==>
              !Sound(Apply(b, f).book) && !Nets(b, f, Apply(b, f).book, Apply(b, f).result.value)
  {
    hide CloseLeg, OpenLeg;
    Product(f.price, f.qty);
    assert Opened(b.qty, Delta(f)) == f.qty;
  }

  /** Such an acceptance exists: short 2^63-1 shares at 0.0001, then one more. */
  lemma MinQuantityIsReachable(f: Fill, g: Fill)
    requires f.side == g.side == Sell && f.price == g.price == 1
    requires f.qty == MAX64 && g.qty == 1
    ensures var b := Apply(FLAT, f).book;
            && Apply(FLAT, f).result.Ok? && Sound(b)
            && Apply(b, g).result.Ok?
            && Apply(b, g).book.qty == MIN64 && Apply(b, g).book.basis == MAX64 - 1
  {
  }

  /** A failing call is not atomic: away from MinInt64 shares a sound book has changed exactly
      when the fill was closing shares and got past the quantity and proceeds checks. */
  lemma FailureLeavesTraces(b: Book, f: Fill)
    requires Sound(b) && Valid(f) && b.qty + Delta(f) != MIN64 && Apply(b, f).result.Err?
    ensures Apply(b, f).book != b <==>
            var c := Closed(b.qty, Delta(f));
            c > 0 && Fits(b.qty + Delta(f)) && Fits(f.price * c)
  {
    if Closed(b.qty, Delta(f)) == 0 {
      AddingNets(b, f);
    } else if Opened(b.qty, Delta(f)) == 0 {
      ReducingNets(b, f);
    } else {
      FlippingNets(b, f);
    }
  }

  /** A concrete one from a flat position: buy 1 at 1.0000, then sell 2^63 - 1 at 0.0010. The
      close goes through, then the residual overflows its notional. */
  lemma FailureLeavesTracesWitness(f: Fill, g: Fill)
    requires f.side == Buy && f.qty == 1 && f.price == 10000
    requires g.side == Sell && g.qty == MAX64 && g.price == 10
    ensures var b := Apply(FLAT, f).book;
            && Apply(FLAT, f).result.Ok? && Sound(b)
            && Apply(b, g).result == Err(OverflowError)
            && Apply(b, g).book == b.(basis := 0, realized := -10000)
  {
    hide Apply, CloseLeg, OpenLeg, MulDiv, RoundToCents;
    AddingNets(FLAT, f);
    assert Representable(FLAT, f);
    var b := Apply(FLAT, f).book;
    assert b == Book(1, 10000, 0, f.ts);
    ClosingBranch(b, g);
    ClosingLeg(b, 1, 10);
    FreshLeg(CloseLeg(b, 1, 10, 1).book, MAX64 - 1, 10);
    NearestEvenUnique(-9990, 100, RoundToCents(-9990) / 100, -100);
  }
}
