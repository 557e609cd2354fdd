/** Account-wide laws over every interleaving of fills and bar observations. */
module AccountLaws {
  import opened Int64
  import opened Clock
  import opened Ledger
  import opened Netting
  import opened FillEffects
  import Conservation
  import opened Sums
  import opened Accounts

  datatype Op = FillOp(f: Fill) | BarOp(symbol: string, close: int64)

  /** The account after a sequence of operations; None once a call failed. */
  function RunOps(starting: int64, ops: seq<Op>): Option<Acct> {
    if ops == [] then Some(Acct(starting, 0, map[], map[]))
    else
      match RunOps(starting, ops[..|ops| - 1])
      case None => None
      case Some(a) =>
        match ops[|ops| - 1]
        case BarOp(symbol, close) => Some(ObserveBar(a, symbol, close))
        case FillOp(f) =>
          var s := ApplyFill(a, f);
          if s.result.Ok? then Some(s.acct) else None
  }

  /** The fills of one (strategy, symbol), in order. */
  function FillsOf(ops: seq<Op>, k: Key): seq<Fill> {
    if ops == [] then []
    else
      var init, op := FillsOf(ops[..|ops| - 1], k), ops[|ops| - 1];
      if op.FillOp? && KeyOf(op.f) == k then init + [op.f] else init
  }

  /** No position ever stands at exactly MinInt64 shares. */
  predicate AvoidsMin(ops: seq<Op>) {
    ops == [] ||
    (&& AvoidsMin(ops[..|ops| - 1])
     && var op := ops[|ops| - 1];
        op.FillOp? ==> Conservation.NetQty(FillsOf(ops, KeyOf(op.f))) != MIN64)
  }

  /** Runs whose every call succeeded. */
  predicate Clean(starting: int64, ops: seq<Op>) {
    RunOps(starting, ops).Some? && AvoidsMin(ops)
  }

  /** Each position evolves exactly as if its own fills were the only ones. */
  lemma {:induction false} PositionsAreIndependent(starting: int64, ops: seq<Op>, k: Key)
    requires RunOps(starting, ops).Some?
    ensures var a := RunOps(starting, ops).value;
            && Conservation.RunFills(FillsOf(ops, k)) == Some(BookAt(a, k))
            && (k in a.books <==> FillsOf(ops, k) != [])
            && (AvoidsMin(ops) ==> Conservation.Settled(FillsOf(ops, k)))
  {
    if ops != [] {
      var init, op := ops[..|ops| - 1], ops[|ops| - 1];
      PositionsAreIndependent(starting, init, k);
      if op.FillOp? && KeyOf(op.f) == k {
        var fs := FillsOf(ops, k);
        assert fs[..|fs| - 1] == FillsOf(init, k);
        hide Apply;
        assert FillValid(op.f) && Valid(op.f);
      }
    }
  }

  /** What an account holds when its callers go on after a failed fill, as the live executor
      does: a failing call leaves whatever it had already changed. */
  function RunOn(starting: int64, ops: seq<Op>): Acct {
    if ops == [] then Acct(starting, 0, map[], map[])
    else
      var a := RunOn(starting, ops[..|ops| - 1]);
      match ops[|ops| - 1]
      case BarOp(symbol, close) => ObserveBar(a, symbol, close)
      case FillOp(f) => ApplyFill(a, f).acct
  }

  lemma {:induction false} CleanRunGoesOn(starting: int64, ops: seq<Op>)
    requires RunOps(starting, ops).Some?
    ensures RunOn(starting, ops) == RunOps(starting, ops).value
  {
    if ops != [] {
      hide Accounts.ApplyFill;
      CleanRunGoesOn(starting, ops[..|ops| - 1]);
    }
  }

  /** Every non-flat position has a last price, failed fills or not, so no position is ever
      skipped as unmarkable. */
  lemma {:induction false} OpenPositionsHavePrices(starting: int64, ops: seq<Op>, k: Key)
    ensures var a := RunOn(starting, ops); BookAt(a, k).qty != 0 ==> k.symbol in a.last
  {
    if ops != [] {
      var init, op := ops[..|ops| - 1], ops[|ops| - 1];
      OpenPositionsHavePrices(starting, init, k);
      if op.FillOp? {
        hide Apply, Accepted, Booked;
        ApplyMoves(BookAt(RunOn(starting, init), KeyOf(op.f)), op.f);
      }
    }
  }

  function RealizedAt(a: Acct, k: Key): int {
    BookAt(a, k).realized
  }

  /** Account realized PnL is the sum over its positions. */
  lemma {:induction false} RealizedIsSum(starting: int64, ops: seq<Op>)
    requires RunOps(starting, ops).Some?
    ensures var a := RunOps(starting, ops).value;
            && a.realized == SumOver(a.books.Keys, k => RealizedAt(a, k))
            && a.starting == starting
  {
    if ops != [] {
      var init, op := ops[..|ops| - 1], ops[|ops| - 1];
      RealizedIsSum(starting, init);
      var a, b := RunOps(starting, init).value, RunOps(starting, ops).value;
      if op.FillOp? {
        hide Accounts.ApplyFill;
        SettlementSums(a, op.f);
      } else {
        SumAgree(a.books.Keys, k => RealizedAt(a, k), k => RealizedAt(b, k));
      }
    }
  }

  /** One settled fill moves the account and the sum over positions by the same amount. */
  lemma SettlementSums(a: Acct, f: Fill)
    requires ApplyFill(a, f).result.Ok?
    ensures var b := ApplyFill(a, f).acct;
            && b.realized - a.realized ==
               SumOver(b.books.Keys, k => RealizedAt(b, k)) - SumOver(a.books.Keys, k => RealizedAt(a, k))
            && b.starting == a.starting
  {
    hide Apply, Accepted, Booked;
    var b, k := ApplyFill(a, f).acct, KeyOf(f);
    ApplyMoves(BookAt(a, k), f);
    assert b.books.Keys == a.books.Keys + {k};
    SumChange(a.books.Keys, j => RealizedAt(a, j), j => RealizedAt(b, j), k);
  }

  /** Past any fill, accepted or not, the sum law survives if and only if the position's realized
      PnL did not move alone: not through a failing flip, nor past the account's own range. */
  lemma SumSurvivesIff(a: Acct, f: Fill)
    requires a.realized == SumOver(a.books.Keys, k => RealizedAt(a, k))
    ensures var b, book := ApplyFill(a, f).acct, BookAt(a, KeyOf(f));
            b.realized == SumOver(b.books.Keys, k => RealizedAt(b, k)) <==>
            FillValid(f) ==> !Strands(book, f) && (Accepted(book, f) ==> Fits(a.realized + Booked(book, f)))
  {
    hide Apply, Strands, Accepted, Booked;
    var b, k := ApplyFill(a, f).acct, KeyOf(f);
    ApplyMoves(BookAt(a, k), f);
    StrandsIff(BookAt(a, k), f);
    if FillValid(f) {
      assert b.books.Keys == a.books.Keys + {k};
      SumChange(a.books.Keys, j => RealizedAt(a, j), j => RealizedAt(b, j), k);
    }
  }

  /** A run on which it does not: the failing flip of FailureLeavesTracesWitness books a loss of
      1.0000 on the position alone. */
  lemma FailedFlipBreaksSum(starting: int64, f: Fill, g: Fill)
    requires FillValid(f) && f.side == Buy && f.qty == 1 && f.price == 10000
    requires FillValid(g) && g.side == Sell && g.qty == MAX64 && g.price == 10 && KeyOf(g) == KeyOf(f)
    ensures var a := RunOn(starting, [] + [FillOp(f)] + [FillOp(g)]);
            a.realized == 0 && SumOver(a.books.Keys, k => RealizedAt(a, k)) == -10000
  {
    hide Apply, RunOn, Accepted, Booked;
    RunOnStep(starting, [], f);
    RunOnStep(starting, [] + [FillOp(f)], g);
    FailureLeavesTracesWitness(f, g);
    ApplyMoves(FLAT, f);
    var a, k := RunOn(starting, [] + [FillOp(f)] + [FillOp(g)]), KeyOf(f);
    assert a.books.Keys == {} + {k};
    SumAdd({}, j => RealizedAt(a, j), k);
  }

  lemma RunOnStep(starting: int64, ops: seq<Op>, f: Fill)
    ensures RunOn(starting, []) == Acct(starting, 0, map[], map[])
    ensures RunOn(starting, ops + [FillOp(f)]) == ApplyFill(RunOn(starting, ops), f).acct
  {
    hide Accounts.ApplyFill;
    assert (ops + [FillOp(f)])[..|ops|] == ops;
  }

  // ---- totals over the whole account ----

  /** Sale proceeds minus purchase cost over all fills. */
  function TotalCash(ops: seq<Op>): int {
    if ops == [] then 0
    else
      var op := ops[|ops| - 1];
      TotalCash(ops[..|ops| - 1]) - if op.FillOp? then Delta(op.f) * op.f.price else 0
  }

  /** Closing fills over all positions. */
  function TotalClosings(ops: seq<Op>): int {
    if ops == [] then 0
    else
      var init, op := ops[..|ops| - 1], ops[|ops| - 1];
      TotalClosings(init) +
      if op.FillOp? && Closed(Conservation.NetQty(FillsOf(init, KeyOf(op.f))), Delta(op.f)) > 0 then 1 else 0
  }

  function CashAt(ops: seq<Op>, k: Key): int {
    Conservation.CashFlow(FillsOf(ops, k))
  }

  function ClosingsAt(ops: seq<Op>, k: Key): int {
    Conservation.Closings(FillsOf(ops, k))
  }

  lemma {:induction false} TotalsAreSums(starting: int64, ops: seq<Op>)
    requires RunOps(starting, ops).Some?
    ensures var keys := RunOps(starting, ops).value.books.Keys;
            && TotalCash(ops) == SumOver(keys, k => CashAt(ops, k))
            && TotalClosings(ops) == SumOver(keys, k => ClosingsAt(ops, k))
  {
    if ops != [] {
      var init, op := ops[..|ops| - 1], ops[|ops| - 1];
      TotalsAreSums(starting, init);
      var keys := RunOps(starting, init).value.books.Keys;
      if op.FillOp? {
        OneMoreFill(starting, ops);
        hide RunOps, TotalCash, TotalClosings, CashAt, ClosingsAt, SumOver;
        SumChange(keys, j => CashAt(init, j), j => CashAt(ops, j), KeyOf(op.f));
        SumChange(keys, j => ClosingsAt(init, j), j => ClosingsAt(ops, j), KeyOf(op.f));
      } else {
        OneMoreBar(starting, ops);
        hide RunOps, TotalCash, TotalClosings, CashAt, ClosingsAt, SumOver;
        SumAgree(keys, j => CashAt(init, j), j => CashAt(ops, j));
        SumAgree(keys, j => ClosingsAt(init, j), j => ClosingsAt(ops, j));
      }
    }
  }

  lemma OneMoreBar(starting: int64, ops: seq<Op>)
    requires RunOps(starting, ops).Some? && ops != [] && ops[|ops| - 1].BarOp?
    ensures var init := ops[..|ops| - 1];
            && RunOps(starting, ops).value.books == RunOps(starting, init).value.books
            && TotalCash(ops) == TotalCash(init) && TotalClosings(ops) == TotalClosings(init)
            && forall j :: CashAt(ops, j) == CashAt(init, j) && ClosingsAt(ops, j) == ClosingsAt(init, j)
  {
  }

  lemma OneMoreFill(starting: int64, ops: seq<Op>)
    requires RunOps(starting, ops).Some? && ops != [] && ops[|ops| - 1].FillOp?
    ensures var init, f := ops[..|ops| - 1], ops[|ops| - 1].f;
            var k, keys := KeyOf(f), RunOps(starting, init).value.books.Keys;
            && RunOps(starting, ops).value.books.Keys == keys + {k}
            && (k !in keys ==> CashAt(init, k) == 0 && ClosingsAt(init, k) == 0)
            && (forall j :: j != k ==> CashAt(ops, j) == CashAt(init, j) && ClosingsAt(ops, j) == ClosingsAt(init, j))
            && CashAt(ops, k) - CashAt(init, k) == TotalCash(ops) - TotalCash(init)
            && ClosingsAt(ops, k) - ClosingsAt(init, k) == TotalClosings(ops) - TotalClosings(init)
  {
    hide Apply, Delta, Closed, Valid, FillValid;
    var init, f := ops[..|ops| - 1], ops[|ops| - 1].f;
    var k := KeyOf(f);
    PositionsAreIndependent(starting, init, k);
    var fs := FillsOf(ops, k);
    assert fs == FillsOf(init, k) + [f] && fs[..|fs| - 1] == FillsOf(init, k);
  }

  // ---- last prices ----

  /** The operation sets the price of `symbol`: a bar of it, or a fill in it. */
  predicate Prices(op: Op, symbol: string) {
    match op
    case BarOp(sym, _) => sym == symbol
    case FillOp(f) => f.symbol == symbol
  }

  /** The price it sets: the bar's close, or the fill's price. */
  function PriceOf(op: Op): int64 {
    match op
    case BarOp(_, close) => close
    case FillOp(f) => f.price
  }

  /** `i` is the latest operation that sets the price of `symbol`. */
  predicate LatestPricing(ops: seq<Op>, symbol: string, i: nat) {
    i < |ops| && Prices(ops[i], symbol) && forall j :: i < j < |ops| ==> !Prices(ops[j], symbol)
  }

  /** After a successful run a symbol has a price exactly if a bar or a fill set one, and it is
      the one set latest. */
  lemma {:induction false} LastPriceIsLatest(starting: int64, ops: seq<Op>, symbol: string)
    requires RunOps(starting, ops).Some?
    ensures var last := RunOps(starting, ops).value.last;
            && (symbol in last <==> exists i: nat :: LatestPricing(ops, symbol, i))
            && forall i: nat :: LatestPricing(ops, symbol, i) ==> symbol in last && last[symbol] == PriceOf(ops[i])
  {
    if ops != [] {
      var init, op := ops[..|ops| - 1], ops[|ops| - 1];
      LastPriceIsLatest(starting, init, symbol);
      PricingStep(ops, symbol);
      SetsPrice(starting, ops, symbol);
      hide RunOps, LatestPricing, Prices, PriceOf;
    }
  }

  /** Where the latest pricing stands after one more operation. */
  lemma PricingStep(ops: seq<Op>, symbol: string)
    requires ops != []
    ensures var n := |ops| - 1;
            forall i: nat :: LatestPricing(ops, symbol, i) <==>
              if Prices(ops[n], symbol) then i == n else LatestPricing(ops[..n], symbol, i)
    ensures var n := |ops| - 1; forall i: nat :: LatestPricing(ops[..n], symbol, i) ==> i < n && ops[..n][i] == ops[i]
    ensures Prices(ops[|ops| - 1], symbol) ==> LatestPricing(ops, symbol, |ops| - 1)
  {
    hide Prices;
    var n := |ops| - 1;
    forall i: nat ensures LatestPricing(ops, symbol, i) <==>
                          if Prices(ops[n], symbol) then i == n else LatestPricing(ops[..n], symbol, i)
    {
      if LatestPricing(ops[..n], symbol, i) && !Prices(ops[n], symbol) {
        assert ops[..n][i] == ops[i];
        forall j | i < j < |ops| ensures !Prices(ops[j], symbol) {
          if j < n { assert ops[..n][j] == ops[j]; }
        }
      }
    }
  }

  lemma SetsPrice(starting: int64, ops: seq<Op>, symbol: string)
    requires RunOps(starting, ops).Some? && ops != []
    ensures var n := |ops| - 1;
            && RunOps(starting, ops[..n]).Some?
            && var before, last := RunOps(starting, ops[..n]).value.last, RunOps(starting, ops).value.last;
               if Prices(ops[n], symbol) then symbol in last && last[symbol] == PriceOf(ops[n])
               else (symbol in last <==> symbol in before) && (symbol in last ==> last[symbol] == before[symbol])
  {
    hide Apply;
  }

  /** In a run that goes on past failures: the bar, or the fill that got as far as the account's
      realized total. */
  predicate PricedAt(starting: int64, ops: seq<Op>, i: nat, symbol: string)
    requires i < |ops|
  {
    && Prices(ops[i], symbol)
    && (ops[i].FillOp? ==>
          var a, f := RunOn(starting, ops[..i]), ops[i].f;
          var book := BookAt(a, KeyOf(f));
          FillValid(f) && Accepted(book, f) && Fits(a.realized + Booked(book, f)))
  }

  predicate LatestPriced(starting: int64, ops: seq<Op>, symbol: string, i: nat) {
    i < |ops| && PricedAt(starting, ops, i, symbol) && forall j :: i < j < |ops| ==> !PricedAt(starting, ops, j, symbol)
  }

  /** The same law for runs that go on: failed fills set a price exactly if only the cash balance
      they must show was out of range. */
  lemma {:induction false} LastPriceGoesOn(starting: int64, ops: seq<Op>, symbol: string)
    ensures var last := RunOn(starting, ops).last;
            && (symbol in last <==> exists i: nat :: LatestPriced(starting, ops, symbol, i))
            && forall i: nat :: LatestPriced(starting, ops, symbol, i) ==> symbol in last && last[symbol] == PriceOf(ops[i])
  {
    if ops != [] {
      LastPriceGoesOn(starting, ops[..|ops| - 1], symbol);
      PricedStep(starting, ops, symbol);
      SetsPriceOn(starting, ops, symbol);
      hide RunOn, LatestPriced, PricedAt, PriceOf;
    }
  }

  lemma PricedStep(starting: int64, ops: seq<Op>, symbol: string)
    requires ops != []
    ensures var n := |ops| - 1;
            forall i: nat :: LatestPriced(starting, ops, symbol, i) <==>
              if PricedAt(starting, ops, n, symbol) then i == n else LatestPriced(starting, ops[..n], symbol, i)
    ensures var n := |ops| - 1;
            forall i: nat :: LatestPriced(starting, ops[..n], symbol, i) ==> i < n && ops[..n][i] == ops[i]
    ensures PricedAt(starting, ops, |ops| - 1, symbol) ==> LatestPriced(starting, ops, symbol, |ops| - 1)
  {
    var n := |ops| - 1;
    forall i: nat | i < n ensures PricedAt(starting, ops[..n], i, symbol) <==> PricedAt(starting, ops, i, symbol) {
      assert ops[..n][..i] == ops[..i];
    }
    hide PricedAt;
    forall i: nat ensures LatestPriced(starting, ops, symbol, i) <==>
                          if PricedAt(starting, ops, n, symbol) then i == n else LatestPriced(starting, ops[..n], symbol, i)
    {
    }
  }

  lemma SetsPriceOn(starting: int64, ops: seq<Op>, symbol: string)
    requires ops != []
    ensures var n := |ops| - 1;
            var before, last := RunOn(starting, ops[..n]).last, RunOn(starting, ops).last;
            if PricedAt(starting, ops, n, symbol) then symbol in last && last[symbol] == PriceOf(ops[n])
            else (symbol in last <==> symbol in before) && (symbol in last ==> last[symbol] == before[symbol])
  {
    hide Apply, Accepted, Booked;
    var a, op := RunOn(starting, ops[..|ops| - 1]), ops[|ops| - 1];
    if op.FillOp? { ApplyMoves(BookAt(a, KeyOf(op.f)), op.f); }
  }

  /** Account.ApplyFill succeeds exactly when the fill is valid, its position accepts it, and the
      account's realized total and cash can hold the booked cents. */
  lemma AccountAcceptsIff(a: Acct, f: Fill)
    ensures var book := BookAt(a, KeyOf(f));
            ApplyFill(a, f).result.Ok? <==>
            && FillValid(f) && Accepted(book, f)
            && Fits(a.realized + Booked(book, f)) && Fits(a.starting + a.realized + Booked(book, f))
    ensures ApplyFill(a, f).result == Err(InvalidArgument) <==>
            || f.tradeID == "" || f.clientOrderID == "" || f.strategyID == "" || f.symbol == ""
            || f.side == UnknownSide || f.qty <= 0 || f.price <= 0 || f.commission < 0 || f.ts == ZeroTime
    ensures ApplyFill(a, f).result == Err(InvalidArgument) ==> ApplyFill(a, f).acct == a
  {
    hide Apply, Accepted, Booked;
    ApplyMoves(BookAt(a, KeyOf(f)), f);
  }

  // ---- mark to market ----

  /** Market value of one position at the last price of its symbol. */
  function ValueAt(a: Acct, k: Key): int {
    if k.symbol in a.last then BookAt(a, k).qty * a.last[k.symbol] else 0
  }

  /** The same from the operations alone: the net shares of the position's own fills, at the price
      that the latest bar or fill of the symbol set. */
  ghost function HeldAt(ops: seq<Op>, k: Key): int {
    if exists i: nat :: LatestPricing(ops, k.symbol, i)
    then (var i: nat :| LatestPricing(ops, k.symbol, i); Conservation.NetQty(FillsOf(ops, k)) * PriceOf(ops[i]))
    else 0
  }

  lemma ValueIsHeld(starting: int64, ops: seq<Op>, k: Key)
    requires RunOps(starting, ops).Some?
    ensures ValueAt(RunOps(starting, ops).value, k) == HeldAt(ops, k)
  {
    hide RunOps, FillsOf, Conservation.RunFills, Conservation.NetQty, LatestPricing;
    PositionsAreIndependent(starting, ops, k);
    Conservation.RunQuantity(FillsOf(ops, k));
    LastPriceIsLatest(starting, ops, k.symbol);
  }

  function MarkValue(a: Acct, k: Key): int {
    if MarkAt(a, k).Some? then MarkAt(a, k).value else 0
  }

  lemma {:induction false} UnrealizedIsSum(a: Acct, ks: seq<Key>)
    requires UnrealizedOver(a, ks).Some?
    ensures UnrealizedOver(a, ks).value == SumSeq(ks, k => MarkValue(a, k))
    ensures forall i :: 0 <= i < |ks| ==> MarkAt(a, ks[i]).Some?
  {
    if ks != [] {
      hide MarkAt;
      UnrealizedIsSum(a, ks[..|ks| - 1]);
    }
  }

  /** The marks of these positions, added up without regard to overflow. */
  ghost function MarkSum(a: Acct, ks: seq<Key>): int {
    SumSeq(ks, k => MarkValue(a, k))
  }

  /** Unrealized succeeds exactly when every mark does and every running total fits. */
  lemma {:induction false} UnrealizedIff(a: Acct, ks: seq<Key>)
    ensures UnrealizedOver(a, ks).Some? <==>
            && (forall i :: 0 <= i < |ks| ==> MarkAt(a, ks[i]).Some?)
            && (forall n :: 0 <= n <= |ks| ==> Fits(MarkSum(a, ks[..n])))
    ensures UnrealizedOver(a, ks).Some? ==> UnrealizedOver(a, ks).value == MarkSum(a, ks)
  {
    hide MarkAt;
    if ks == [] {
      assert ks[..0] == [];
    } else {
      var n := |ks| - 1;
      UnrealizedIff(a, ks[..n]);
      MarkSumLast(a, ks);
      hide MarkSum;
      assert ks[..n + 1] == ks;
      assert forall j :: 0 <= j <= n ==> ks[..n][..j] == ks[..j];
      assert forall j :: 0 <= j < n ==> ks[..n][j] == ks[j];
      assert (forall j :: 0 <= j <= n ==> Fits(MarkSum(a, ks[..n][..j]))) <==>
             (forall j :: 0 <= j <= n ==> Fits(MarkSum(a, ks[..j])));
    }
  }

  lemma MarkSumLast(a: Acct, ks: seq<Key>)
    requires ks != []
    ensures MarkSum(a, ks) == MarkSum(a, ks[..|ks| - 1]) + MarkValue(a, ks[|ks| - 1])
  {
    hide MarkValue;
  }

  /** Equity succeeds exactly when cash fits, every mark can be taken, every running total of
      marks fits and so does the final sum; it is then cash plus the marks. */
  lemma EquityIff(a: Acct, ks: seq<Key>)
    ensures EquityOver(a, ks).Some? <==>
            && Fits(a.starting + a.realized)
            && (forall i :: 0 <= i < |ks| ==> MarkAt(a, ks[i]).Some?)
            && (forall n :: 0 <= n <= |ks| ==> Fits(MarkSum(a, ks[..n])))
            && Fits(a.starting + a.realized + MarkSum(a, ks))
    ensures EquityOver(a, ks).Some? ==> EquityOver(a, ks).value == a.starting + a.realized + MarkSum(a, ks)
  {
    hide MarkAt, UnrealizedOver, MarkSum;
    UnrealizedIff(a, ks);
  }

  /** A flat or never priced position marks at zero; any other one exactly when its value and its
      PnL are representable, at market value minus signed cost. */
  lemma MarkMeans(a: Acct, k: Key)
    requires Sound(BookAt(a, k))
    ensures var b := BookAt(a, k);
            if b.qty == 0 || k.symbol !in a.last then MarkAt(a, k) == Some(0)
            else
              var value := b.qty * a.last[k.symbol];
              var cost := if b.qty > 0 then b.basis else 0 - b.basis;
              && (MarkAt(a, k).Some? <==> Fits(value) && Fits(value - cost))
              && (MarkAt(a, k).Some? ==> MarkAt(a, k).value == value - cost)
  {
    hide Unrealized;
    if k.symbol in a.last { Conservation.UnrealizedMeaning(BookAt(a, k), a.last[k.symbol]); }
  }

  /** Realized plus marked PnL of one position against its own cash flow and value. */
  lemma PositionConserved(starting: int64, ops: seq<Op>, k: Key)
    requires Clean(starting, ops)
    ensures var a := RunOps(starting, ops).value;
            k in a.books && MarkAt(a, k).Some? ==>
              Abs(RealizedAt(a, k) + MarkValue(a, k) - (CashAt(ops, k) + ValueAt(a, k))) <= 50 * ClosingsAt(ops, k)
  {
    hide RunOps, AvoidsMin, Unrealized, FillsOf, Sound;
    hide Conservation.Settled, Conservation.RunFills, Conservation.CashFlow, Conservation.Closings, Conservation.NetQty;
    var a := RunOps(starting, ops).value;
    PositionsAreIndependent(starting, ops, k);
    CleanRunGoesOn(starting, ops);
    OpenPositionsHavePrices(starting, ops, k);
    var fs := FillsOf(ops, k);
    Conservation.RunIsSound(fs);
    if k.symbol in a.last {
      Conservation.Conserved(fs, a.last[k.symbol]);
      assert 0 * a.last[k.symbol] == 0;
    } else {
      Conservation.Conserved(fs, 0);
    }
  }

  /** Account-wide mark-to-market: equity beyond the starting balance is the total cash flow
      plus the market value held, within half a cent per closing fill, over any interleaving
      of fills and bars for any number of strategies and symbols. */
  lemma EquityConserved(starting: int64, ops: seq<Op>, ks: seq<Key>)
    requires Clean(starting, ops)
    requires Enumerates(ks, RunOps(starting, ops).value.books.Keys)
    requires EquityOver(RunOps(starting, ops).value, ks).Some?
    ensures var a := RunOps(starting, ops).value;
            Abs(EquityOver(a, ks).value - starting
                - (TotalCash(ops) + SumOver(a.books.Keys, k => HeldAt(ops, k)))) <= 50 * TotalClosings(ops)
  {
    hide RunOps, AvoidsMin, UnrealizedOver, MarkAt, MarkValue, RealizedAt, CashAt, ClosingsAt, ValueAt, HeldAt;
    hide TotalCash, TotalClosings, KeyBefore, SumSeq, SumOver;
    var a := RunOps(starting, ops).value;
    var keys := a.books.Keys;
    UnrealizedIsSum(a, ks);
    EnumeratesDistinct(ks);
    SumSeqIsSum(ks, k => MarkValue(a, k));
    RealizedIsSum(starting, ops);
    TotalsAreSums(starting, ops);
    var drift := (k: Key) => RealizedAt(a, k) + MarkValue(a, k) - (CashAt(ops, k) + ValueAt(a, k));
    forall k | k in keys ensures Abs(drift(k)) <= 50 * ClosingsAt(ops, k) {
      var i :| 0 <= i < |ks| && ks[i] == k;
      PositionConserved(starting, ops, k);
    }
    forall k | k in keys ensures ValueAt(a, k) == HeldAt(ops, k) {
      ValueIsHeld(starting, ops, k);
    }
    SumAgree(keys, k => ValueAt(a, k), k => HeldAt(ops, k));
    SumBounded(keys, drift, k => 50 * ClosingsAt(ops, k));
    SumScaled(keys, k => ClosingsAt(ops, k), k => 50 * ClosingsAt(ops, k), 50);
    SumLinear(keys, k => RealizedAt(a, k), k => MarkValue(a, k), k => RealizedAt(a, k) + MarkValue(a, k));
    SumLinear(keys, k => CashAt(ops, k), k => ValueAt(a, k), k => CashAt(ops, k) + ValueAt(a, k));
    SumLinear(keys, drift, k => CashAt(ops, k) + ValueAt(a, k), k => RealizedAt(a, k) + MarkValue(a, k));
  }
}
