/** What survives rounding over whole fill sequences: conservation of money with a tight
    drift bound, and an average price that stays inside the prices paid. */
module Conservation {
  import opened Int64
  import opened Rounding
  import opened Clock
  import opened Ledger
  import opened Netting
  import FillEffects

  /** The book after applying all fills to a flat position; None once a call failed. */
  function RunFills(fs: seq<Fill>): Option<Book> {
    if fs == [] then Some(FLAT)
    else
      match RunFills(fs[..|fs| - 1])
      case None => None
      case Some(b) =>
        var a := Apply(b, fs[|fs| - 1]);
        if a.result.Ok? then Some(a.book) else None
  }

  /** Signed shares traded. */
  function NetQty(fs: seq<Fill>): int {
    if fs == [] then 0 else NetQty(fs[..|fs| - 1]) + Delta(fs[|fs| - 1])
  }

  /** Sale proceeds minus purchase cost. */
  function CashFlow(fs: seq<Fill>): int {
    if fs == [] then 0
    else CashFlow(fs[..|fs| - 1]) - Delta(fs[|fs| - 1]) * fs[|fs| - 1].price
  }

  /** Number of fills that closed at least one open share. */
  function Closings(fs: seq<Fill>): nat {
    if fs == [] then 0
    else
      var init := fs[..|fs| - 1];
      Closings(init) + if Closed(NetQty(init), Delta(fs[|fs| - 1])) > 0 then 1 else 0
  }

  /** Prices of the fills that opened or increased the leg now open. */
  function LegPrices(fs: seq<Fill>): set<int> {
    if fs == [] then {}
    else
      var init, f := fs[..|fs| - 1], fs[|fs| - 1];
      var q, d := NetQty(init), Delta(f);
      if q + d == 0 then {}
      else if Closed(q, d) == 0 then LegPrices(init) + {f.price}
      else if Opened(q, d) > 0 then {f.price}
      else LegPrices(init)
  }

  /** Every fill has a positive quantity and price, every call succeeded, and the net
      quantity never stood at exactly MinInt64 (see MinQuantityBreaksNetting). */
  predicate Settled(fs: seq<Fill>) {
    fs == [] ||
    (&& Settled(fs[..|fs| - 1])
     && Valid(fs[|fs| - 1])
     && NetQty(fs) != MIN64
     && RunFills(fs).Some?)
  }

  /** Every settled run ends in a sound book whose quantity is the signed sum of its fills. */
  lemma {:induction false} RunIsSound(fs: seq<Fill>)
    requires Settled(fs)
    ensures RunFills(fs).Some? && Sound(RunFills(fs).value)
    ensures RunFills(fs).value.qty == NetQty(fs)
  {
    if fs != [] {
      var init, f := fs[..|fs| - 1], fs[|fs| - 1];
      RunIsSound(init);
      FillNets(RunFills(init).value, f);
    }
  }

  /** The quantity alone is the signed sum after every successful run, MinInt64 included. */
  lemma {:induction false} RunQuantity(fs: seq<Fill>)
    requires RunFills(fs).Some?
    ensures RunFills(fs).value.qty == NetQty(fs)
  {
    if fs != [] {
      hide Apply, FillEffects.Accepted, FillEffects.Booked;
      RunQuantity(fs[..|fs| - 1]);
      FillEffects.ApplyMoves(RunFills(fs[..|fs| - 1]).value, fs[|fs| - 1]);
    }
  }

  /** Realized PnL of the run had it never been quantized to cents. */
  ghost function ExactRealized(fs: seq<Fill>): int
    requires Settled(fs)
  {
    if fs == [] then 0
    else
      var init := fs[..|fs| - 1];
      RunIsSound(init);
      ExactRealized(init) + ExactPnl(RunFills(init).value, fs[|fs| - 1])
  }

  function SignedBasis(b: Book): int {
    Signed(b.qty, b.basis)
  }

  /** One fill: exact PnL plus the signed cash it moves is the change of the signed basis. */
  lemma StepConserves(b: Book, f: Fill, b': Book, out: FillOutcome)
    requires Sound(b) && Sound(b') && Valid(f) && Nets(b, f, b', out)
    ensures SignedBasis(b') - SignedBasis(b) == ExactPnl(b, f) + Delta(f) * f.price
    ensures -50 <= out.realizedDelta - ExactPnl(b, f) <= 50
    ensures Closed(b.qty, Delta(f)) == 0 ==> out.realizedDelta == ExactPnl(b, f) == 0
  {
    hide MulDiv, NearestEven;
    var c, o := Closed(b.qty, Delta(f)), Opened(b.qty, Delta(f));
    var released := b.basis + f.price * o - b'.basis;
    assert released == Released(b, c) by {
      if c > 0 {
        MulDivShare(b.basis, c, Abs(b.qty));
        NearestEvenUnique(b.basis * c, Abs(b.qty), released, Released(b, c));
      }
    }
    assert c == Abs(b.qty) && c > 0 ==> released == b.basis by {
      if c == Abs(b.qty) && c > 0 { MulDivShare(b.basis, c, c); }
    }
    SignedProducts(f.price, c, o);
    assert f.price * 0 == 0;
    if c > 0 {
      CentsInRange(ExactPnl(b, f), out.realizedDelta / 100);
    }
  }

  lemma SignedProducts(price: int, c: int, o: int)
    ensures (c + o) * price == price * c + price * o
    ensures (0 - (c + o)) * price == 0 - (price * c + price * o)
  {
  }

  /** What one more fill adds to each side of the books. */
  lemma RunStep(fs: seq<Fill>)
    requires Settled(fs) && fs != []
    ensures var init := fs[..|fs| - 1];
            var b, b' := RunFills(init).value, RunFills(fs).value;
            && SignedBasis(b') - SignedBasis(b) ==
               ExactRealized(fs) - ExactRealized(init) - (CashFlow(fs) - CashFlow(init))
            && Abs(b'.realized - b.realized - (ExactRealized(fs) - ExactRealized(init)))
               <= 50 * (Closings(fs) - Closings(init))
  {
    hide Apply, ExactPnl, Nets, SignedBasis, Representable, Sound, Valid, Closed, Delta;
    var init, f := fs[..|fs| - 1], fs[|fs| - 1];
    RunIsSound(init);
    RunIsSound(fs);
    var b := RunFills(init).value;
    FillNets(b, f);
    StepConserves(b, f, Apply(b, f).book, Apply(b, f).result.value);
    NetsRealized(b, f, Apply(b, f).book, Apply(b, f).result.value);
  }

  /** Before cent rounding the identity is exact, flips included. */
  lemma {:induction false} ExactConservation(fs: seq<Fill>)
    requires Settled(fs)
    ensures ExactRealized(fs) == CashFlow(fs) + SignedBasis(RunFills(fs).value)
    ensures Abs(RunFills(fs).value.realized - ExactRealized(fs)) <= 50 * Closings(fs)
  {
    hide Apply, ExactPnl, Delta, Closed, Valid;
    if fs != [] {
      hide RunFills, ExactRealized, CashFlow, Closings, NetQty, SignedBasis;
      ExactConservation(fs[..|fs| - 1]);
      RunStep(fs);
    }
  }

  lemma NetsRealized(b: Book, f: Fill, b': Book, out: FillOutcome)
    requires Sound(b) && Nets(b, f, b', out)
    ensures b'.realized == b.realized + out.realizedDelta
  {
  }

  /** Conservation with bounded drift: realized plus unrealized PnL at any price is the cash
      that moved plus the market value held, within half a cent per closing fill. */
  lemma Conserved(fs: seq<Fill>, last: int64)
    requires Settled(fs)
    ensures var b := RunFills(fs).value;
            && (Unrealized(b, last).Some? ==>
                  Abs(b.realized + Unrealized(b, last).value - (CashFlow(fs) + NetQty(fs) * last))
                  <= 50 * Closings(fs))
            && (b.qty == 0 ==> Abs(b.realized - CashFlow(fs)) <= 50 * Closings(fs))
  {
    hide RunFills, ExactRealized, CashFlow, NetQty, Closings, Unrealized, Settled;
    RunIsSound(fs);
    ExactConservation(fs);
    UnrealizedMeaning(RunFills(fs).value, last);
  }

  /** UnrealizedPnL succeeds exactly when value and difference are representable. */
  lemma UnrealizedMeaning(b: Book, last: int64)
    requires Sound(b)
    ensures Unrealized(b, last).Some? <==>
            b.qty == 0 || (Fits(b.qty * last) && Fits(b.qty * last - SignedBasis(b)))
    ensures Unrealized(b, last).Some? ==> Unrealized(b, last).value == b.qty * last - SignedBasis(b)
  {
  }

  function Trade(side: Side, qty: int64, price: int64): Fill {
    Fill("t", "o", "S", "X", side, qty, price, 0, At(0))
  }

  /** n round trips, each earning exactly half a cent. */
  function RoundTrips(n: nat): seq<Fill> {
    if n == 0 then []
    else RoundTrips(n - 1) + [Trade(Buy, 1, 10000)] + [Trade(Sell, 1, 10050)]
  }

  /** The drift bound is tight: for every n some run with n closings drifts by 50n. */
  lemma {:induction false} DriftIsTight(n: nat)
    ensures Settled(RoundTrips(n))
    ensures Closings(RoundTrips(n)) == n && NetQty(RoundTrips(n)) == 0
    ensures RunFills(RoundTrips(n)).value.qty == 0
    ensures CashFlow(RoundTrips(n)) - RunFills(RoundTrips(n)).value.realized == 50 * n
  {
    hide Apply, Valid, Delta, Closed;
    if n != 0 {
      hide RunFills, CashFlow, Closings, NetQty, Settled;
      DriftIsTight(n - 1);
      RunIsSound(RoundTrips(n - 1));
      RoundTripStep(RoundTrips(n - 1));
    }
  }

  lemma RoundTripStep(fs: seq<Fill>)
    requires Settled(fs) && NetQty(fs) == 0 && RunFills(fs).value.qty == 0 && RunFills(fs).value.basis == 0
    ensures var gs := fs + [Trade(Buy, 1, 10000)] + [Trade(Sell, 1, 10050)];
            && Settled(gs) && NetQty(gs) == 0
            && RunFills(gs).value.qty == 0
            && RunFills(gs).value.realized == RunFills(fs).value.realized
            && Closings(gs) == Closings(fs) + 1
            && CashFlow(gs) == CashFlow(fs) + 50
  {
    hide Apply, RunFills, Settled, CashFlow, Closings, NetQty;
    var buy, sell := Trade(Buy, 1, 10000), Trade(Sell, 1, 10050);
    var mid := fs + [buy];
    RunIsSound(fs);
    RoundTripBooks(RunFills(fs).value);
    AppendFill(fs, buy);
    AppendFill(mid, sell);
  }

  /** What one more fill does to every running total. */
  lemma AppendFill(fs: seq<Fill>, f: Fill)
    requires Settled(fs) && RunFills(fs).Some? && Valid(f) && Apply(RunFills(fs).value, f).result.Ok?
    requires NetQty(fs) + Delta(f) != MIN64
    ensures var gs := fs + [f];
            && Settled(gs) && RunFills(gs) == Some(Apply(RunFills(fs).value, f).book)
            && NetQty(gs) == NetQty(fs) + Delta(f)
            && CashFlow(gs) == CashFlow(fs) - Delta(f) * f.price
            && Closings(gs) == Closings(fs) + if Closed(NetQty(fs), Delta(f)) > 0 then 1 else 0
  {
    hide Apply, Valid, Delta, Closed;
    assert (fs + [f])[..|fs|] == fs;
  }

  lemma RoundTripBooks(b: Book)
    requires b.qty == 0 && b.basis == 0
    ensures var mid := b.(qty := 1, basis := 10000, updatedAt := At(0));
            && Apply(b, Trade(Buy, 1, 10000)).result.Ok?
            && Apply(b, Trade(Buy, 1, 10000)).book == mid
            && Apply(mid, Trade(Sell, 1, 10050)).result.Ok?
            && Apply(mid, Trade(Sell, 1, 10050)).book == mid.(qty := 0, basis := 0)
  {
    hide CloseLeg, CheckedMul, MulDiv, RoundToCents;
    var mid := b.(qty := 1, basis := 10000, updatedAt := At(0));
    ClosingLeg(mid, 1, 10050);
    assert Released(mid, 1) == 10000;
    NearestEvenUnique(50, 100, RoundToCents(50) / 100, 0);
  }

  // ---- a failure at MinInt64 shares ----

  const WINDFALL: int64 := 4611686018427388000

  /** One lucky round trip, then a short of 2^62 shares in two sales. */
  function LuckyShort(): seq<Fill> {
    [] + [Trade(Buy, 1, 1)] + [Trade(Sell, 1, WINDFALL + 1)] + [Trade(Sell, 0x3FFF_FFFF_FFFF_FFFF, 2)] + [Trade(Sell, 1, 1)]
  }

  /** The books along the way. */
  lemma LuckyBooks(b: Book)
    requires b == Book(0, 0, 0, b.updatedAt)
    ensures Apply(b, Trade(Buy, 1, 1)).book == Book(1, 1, 0, At(0)) && Apply(b, Trade(Buy, 1, 1)).result.Ok?
    ensures var c, f := Book(1, 1, 0, At(0)), Trade(Sell, 1, WINDFALL + 1);
            Apply(c, f).book == Book(0, 0, WINDFALL, At(0)) && Apply(c, f).result.Ok?
  {
    hide CloseLeg, CheckedMul, MulDiv, RoundToCents;
    var c := Book(1, 1, 0, At(0));
    ClosingLeg(c, 1, WINDFALL + 1);
    NearestEvenUnique(WINDFALL, 100, RoundToCents(WINDFALL) / 100, WINDFALL / 100);
  }

  lemma ShortBooks()
    ensures var c, f := Book(0, 0, WINDFALL, At(0)), Trade(Sell, 0x3FFF_FFFF_FFFF_FFFF, 2);
            && Apply(c, f).book == Book(-0x3FFF_FFFF_FFFF_FFFF, 0x7FFF_FFFF_FFFF_FFFE, WINDFALL, At(0))
            && Apply(c, f).result.Ok?
    ensures var c, f := Book(-0x3FFF_FFFF_FFFF_FFFF, 0x7FFF_FFFF_FFFF_FFFE, WINDFALL, At(0)), Trade(Sell, 1, 1);
            && Apply(c, f).book == Book(-0x4000_0000_0000_0000, MAX64, WINDFALL, At(0))
            && Apply(c, f).result.Ok?
  {
    hide CloseLeg, MulDiv, RoundToCents;
  }

  /** Ordinary fills reach a book on which a fill that would land on MinInt64 shares fails and
      still empties the cost basis, although it closes no share. */
  lemma MinQuantityFailureLeavesTraces()
    ensures Settled(LuckyShort()) && RunFills(LuckyShort()).Some?
    ensures var b, g := RunFills(LuckyShort()).value, Trade(Sell, 0x4000_0000_0000_0000, 1);
            && Closed(b.qty, Delta(g)) == 0
            && Apply(b, g).result.Err? && Apply(b, g).book == b.(basis := 0) != b
  {
    hide Apply, Settled, RunFills, NetQty, CashFlow, Closings;
    StartsFlat();
    LuckyBooks(FLAT);
    ShortBooks();
    AppendFill([], Trade(Buy, 1, 1));
    AppendFill([] + [Trade(Buy, 1, 1)], Trade(Sell, 1, WINDFALL + 1));
    AppendFill([] + [Trade(Buy, 1, 1)] + [Trade(Sell, 1, WINDFALL + 1)], Trade(Sell, 0x3FFF_FFFF_FFFF_FFFF, 2));
    AppendFill([] + [Trade(Buy, 1, 1)] + [Trade(Sell, 1, WINDFALL + 1)] + [Trade(Sell, 0x3FFF_FFFF_FFFF_FFFF, 2)],
               Trade(Sell, 1, 1));
    LastSaleFails(RunFills(LuckyShort()).value);
  }

  lemma StartsFlat()
    ensures Settled([]) && RunFills([]) == Some(FLAT) && NetQty([]) == 0
  {
  }

  lemma LastSaleFails(b: Book)
    requires b == Book(-0x4000_0000_0000_0000, MAX64, WINDFALL, b.updatedAt)
    ensures var g := Trade(Sell, 0x4000_0000_0000_0000, 1);
            Apply(b, g).result.Err? && Apply(b, g).book == b.(basis := 0)
  {
    hide Apply, MulDiv, RoundToCents;
    var half, g := 0x4000_0000_0000_0000, Trade(Sell, 0x4000_0000_0000_0000, 1);
    FillEffects.Effects(b, g);
    MulDivShare(MAX64, half, half);
    assert FillEffects.Gain(b, g) == MAX64 - half;
    RoundToCentsExact(MAX64 - half);
  }

  /** The reported average is the correctly rounded basis per share: with at least one raw
      unit of cost per share the doubled remainder cannot wrap. */
  lemma AverageIsNearest(b: Book)
    requires Sound(b) && b.qty != 0
    ensures NearestEven(b.basis, Abs(b.qty), AvgEntryPrice(b))
  {
    hide AccountingDiv;
    var p := Abs(b.qty);
    AccountingDivExact(b.basis, p);
    RemainderBelowHalf(b.basis, p);
  }

  lemma RemainderBelowHalf(n: nat, d: nat)
    requires 0 < d <= n
    ensures 2 * (n % d) < n
  {
  }

  predicate Within(prices: set<int>, lo: int, hi: int) {
    forall p <- prices :: lo <= p <= hi
  }

  /** Fill i opened or increased the leg that is still open: since then the net quantity has kept the
      sign it had right after it. */
  ghost predicate OpenedLeg(fs: seq<Fill>, i: nat) {
    && i < |fs| && Opened(NetQty(fs[..i]), Delta(fs[i])) > 0
    && forall j :: i < j <= |fs| ==> SameSide(NetQty(fs[..j]), NetQty(fs[..i + 1]))
  }

  predicate SameSide(a: int, b: int) {
    (a > 0 && b > 0) || (a < 0 && b < 0)
  }

  /** The prices of the open leg are exactly the prices of those fills. */
  lemma {:induction false} LegPricesAre(fs: seq<Fill>, p: int)
    requires forall i :: 0 <= i < |fs| ==> Valid(fs[i])
    ensures p in LegPrices(fs) <==> exists i: nat :: OpenedLeg(fs, i) && fs[i].price == p
  {
    if fs != [] {
      var n := |fs| - 1;
      LegPricesAre(fs[..n], p);
      LegPricesStep(fs, p);
      LegStep(fs);
      hide OpenedLeg, NetQty, Valid, Opened, Closed, Delta, LegPrices, SameSide;
      if p in LegPrices(fs) {
        if p in LegPrices(fs[..n]) && SameSide(NetQty(fs[..n]) + Delta(fs[n]), NetQty(fs[..n])) {
          var i: nat :| OpenedLeg(fs[..n], i) && fs[..n][i].price == p;
          assert OpenedLeg(fs, i) && fs[i].price == p;
        } else {
          assert OpenedLeg(fs, n) && fs[n].price == p;
        }
      } else {
        forall i: nat | i < n ensures fs[..n][i] == fs[i] {
        }
      }
    }
  }

  lemma LegPricesStep(fs: seq<Fill>, p: int)
    requires fs != [] && Valid(fs[|fs| - 1])
    ensures var n := |fs| - 1;
            var q, d := NetQty(fs[..n]), Delta(fs[n]);
            p in LegPrices(fs) <==>
            || (q + d != 0 && Opened(q, d) > 0 && fs[n].price == p)
            || (SameSide(q + d, q) && p in LegPrices(fs[..n]))
  {
  }

  /** How one more fill moves the leg. */
  lemma LegStep(fs: seq<Fill>)
    requires fs != [] && Valid(fs[|fs| - 1])
    ensures var n := |fs| - 1;
            var q, d := NetQty(fs[..n]), Delta(fs[n]);
            && (forall i: nat :: OpenedLeg(fs, i) ==> i <= n)
            && (forall i: nat :: OpenedLeg(fs[..n], i) ==> i < n)
            && (OpenedLeg(fs, n) <==> q + d != 0 && Opened(q, d) > 0)
            && forall i: nat :: i < n ==> (OpenedLeg(fs, i) <==> OpenedLeg(fs[..n], i) && SameSide(q + d, q))
  {
    var n := |fs| - 1;
    assert fs[..n + 1] == fs;
    forall i: nat | i < n ensures OpenedLeg(fs, i) <==> OpenedLeg(fs[..n], i) && SameSide(NetQty(fs), NetQty(fs[..n])) {
      LegKept(fs, i);
    }
  }

  lemma LegKept(fs: seq<Fill>, i: nat)
    requires i + 1 < |fs|
    ensures var n := |fs| - 1;
            OpenedLeg(fs, i) <==> OpenedLeg(fs[..n], i) && SameSide(NetQty(fs), NetQty(fs[..n]))
  {
    hide NetQty, Opened, Delta;
    var n := |fs| - 1;
    assert fs[..n + 1] == fs && fs[..n][i] == fs[i];
    assert forall j :: 0 <= j <= n ==> fs[..n][..j] == fs[..j];
    if OpenedLeg(fs[..n], i) && SameSide(NetQty(fs), NetQty(fs[..n])) {
      assert fs[..n][..n] == fs[..n];
      forall j | i < j <= |fs| ensures SameSide(NetQty(fs[..j]), NetQty(fs[..i + 1])) {
        if j <= n { assert fs[..n][..j] == fs[..j]; }
      }
    }
    if OpenedLeg(fs, i) {
      assert SameSide(NetQty(fs[..n + 1]), NetQty(fs[..i + 1])) && SameSide(NetQty(fs[..n]), NetQty(fs[..i + 1]));
      forall j | i < j <= n ensures SameSide(NetQty(fs[..n][..j]), NetQty(fs[..n][..i + 1])) {
        assert fs[..n][..j] == fs[..j] && SameSide(NetQty(fs[..j]), NetQty(fs[..i + 1]));
      }
    }
  }

  /** After any number of rounded partial closes the cost basis stays within the range of
      the prices paid for the open leg, and so does the reported average. */
  lemma {:induction false} AverageInRange(fs: seq<Fill>, lo: int, hi: int)
    requires Settled(fs) && Within(LegPrices(fs), lo, hi)
    ensures var b := RunFills(fs).value;
            && (b.qty == 0 ==> b.basis == 0 && AvgEntryPrice(b) == 0)
            && lo * Abs(b.qty) <= b.basis <= hi * Abs(b.qty)
            && (b.qty != 0 ==> lo <= AvgEntryPrice(b) <= hi)
  {
    BasisInRange(fs, lo, hi);
    RunIsSound(fs);
    var b := RunFills(fs).value;
    if b.qty != 0 {
      AverageIsNearest(b);
      NearestEvenBounds(b.basis, Abs(b.qty), AvgEntryPrice(b), lo, hi);
    }
  }

  lemma {:induction false} BasisInRange(fs: seq<Fill>, lo: int, hi: int)
    requires Settled(fs) && Within(LegPrices(fs), lo, hi)
    ensures lo * Abs(RunFills(fs).value.qty) <= RunFills(fs).value.basis <= hi * Abs(RunFills(fs).value.qty)
  {
    RunIsSound(fs);
    if NetQty(fs) == 0 {
      assert lo * 0 == 0 && hi * 0 == 0;
    } else {
      var init, f := fs[..|fs| - 1], fs[|fs| - 1];
      RunIsSound(init);
      var b := RunFills(init).value;
      FillNets(b, f);
      var c, o := Closed(b.qty, Delta(f)), Opened(b.qty, Delta(f));
      if c == 0 || o == 0 {
        assert LegPrices(init) <= LegPrices(fs);
        BasisInRange(init, lo, hi);
      }
      assert o > 0 ==> f.price in LegPrices(fs);
      hide LegPrices, RunFills;
      StepInRange(b, f, Apply(b, f).book, Apply(b, f).result.value, lo, hi);
    }
  }

  lemma StepInRange(b: Book, f: Fill, b': Book, out: FillOutcome, lo: int, hi: int)
    requires Sound(b) && Sound(b') && Valid(f) && Nets(b, f, b', out) && b'.qty != 0
    requires Opened(b.qty, Delta(f)) > 0 ==> lo <= f.price <= hi
    requires Closed(b.qty, Delta(f)) == 0 || Opened(b.qty, Delta(f)) == 0 ==>
               lo * Abs(b.qty) <= b.basis <= hi * Abs(b.qty)
    ensures lo * Abs(b'.qty) <= b'.basis <= hi * Abs(b'.qty)
  {
    hide NearestEven;
    var p, c, o := Abs(b.qty), Closed(b.qty, Delta(f)), Opened(b.qty, Delta(f));
    LegInRange(b.basis, b'.basis, p, c, o, f.price, lo, hi);
    assert Abs(b'.qty) == p - c + o;
  }

  /** The same on bare numbers: p shares held, c of them closed, o opened at `price`. */
  lemma LegInRange(basis: int, basis': int, p: int, c: int, o: int, price: int, lo: int, hi: int)
    requires 0 <= c <= p && 0 <= o && (c == 0 || o == 0 || c == p)
    requires o > 0 ==> lo <= price <= hi
    requires c == 0 || o == 0 ==> lo * p <= basis <= hi * p
    requires c == 0 ==> basis' == basis + price * o
    requires c > 0 ==> NearestEven(basis * c, p, basis + price * o - basis')
    ensures lo * (p - c + o) <= basis' <= hi * (p - c + o)
  {
    hide NearestEven;
    if o == 0 {
      assert price * 0 == 0;
      if c > 0 { ShareInRange(basis, c, p, basis - basis', lo, hi); }
    } else {
      MulMono(lo, price, o);
      MulMono(price, hi, o);
      if c == 0 {
        Distribute(lo, p, o);
        Distribute(hi, p, o);
      } else {
        FullShare(basis, p, basis + price * o - basis');
      }
    }
  }

  lemma Distribute(x: int, p: int, o: int)
    ensures x * (p + o) == x * p + x * o
  {
  }

  lemma FullShare(basis: int, p: int, released: int)
    requires p > 0 && NearestEven(basis * p, p, released)
    ensures released == basis
  {
    NearestEvenBounds(basis * p, p, released, basis, basis);
  }
}
