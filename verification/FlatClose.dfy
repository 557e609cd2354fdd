/** Cross-strategy netting and flat closing: internal/domain/account.go,
    internal/engine/adaptersupport.go and the engine's position reader. */
module FlatClose {
  import opened Int64
  import opened Clock
  import opened Rounding
  import opened Ledger
  import opened Netting
  import Conservation
  import opened Sums
  import opened Accounts
  import opened AccountLaws

  /** The positions of a portfolio snapshot: flat ones are skipped. */
  function SnapshotPositions(a: Acct): map<Key, int64> {
    map k | k in a.books && a.books[k].qty != 0 :: a.books[k].qty
  }

  /** One entry's contribution to a symbol's net. */
  function QtyAt(p: map<Key, int64>, symbol: string, k: Key): int {
    if k in p && k.symbol == symbol then p[k] else 0
  }

  function LongAt(p: map<Key, int64>, symbol: string, k: Key): nat {
    if QtyAt(p, symbol, k) > 0 then QtyAt(p, symbol, k) else 0
  }

  function ShortAt(p: map<Key, int64>, symbol: string, k: Key): int {
    if QtyAt(p, symbol, k) < 0 then QtyAt(p, symbol, k) else 0
  }

  /** The mathematical cross-strategy net. */
  ghost function NetOf(p: map<Key, int64>, symbol: string): int {
    SumOver(p.Keys, k => QtyAt(p, symbol, k))
  }

  ghost function LongsOf(p: map<Key, int64>, symbol: string): int {
    SumOver(p.Keys, k => LongAt(p, symbol, k))
  }

  ghost function ShortsOf(p: map<Key, int64>, symbol: string): int {
    SumOver(p.Keys, k => ShortAt(p, symbol, k))
  }

  // ---- summing in map-iteration order ----

  /** NetPositionAcrossStrategies when the map happens to iterate in the order `ks`. */
  function NetOver(p: map<Key, int64>, symbol: string, ks: seq<Key>): Option<int64> {
    if ks == [] then Some(0)
    else
      match NetOver(p, symbol, ks[..|ks| - 1])
      case None => None
      case Some(net) =>
        var k := ks[|ks| - 1];
        if k.symbol != symbol || k !in p then Some(net) else CheckedAdd(net, p[k])
  }

  ghost predicate Lists(ks: seq<Key>, keys: set<Key>) {
    Distinct(ks) && Elements(ks) == keys
  }

  lemma {:induction false} NetOverIsSum(p: map<Key, int64>, symbol: string, ks: seq<Key>)
    requires NetOver(p, symbol, ks).Some?
    ensures NetOver(p, symbol, ks).value == SumSeq(ks, k => QtyAt(p, symbol, k))
  {
    if ks != [] { NetOverIsSum(p, symbol, ks[..|ks| - 1]); }
  }

  /** Any two iteration orders that succeed agree, on the mathematical net. */
  lemma NetIsOrderIndependent(p: map<Key, int64>, symbol: string, ks: seq<Key>)
    requires Lists(ks, p.Keys) && NetOver(p, symbol, ks).Some?
    ensures NetOver(p, symbol, ks).value == NetOf(p, symbol)
  {
    NetOverIsSum(p, symbol, ks);
    SumSeqIsSum(ks, k => QtyAt(p, symbol, k));
  }

  lemma {:induction false} PrefixBounds(p: map<Key, int64>, symbol: string, ks: seq<Key>)
    ensures SumSeq(ks, k => ShortAt(p, symbol, k)) <= SumSeq(ks, k => QtyAt(p, symbol, k))
    ensures SumSeq(ks, k => QtyAt(p, symbol, k)) <= SumSeq(ks, k => LongAt(p, symbol, k))
    ensures SumSeq(ks, k => ShortAt(p, symbol, k)) <= 0 <= SumSeq(ks, k => LongAt(p, symbol, k))
  {
    if ks != [] { PrefixBounds(p, symbol, ks[..|ks| - 1]); }
  }

  lemma {:induction false} BoundedNeverOverflows(p: map<Key, int64>, symbol: string, ks: seq<Key>)
    requires SumSeq(ks, k => LongAt(p, symbol, k)) <= MAX64
    requires SumSeq(ks, k => ShortAt(p, symbol, k)) >= MIN64
    ensures NetOver(p, symbol, ks).Some?
  {
    if ks != [] {
      var init := ks[..|ks| - 1];
      BoundedNeverOverflows(p, symbol, init);
      NetOverIsSum(p, symbol, init);
      PrefixBounds(p, symbol, ks);
    }
  }

  /** No iteration order can overflow, if and only if the longs and the shorts each fit. */
  lemma NeverOverflowsIff(p: map<Key, int64>, symbol: string)
    ensures (forall ks :: Lists(ks, p.Keys) ==> NetOver(p, symbol, ks).Some?) <==>
            LongsOf(p, symbol) <= MAX64 && ShortsOf(p, symbol) >= MIN64
  {
    if LongsOf(p, symbol) <= MAX64 && ShortsOf(p, symbol) >= MIN64 {
      forall ks | Lists(ks, p.Keys) ensures NetOver(p, symbol, ks).Some? {
        SumSeqIsSum(ks, k => LongAt(p, symbol, k));
        SumSeqIsSum(ks, k => ShortAt(p, symbol, k));
        BoundedNeverOverflows(p, symbol, ks);
      }
    } else {
      OverflowingOrder(p, symbol);
    }
  }

  /** Longs first, or shorts first, runs over the end of the range. */
  lemma OverflowingOrder(p: map<Key, int64>, symbol: string)
    requires LongsOf(p, symbol) > MAX64 || ShortsOf(p, symbol) < MIN64
    ensures exists ks :: Lists(ks, p.Keys) && NetOver(p, symbol, ks).None?
  {
    hide NetOver, Lists;
    if LongsOf(p, symbol) > MAX64 {
      var longs := set k | k in p.Keys && QtyAt(p, symbol, k) > 0;
      SumOfPart(p.Keys, longs, k => LongAt(p, symbol, k), k => QtyAt(p, symbol, k));
      PartOverflows(p, symbol, longs);
    } else {
      var shorts := set k | k in p.Keys && QtyAt(p, symbol, k) < 0;
      SumOfPart(p.Keys, shorts, k => ShortAt(p, symbol, k), k => QtyAt(p, symbol, k));
      PartOverflows(p, symbol, shorts);
    }
  }

  /** Some keys whose sum does not fit, listed first, make the whole order overflow. */
  lemma PartOverflows(p: map<Key, int64>, symbol: string, firsts: set<Key>)
    requires firsts <= p.Keys && !Fits(SumOver(firsts, k => QtyAt(p, symbol, k)))
    ensures exists ks :: Lists(ks, p.Keys) && NetOver(p, symbol, ks).None?
  {
    hide NetOver, SumOver, SumSeq, QtyAt;
    var a, b := ListSet(firsts), ListSet(p.Keys - firsts);
    JoinLists(a, firsts, b, p.Keys - firsts);
    assert firsts + (p.Keys - firsts) == p.Keys;
    SumSeqIsSum(a, k => QtyAt(p, symbol, k));
    if NetOver(p, symbol, a).Some? { NetOverIsSum(p, symbol, a); }
    NetFails(p, symbol, a, b);
    assert Lists(a + b, p.Keys);
  }

  /** Terms outside a part contribute nothing: the sum over the part is the whole. */
  lemma {:induction false} SumOfPart<K>(keys: set<K>, part: set<K>, g: K -> int, h: K -> int)
    requires part <= keys
    requires forall k :: k in part ==> g(k) == h(k)
    requires forall k :: k in keys && k !in part ==> g(k) == 0
    ensures SumOver(keys, g) == SumOver(part, h)
    decreases |keys|
  {
    if keys != {} {
      var k :| k in keys;
      SumPick(keys, g, k);
      if k in part {
        SumPick(part, h, k);
        SumOfPart(keys - {k}, part - {k}, g, h);
      } else {
        SumOfPart(keys - {k}, part, g, h);
      }
    } else {
      assert part == {};
    }
  }

  lemma {:induction false} NetFails(p: map<Key, int64>, symbol: string, a: seq<Key>, b: seq<Key>)
    requires NetOver(p, symbol, a).None?
    ensures NetOver(p, symbol, a + b).None?
    decreases |b|
  {
    if b == [] {
      assert a + b == a;
    } else {
      NetFails(p, symbol, a, b[..|b| - 1]);
      assert (a + b)[..|a + b| - 1] == a + b[..|b| - 1];
    }
  }

  ghost function ListSet(keys: set<Key>): (ks: seq<Key>)
    ensures Lists(ks, keys)
    decreases |keys|
  {
    if keys == {} then []
    else
      var k :| k in keys;
      var rest := ListSet(keys - {k});
      assert k !in rest by { assert k !in Elements(rest); }
      assert Elements(rest + [k]) == Elements(rest) + {k};
      rest + [k]
  }

  lemma JoinLists(a: seq<Key>, xs: set<Key>, b: seq<Key>, ys: set<Key>)
    requires Lists(a, xs) && Lists(b, ys) && xs !! ys
    ensures Lists(a + b, xs + ys)
  {
    forall i, j | 0 <= i < j < |a + b| ensures (a + b)[i] != (a + b)[j] {
      if i < |a| <= j {
        assert (a + b)[i] in Elements(a) && (a + b)[j] in Elements(b);
      }
    }
    assert Elements(a + b) == Elements(a) + Elements(b);
  }

  // ---- the code ----

  /** NetPositionAcrossStrategies: the map is ranged over in an order nobody chooses. */
  method NetPositionAcrossStrategies(p: map<Key, int64>, symbol: string) returns (r: Option<int64>)
    ensures exists ks :: Lists(ks, p.Keys) && r == NetOver(p, symbol, ks)
    ensures r.Some? ==> r.value == NetOf(p, symbol)
    ensures LongsOf(p, symbol) <= MAX64 && ShortsOf(p, symbol) >= MIN64 ==> r.Some?
  {
    hide NetOf, LongsOf, ShortsOf;
    var rest := p.Keys;
    var net: int64 := 0;
    ghost var done: seq<Key> := [];
    while rest != {}
      invariant rest <= p.Keys && Lists(done, p.Keys - rest)
      invariant NetOver(p, symbol, done) == Some(net)
      decreases rest
    {
      var k :| k in rest;
      AppendKey(done, p.Keys - rest, k);
      assert (done + [k])[..|done|] == done;
      assert p.Keys - rest + {k} == p.Keys - (rest - {k});
      if k.symbol == symbol {
        var n := CheckedAdd(net, p[k]);
        if n.None? {
          OverflowMeans(p, symbol, done + [k], rest - {k});
          return None;
        }
        net := n.value;
      }
      done := done + [k];
      rest := rest - {k};
    }
    assert p.Keys - rest == p.Keys;
    NetIsOrderIndependent(p, symbol, done);
    return Some(net);
  }

  lemma AppendKey(ks: seq<Key>, keys: set<Key>, k: Key)
    requires Lists(ks, keys) && k !in keys
    ensures Lists(ks + [k], keys + {k})
  {
    assert k !in ks by { assert k !in Elements(ks); }
    assert Elements(ks + [k]) == Elements(ks) + {k};
  }

  /** An order that overflows part-way overflows as a whole, and shows that the longs or the
      shorts do not fit. */
  lemma OverflowMeans(p: map<Key, int64>, symbol: string, done: seq<Key>, rest: set<Key>)
    requires rest <= p.Keys && Lists(done, p.Keys - rest) && NetOver(p, symbol, done).None?
    ensures exists ks :: Lists(ks, p.Keys) && NetOver(p, symbol, ks).None?
    ensures LongsOf(p, symbol) > MAX64 || ShortsOf(p, symbol) < MIN64
  {
    hide LongsOf, ShortsOf;
    var tail := ListSet(rest);
    JoinLists(done, p.Keys - rest, tail, rest);
    assert p.Keys - rest + rest == p.Keys;
    NetFails(p, symbol, done, tail);
    assert Lists(done + tail, p.Keys);
    NeverOverflowsIff(p, symbol);
  }

  datatype Order = Order(side: Side, qty: int64)

  /** What an order contributes to the net once filled. */
  function SignedQty(o: Order): int {
    if o.side == Buy then o.qty else if o.side == Sell then 0 - o.qty else 0
  }

  /** What CloseToFlat reports: (true, nil), (false, nil) or (false, error). */
  datatype Closing = Placed(order: Order) | AlreadyFlat | SubmitRefused

  /** The part of Order.Validate that a market order from CloseToFlat can fail, quantity apart. */
  predicate Submittable(strategyID: string, symbol: string, ts: Instant) {
    strategyID != "" && symbol != "" && ts != ZeroTime
  }

  /** CloseSideFor and the sizing of CloseToFlat; negation wraps at MinInt64. */
  function Close(net: int64): Order {
    if net > 0 then Order(Sell, net) else Order(Buy, Wrap(0 - net))
  }

  /** A non-zero net is closed by an order, which is refused if its quantity is not positive. */
  function CloseNet(net: int64, strategyID: string, symbol: string, ts: Instant): Closing {
    if net == 0 then AlreadyFlat
    else
      var order := Close(net);
      if Submittable(strategyID, symbol, ts) && order.qty > 0 then Placed(order) else SubmitRefused
  }

  /** CloseToFlat on what the position map `p` nets to in the order `ks`: the engine's reader
      reports flat when netting overflows. */
  function CloseOver(p: map<Key, int64>, strategyID: string, symbol: string, ts: Instant, ks: seq<Key>): Closing {
    var r := NetOver(p, symbol, ks);
    CloseNet(if r.Some? then r.value else 0, strategyID, symbol, ts)
  }

  /** CloseToFlat on an account. The reader also reports flat when there is no snapshot, because
      the cash balance it must carry is out of range. */
  function CloseOn(a: Acct, strategyID: string, symbol: string, ts: Instant, ks: seq<Key>): Closing {
    if Cash(a).None? then AlreadyFlat else CloseOver(SnapshotPositions(a), strategyID, symbol, ts, ks)
  }

  method CloseToFlat(a: Acct, strategyID: string, symbol: string, ts: Instant) returns (r: Closing)
    ensures exists ks :: Lists(ks, SnapshotPositions(a).Keys) && r == CloseOn(a, strategyID, symbol, ts, ks)
    ensures r.Placed? ==> r.order.qty > 0 && NetOf(SnapshotPositions(a), symbol) + SignedQty(r.order) == 0
  {
    hide NetOf, SnapshotPositions, NetOver;
    var p := SnapshotPositions(a);
    var net: int64 := ReadNet(a, symbol);
    ghost var ks :| Lists(ks, p.Keys) && net == if Cash(a).Some? && NetOver(p, symbol, ks).Some?
                                                then NetOver(p, symbol, ks).value else 0;
    if net == 0 {
      r := AlreadyFlat;
    } else {
      var order := Close(net);
      if strategyID == "" || symbol == "" || ts == ZeroTime || order.qty <= 0 {
        r := SubmitRefused;
      } else {
        r := Placed(order);
      }
    }
    assert r == CloseOn(a, strategyID, symbol, ts, ks);
  }

  /** orderSubmitter.NetPosition: zero when the snapshot or the netting fails. */
  method ReadNet(a: Acct, symbol: string) returns (net: int64)
    ensures exists ks :: && Lists(ks, SnapshotPositions(a).Keys)
                         && net == if Cash(a).Some? && NetOver(SnapshotPositions(a), symbol, ks).Some?
                                   then NetOver(SnapshotPositions(a), symbol, ks).value else 0
    ensures net == 0 || net == NetOf(SnapshotPositions(a), symbol)
  {
    hide NetOf, SnapshotPositions, NetOver, Lists;
    var p := SnapshotPositions(a);
    var cash := CheckedAdd(a.starting, a.realized);
    if cash.None? {
      assert Lists(ListSet(p.Keys), p.Keys);
      return 0;
    }
    var found := NetPositionAcrossStrategies(p, symbol);
    return if found.Some? then found.value else 0;
  }

  // ---- when flat closing closes ----

  /** The outcome is what the symbol's net needs: an order of exactly the opposite size, or none
      because there is nothing to close. */
  ghost predicate Flattens(p: map<Key, int64>, symbol: string, c: Closing) {
    match c
    case Placed(o) => o.qty > 0 && NetOf(p, symbol) + SignedQty(o) == 0
    case AlreadyFlat => NetOf(p, symbol) == 0
    case SubmitRefused => false
  }

  /** Whatever the iteration order, CloseToFlat does what the net needs - if and only if there is
      nothing to close, or cash is representable, the longs and the shorts each fit, the net is
      not MinInt64 and the order can be submitted. */
  lemma FlattensIff(a: Acct, strategyID: string, symbol: string, ts: Instant)
    ensures var p := SnapshotPositions(a);
            (forall ks :: Lists(ks, p.Keys) ==> Flattens(p, symbol, CloseOn(a, strategyID, symbol, ts, ks))) <==>
            || NetOf(p, symbol) == 0
            || (&& Fits(a.starting + a.realized)
                && LongsOf(p, symbol) <= MAX64 && ShortsOf(p, symbol) >= MIN64
                && NetOf(p, symbol) != MIN64 && strategyID != "" && symbol != "" && ts != ZeroTime)
  {
    hide NetOf, LongsOf, ShortsOf, Lists, NetOver, SnapshotPositions;
    var p := SnapshotPositions(a);
    forall ks | Lists(ks, p.Keys)
      ensures Flattens(p, symbol, CloseOn(a, strategyID, symbol, ts, ks)) <==>
              || NetOf(p, symbol) == 0
              || (&& Fits(a.starting + a.realized) && NetOver(p, symbol, ks).Some?
                  && NetOf(p, symbol) != MIN64 && Submittable(strategyID, symbol, ts))
    {
      if NetOver(p, symbol, ks).Some? { NetIsOrderIndependent(p, symbol, ks); }
    }
    NeverOverflowsIff(p, symbol);
    assert Lists(ListSet(p.Keys), p.Keys);
  }

  /** Signed shares of all fills in one symbol, whatever the strategy. */
  function SymbolFills(ops: seq<Op>, symbol: string): int {
    if ops == [] then 0
    else
      var op := ops[|ops| - 1];
      SymbolFills(ops[..|ops| - 1], symbol) + if op.FillOp? && op.f.symbol == symbol then Delta(op.f) else 0
  }

  function NetAt(ops: seq<Op>, symbol: string, k: Key): int {
    if k.symbol == symbol then Conservation.NetQty(FillsOf(ops, k)) else 0
  }

  lemma NetOfLast(fs: seq<Fill>, f: Fill)
    ensures Conservation.NetQty(fs + [f]) == Conservation.NetQty(fs) + Delta(f)
  {
  }

  lemma {:induction false} SymbolFillsAreSums(starting: int64, ops: seq<Op>, symbol: string)
    requires RunOps(starting, ops).Some?
    ensures SymbolFills(ops, symbol) == SumOver(RunOps(starting, ops).value.books.Keys, k => NetAt(ops, symbol, k))
  {
    if ops != [] {
      var init, op := ops[..|ops| - 1], ops[|ops| - 1];
      SymbolFillsAreSums(starting, init, symbol);
      var keys := RunOps(starting, init).value.books.Keys;
      if op.FillOp? {
        FillMovesNet(starting, ops, symbol);
        hide RunOps, NetAt, SymbolFills, SumOver;
        SumChange(keys, j => NetAt(init, symbol, j), j => NetAt(ops, symbol, j), KeyOf(op.f));
      } else {
        BarKeepsNet(starting, ops, symbol);
        hide RunOps, NetAt, SymbolFills, SumOver;
        SumAgree(keys, j => NetAt(init, symbol, j), j => NetAt(ops, symbol, j));
      }
    }
  }

  /** One more fill moves one position's net, and the symbol's, by its signed size. */
  lemma FillMovesNet(starting: int64, ops: seq<Op>, symbol: string)
    requires RunOps(starting, ops).Some? && ops != [] && ops[|ops| - 1].FillOp?
    ensures var init, k := ops[..|ops| - 1], KeyOf(ops[|ops| - 1].f);
            var keys := RunOps(starting, init).value.books.Keys;
            && RunOps(starting, ops).value.books.Keys == keys + {k}
            && (k !in keys ==> NetAt(init, symbol, k) == 0)
            && (forall j :: j != k ==> NetAt(ops, symbol, j) == NetAt(init, symbol, j))
            && NetAt(ops, symbol, k) - NetAt(init, symbol, k) == SymbolFills(ops, symbol) - SymbolFills(init, symbol)
  {
    hide Apply, Delta;
    var init, f := ops[..|ops| - 1], ops[|ops| - 1].f;
    OneMoreFill(starting, ops);
    PositionsAreIndependent(starting, init, KeyOf(f));
    assert FillsOf(ops, KeyOf(f)) == FillsOf(init, KeyOf(f)) + [f];
    NetOfLast(FillsOf(init, KeyOf(f)), f);
    hide RunOps, Conservation.RunFills, TotalCash, TotalClosings, CashAt, ClosingsAt;
  }

  lemma BarKeepsNet(starting: int64, ops: seq<Op>, symbol: string)
    requires RunOps(starting, ops).Some? && ops != [] && ops[|ops| - 1].BarOp?
    ensures var init := ops[..|ops| - 1];
            && RunOps(starting, ops).value.books == RunOps(starting, init).value.books
            && SymbolFills(ops, symbol) == SymbolFills(init, symbol)
            && forall j :: NetAt(ops, symbol, j) == NetAt(init, symbol, j)
  {
  }

  /** The snapshot's cross-strategy net is the signed sum of all fills in the symbol. */
  lemma SnapshotNetsFills(starting: int64, ops: seq<Op>, symbol: string)
    requires RunOps(starting, ops).Some?
    ensures NetOf(SnapshotPositions(RunOps(starting, ops).value), symbol) == SymbolFills(ops, symbol)
  {
    var a := RunOps(starting, ops).value;
    var p := SnapshotPositions(a);
    SymbolFillsAreSums(starting, ops, symbol);
    forall k | k in a.books.Keys
      ensures BookAt(a, k).qty == Conservation.NetQty(FillsOf(ops, k))
    {
      PositionsAreIndependent(starting, ops, k);
      Conservation.RunQuantity(FillsOf(ops, k));
    }
    hide RunOps, AvoidsMin, Conservation.NetQty, FillsOf;
    SumOfPart(a.books.Keys, p.Keys, k => NetAt(ops, symbol, k), k => QtyAt(p, symbol, k));
  }

  /** Entry by entry: a position is in the snapshot exactly if its own fills do not net to zero, with
      their net. */
  lemma SnapshotHolds(starting: int64, ops: seq<Op>, k: Key)
    requires RunOps(starting, ops).Some?
    ensures var p, net := SnapshotPositions(RunOps(starting, ops).value), Conservation.NetQty(FillsOf(ops, k));
            (k in p <==> net != 0) && (k in p ==> p[k] == net)
  {
    hide RunOps, FillsOf, Conservation.NetQty, Conservation.RunFills;
    PositionsAreIndependent(starting, ops, k);
    Conservation.RunQuantity(FillsOf(ops, k));
  }

  /** Fills of one order: same symbol and side, quantities adding up to no more and no less. */
  predicate Executes(fs: seq<Fill>, symbol: string, o: Order) {
    && (forall i :: 0 <= i < |fs| ==> fs[i].symbol == symbol && fs[i].side == o.side)
    && Shares(fs) == o.qty
  }

  function Shares(fs: seq<Fill>): int {
    if fs == [] then 0 else Shares(fs[..|fs| - 1]) + fs[|fs| - 1].qty
  }

  function FillOps(fs: seq<Fill>): seq<Op> {
    seq(|fs|, i requires 0 <= i < |fs| => FillOp(fs[i]))
  }

  lemma {:induction false} ExecutionMoves(ops: seq<Op>, fs: seq<Fill>, symbol: string, side: Side, other: string)
    requires forall i :: 0 <= i < |fs| ==> fs[i].symbol == symbol && fs[i].side == side
    ensures SymbolFills(ops + FillOps(fs), symbol) == SymbolFills(ops, symbol) + SignedShares(side, Shares(fs))
    ensures other != symbol ==> SymbolFills(ops + FillOps(fs), other) == SymbolFills(ops, other)
  {
    if fs == [] {
      assert ops + FillOps(fs) == ops;
    } else {
      var init := fs[..|fs| - 1];
      ExecutionMoves(ops, init, symbol, side, other);
      var all := ops + FillOps(fs);
      assert all[..|all| - 1] == ops + FillOps(init);
    }
  }

  function SignedShares(side: Side, n: int): int {
    if side == Buy then n else if side == Sell then 0 - n else 0
  }

  /** Executing the order CloseToFlat places - in any number of fills, at any prices and under
      any strategies - makes the symbol's cross-strategy net zero and leaves every other symbol's
      net alone. */
  lemma FlatCloseNetsToZero(starting: int64, ops: seq<Op>, fs: seq<Fill>, strategyID: string, symbol: string,
                            ts: Instant, ks: seq<Key>, other: string)
    requires RunOps(starting, ops).Some? && RunOps(starting, ops + FillOps(fs)).Some?
    requires var a := RunOps(starting, ops).value;
             && Lists(ks, SnapshotPositions(a).Keys)
             && var c := CloseOn(a, strategyID, symbol, ts, ks);
                c.Placed? && Executes(fs, symbol, c.order)
    ensures var p, q := SnapshotPositions(RunOps(starting, ops).value),
                        SnapshotPositions(RunOps(starting, ops + FillOps(fs)).value);
            NetOf(q, symbol) == 0 && (other != symbol ==> NetOf(q, other) == NetOf(p, other))
  {
    hide NetOf, SnapshotPositions, RunOps, SymbolFills, Lists, NetOver, Shares;
    var p := SnapshotPositions(RunOps(starting, ops).value);
    var order := CloseOn(RunOps(starting, ops).value, strategyID, symbol, ts, ks).order;
    NetIsOrderIndependent(p, symbol, ks);
    SnapshotNetsFills(starting, ops, symbol);
    SnapshotNetsFills(starting, ops + FillOps(fs), symbol);
    SnapshotNetsFills(starting, ops, other);
    SnapshotNetsFills(starting, ops + FillOps(fs), other);
    ExecutionMoves(ops, fs, symbol, order.side, other);
  }

  // ---- reachable books that flat closing leaves open ----

  function Deal(strategy: string, side: Side, qty: int64): Fill {
    Fill("t", "o", strategy, "X", side, qty, 1, 0, At(0))
  }

  function FreshBook(f: Fill): Book
    requires Valid(f) && f.price == 1
  {
    Book(Delta(f), f.qty, 0, f.ts)
  }

  /** A first deal of a strategy opens its position at cost. */
  lemma DealOpens(a: Acct, strategy: string, side: Side, qty: int64)
    requires qty > 0 && side != UnknownSide && strategy != "" && Key(strategy, "X") !in a.books && a.realized == 0
    ensures var f := Deal(strategy, side, qty);
            && Valid(f) && ApplyFill(a, f).result.Ok?
            && ApplyFill(a, f).acct == a.(books := a.books[Key(strategy, "X") := FreshBook(f)], last := a.last["X" := 1])
  {
    hide Apply;
    var f := Deal(strategy, side, qty);
    AddingNets(FLAT, f);
    assert 1 * qty == qty;
    assert Representable(FLAT, f);
  }

  lemma RunDeal(starting: int64, ops: seq<Op>, strategy: string, side: Side, qty: int64)
    requires RunOps(starting, ops).Some? && RunOps(starting, ops).value.realized == 0
    requires qty > 0 && side != UnknownSide && strategy != ""
    requires Key(strategy, "X") !in RunOps(starting, ops).value.books
    ensures var f := Deal(strategy, side, qty);
            var a, o := RunOps(starting, ops).value, RunOps(starting, ops + [FillOp(f)]);
            && Valid(f) && o.Some?
            && o.value == a.(books := a.books[Key(strategy, "X") := FreshBook(f)], last := a.last["X" := 1])
  {
    hide Accounts.ApplyFill;
    var all := ops + [FillOp(Deal(strategy, side, qty))];
    assert all[..|all| - 1] == ops;
    DealOpens(RunOps(starting, ops).value, strategy, side, qty);
  }

  lemma SumPair<K>(a: K, b: K, g: K -> int)
    requires a != b
    ensures SumOver({a, b}, g) == g(a) + g(b)
  {
    SumPick({a, b}, g, a);
    assert {a, b} - {a} == {b};
    SumPick({b}, g, b);
    assert {b} - {b} == {};
  }

  /** Two strategies short 2^62 shares each, as two fills. */
  function TwoShorts(): seq<Op> {
    [] + [FillOp(Deal("A", Sell, 0x4000_0000_0000_0000))] + [FillOp(Deal("B", Sell, 0x4000_0000_0000_0000))]
  }

  /** Net MinInt64 is reachable by two ordinary fills, no position standing at it; nothing
      overflows, yet every iteration order sizes a negative order, which is refused. */
  lemma MinNetIsReachable(starting: int64, strategyID: string, ts: Instant)
    ensures Clean(starting, TwoShorts())
    ensures var p := SnapshotPositions(RunOps(starting, TwoShorts()).value);
            && NetOf(p, "X") == MIN64 && LongsOf(p, "X") == 0 && ShortsOf(p, "X") == MIN64
            && forall ks :: Lists(ks, p.Keys) ==>
                 CloseOn(RunOps(starting, TwoShorts()).value, strategyID, "X", ts, ks) == SubmitRefused
  {
    hide RunOps, Apply, SumOver;
    var half := 0x4000_0000_0000_0000;
    var f, g := Deal("A", Sell, half), Deal("B", Sell, half);
    StartEmpty(starting);
    RunDeal(starting, [], "A", Sell, half);
    RunDeal(starting, [] + [FillOp(f)], "B", Sell, half);
    assert AvoidsMin(TwoShorts()) by { TwoShortsAvoidMin(); }
    var a := RunOps(starting, TwoShorts()).value;
    var x, y := Key("A", "X"), Key("B", "X");
    var p := SnapshotPositions(a);
    assert p == map[x := 0 - half, y := 0 - half];
    assert p.Keys == {x, y};
    SumPair(x, y, k => QtyAt(p, "X", k));
    SumPair(x, y, k => LongAt(p, "X", k));
    SumPair(x, y, k => ShortAt(p, "X", k));
    hide SnapshotPositions, Lists, NetOver, NetOf, LongsOf, ShortsOf;
    NeverOverflowsIff(p, "X");
    forall ks | Lists(ks, p.Keys) ensures CloseOn(a, strategyID, "X", ts, ks) == SubmitRefused {
      NetIsOrderIndependent(p, "X", ks);
    }
  }

  lemma StartEmpty(starting: int64)
    ensures RunOps(starting, []) == Some(Acct(starting, 0, map[], map[]))
  {
  }

  lemma TwoShortsAvoidMin()
    ensures AvoidsMin(TwoShorts())
  {
    var half := 0x4000_0000_0000_0000;
    var f, g := Deal("A", Sell, half), Deal("B", Sell, half);
    var one, ops := [FillOp(f)], TwoShorts();
    assert one[..0] == [] && ops[..1] == one;
    assert FillsOf(one, KeyOf(f)) == [] + [f];
    assert FillsOf(one, KeyOf(g)) == [];
    assert FillsOf(ops, KeyOf(g)) == [] + [g];
    NetOfLast([], f);
    NetOfLast([], g);
  }

  /** Two longs that do not fit together, and a short. */
  function ThreeDeals(): seq<Op> {
    [] + [FillOp(Deal("A", Buy, MAX64))] + [FillOp(Deal("B", Buy, 1))] + [FillOp(Deal("C", Sell, 1))]
  }

  /** The same reachable book nets or overflows by iteration order alone: one order closes it,
      another reports a symbol 2^63 - 1 shares long as flat and places nothing. */
  lemma NettingDependsOnOrder(starting: int64, strategyID: string, ts: Instant)
    requires Submittable(strategyID, "X", ts)
    ensures RunOps(starting, ThreeDeals()).Some?
    ensures var p := SnapshotPositions(RunOps(starting, ThreeDeals()).value);
            var a, b, c := Key("A", "X"), Key("B", "X"), Key("C", "X");
            && Lists([a, b, c], p.Keys) && Lists([a, c, b], p.Keys) && NetOf(p, "X") == MAX64
            && NetOver(p, "X", [a, b, c]) == None
            && CloseOn(RunOps(starting, ThreeDeals()).value, strategyID, "X", ts, [a, b, c]) == AlreadyFlat
            && NetOver(p, "X", [a, c, b]) == Some(MAX64)
            && CloseOn(RunOps(starting, ThreeDeals()).value, strategyID, "X", ts, [a, c, b]) == Placed(Order(Sell, MAX64))
  {
    hide RunOps, Apply, SumOver, NetOf;
    StartEmpty(starting);
    RunDeal(starting, [], "A", Buy, MAX64);
    RunDeal(starting, [] + [FillOp(Deal("A", Buy, MAX64))], "B", Buy, 1);
    RunDeal(starting, [] + [FillOp(Deal("A", Buy, MAX64))] + [FillOp(Deal("B", Buy, 1))], "C", Sell, 1);
    var p := SnapshotPositions(RunOps(starting, ThreeDeals()).value);
    var a, b, c := Key("A", "X"), Key("B", "X"), Key("C", "X");
    assert p == map[a := MAX64, b := 1, c := -1];
    assert p.Keys == {a, b, c};
    hide SnapshotPositions, Lists, NetOver;
    ThreeLists(a, b, c);
    ThreeNets(p, a, b, c);
    NetIsOrderIndependent(p, "X", [a, c, b]);
  }

  lemma ThreeLists(a: Key, b: Key, c: Key)
    requires a != b && b != c && a != c
    ensures Lists([a, b, c], {a, b, c}) && Lists([a, c, b], {a, b, c})
  {
  }

  lemma ThreeNets(p: map<Key, int64>, a: Key, b: Key, c: Key)
    requires a in p && b in p && c in p && a.symbol == b.symbol == c.symbol == "X"
    requires p[a] == MAX64 && p[b] == 1 && p[c] == -1
    ensures NetOver(p, "X", [a, b, c]) == None && NetOver(p, "X", [a, c, b]) == Some(MAX64)
  {
    assert [a, b, c][..2] == [a, b] && [a, b][..1] == [a] && [a][..0] == [];
    assert [a, c, b][..2] == [a, c] && [a, c][..1] == [a];
    assert NetOver(p, "X", [a]) == Some(MAX64) by { assert NetOver(p, "X", []) == Some(0); }
    assert NetOver(p, "X", [a, b]) == None && NetOver(p, "X", [a, c]) == Some(MAX64 - 1);
  }

  /** An account that starts at MaxInt64 and goes on after a fill whose profit its cash cannot
      show: one share stays open, and closing it reports flat under every iteration order. */
  lemma CashOverflowHidesPosition(strategyID: string, ts: Instant)
    ensures var f := Fill("t", "o", "A", "X", Buy, 2, 10000, 0, At(0));
            var g := Fill("u", "o", "A", "X", Sell, 1, 20000, 0, At(0));
            var a := RunOn(MAX64, [] + [FillOp(f)] + [FillOp(g)]);
            var p := SnapshotPositions(a);
            && NetOf(p, "X") == 1 && LongsOf(p, "X") == 1 && ShortsOf(p, "X") == 0
            && forall ks :: CloseOn(a, strategyID, "X", ts, ks) == AlreadyFlat
  {
    hide Apply, RunOn, SumOver;
    var f := Fill("t", "o", "A", "X", Buy, 2, 10000, 0, At(0));
    var g := Fill("u", "o", "A", "X", Sell, 1, 20000, 0, At(0));
    RunOnStep(MAX64, [], f);
    RunOnStep(MAX64, [] + [FillOp(f)], g);
    ProfitableFills(f, g);
    var a, k := RunOn(MAX64, [] + [FillOp(f)] + [FillOp(g)]), Key("A", "X");
    var p := SnapshotPositions(a);
    assert p == map[k := 1];
    assert p.Keys == {} + {k};
    NoKeys();
    SumAdd({}, j => QtyAt(p, "X", j), k);
    SumAdd({}, j => LongAt(p, "X", j), k);
    SumAdd({}, j => ShortAt(p, "X", j), k);
  }

  lemma NoKeys()
    ensures forall g: Key -> int :: SumOver({}, g) == 0
  {
  }

  lemma ProfitableFills(f: Fill, g: Fill)
    requires f.side == Buy && f.qty == 2 && f.price == 10000
    requires g.side == Sell && g.qty == 1 && g.price == 20000
    ensures var b := Apply(FLAT, f).book;
            && Apply(FLAT, f).result.Ok? && Apply(FLAT, f).result.value.realizedDelta == 0
            && b == Book(2, 20000, 0, f.ts)
            && Apply(b, g).result.Ok? && Apply(b, g).result.value.realizedDelta == 10000
            && Apply(b, g).book == Book(1, 10000, 10000, g.ts)
  {
    hide Apply, CloseLeg, MulDiv, RoundToCents;
    AddingNets(FLAT, f);
    assert Representable(FLAT, f);
    var b := Book(2, 20000, 0, f.ts);
    ClosingBranch(b, g);
    ClosingLeg(b, 1, 20000);
    NearestEvenUnique(20000, 2, Released(b, 1), 10000);
    NearestEvenUnique(10000, 100, RoundToCents(10000) / 100, 100);
  }
}
