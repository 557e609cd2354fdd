/** The equity-curve sampler of internal/accounting/sampler.go. */
module Sampler {
  import opened Int64
  import opened Clock
  import opened Ledger
  import opened Sums
  import opened Accounts
  import AccountLaws

  datatype Point = Point(ts: Instant, value: int64)

  datatype Curves = Curves(ids: set<string>, perStrategy: map<string, seq<Point>>, total: seq<Point>)

  const NO_CURVES := Curves({}, map[], [])

  function CurveOf(c: Curves, sid: string): seq<Point> {
    if sid in c.perStrategy then c.perStrategy[sid] else []
  }

  ghost function StrategiesOf(keys: set<Key>): set<string> {
    set k | k in keys :: k.strategyID
  }

  /** One strategy's realized plus marked PnL over the keys in order; None on overflow. */
  function PnlOver(a: Acct, ks: seq<Key>, sid: string): Option<int64> {
    if ks == [] then Some(0)
    else
      match PnlOver(a, ks[..|ks| - 1], sid)
      case None => None
      case Some(pnl) => PnlWith(a, pnl, ks[|ks| - 1], sid)
  }

  function PnlWith(a: Acct, pnl: int64, k: Key, sid: string): Option<int64> {
    if k.strategyID != sid then Some(pnl)
    else
      match CheckedAdd(pnl, BookAt(a, k).realized)
      case None => None
      case Some(acc) =>
        match MarkAt(a, k)
        case None => None
        case Some(u) => CheckedAdd(acc, u)
  }

  /** The first half of Sample: one more point on the curve of every known strategy. */
  ghost predicate StrategiesSampled(c: Curves, a: Acct, ks: seq<Key>, ts: Instant, c': Curves) {
    && Enumerates(ks, a.books.Keys)
    && c'.ids == c.ids + StrategiesOf(a.books.Keys)
    && c'.perStrategy.Keys == c.perStrategy.Keys + c'.ids
    && (forall sid :: sid in c'.ids ==>
          && PnlOver(a, ks, sid).Some?
          && c'.perStrategy[sid] == CurveOf(c, sid) + [Point(ts, PnlOver(a, ks, sid).value)])
    && (forall sid :: sid in c.perStrategy && sid !in c'.ids ==> c'.perStrategy[sid] == c.perStrategy[sid])
  }

  /** The effect of one successful Sample. */
  ghost predicate Sampled(c: Curves, a: Acct, ks: seq<Key>, ts: Instant, c': Curves) {
    && StrategiesSampled(c, a, ks, ts, c')
    && EquityOver(a, ks).Some?
    && c'.total == c.total + [Point(ts, EquityOver(a, ks).value)]
  }

  /** The effect of a failing Sample: nothing but the newly known strategies when a strategy's
      PnL overflows, the strategy curves without the total when only the equity does. */
  ghost predicate SampleFailed(c: Curves, a: Acct, ks: seq<Key>, ts: Instant, c': Curves) {
    var ids := c.ids + StrategiesOf(a.books.Keys);
    if exists sid :: sid in ids && PnlOver(a, ks, sid).None? then c' == c.(ids := ids)
    else StrategiesSampled(c, a, ks, ts, c') && EquityOver(a, ks).None? && c'.total == c.total
  }

  // ---- decomposition ----

  /** The account's realized total is the sum over its positions (AccountLaws.RealizedIsSum). */
  ghost predicate Consistent(a: Acct) {
    a.realized == SumOver(a.books.Keys, k => AccountLaws.RealizedAt(a, k))
  }

  function PnlValue(a: Acct, ks: seq<Key>, sid: string): int {
    if PnlOver(a, ks, sid).Some? then PnlOver(a, ks, sid).value else 0
  }

  function ContributionAt(a: Acct, k: Key): int {
    AccountLaws.RealizedAt(a, k) + AccountLaws.MarkValue(a, k)
  }

  lemma PnlStep(a: Acct, ks: seq<Key>, sid: string)
    requires ks != [] && PnlOver(a, ks, sid).Some?
    ensures PnlOver(a, ks[..|ks| - 1], sid).Some?
    ensures PnlValue(a, ks, sid) == PnlValue(a, ks[..|ks| - 1], sid) +
            if ks[|ks| - 1].strategyID == sid then ContributionAt(a, ks[|ks| - 1]) else 0
  {
  }

  /** Strategies partition the positions: their PnL sums to the contribution of every key. */
  lemma {:induction false} StrategiesPartition(a: Acct, ks: seq<Key>, ids: set<string>)
    requires forall sid :: sid in ids ==> PnlOver(a, ks, sid).Some?
    requires forall k :: k in ks ==> k.strategyID in ids
    ensures SumOver(ids, sid => PnlValue(a, ks, sid)) == SumSeq(ks, k => ContributionAt(a, k))
  {
    hide ContributionAt, PnlWith;
    if ks == [] {
      SumZero(ids, sid => PnlValue(a, ks, sid));
    } else {
      var init, k := ks[..|ks| - 1], ks[|ks| - 1];
      forall sid | sid in ids
        ensures PnlOver(a, init, sid).Some?
        ensures PnlValue(a, ks, sid) == PnlValue(a, init, sid) + if k.strategyID == sid then ContributionAt(a, k) else 0
      {
        PnlStep(a, ks, sid);
      }
      hide PnlOver, PnlValue;
      StrategiesPartition(a, init, ids);
      SumChange(ids, sid => PnlValue(a, init, sid), sid => PnlValue(a, ks, sid), k.strategyID);
      assert ids + {k.strategyID} == ids;
    }
  }

  /** One strategy's value is the realized plus marked PnL of exactly its own positions. */
  lemma {:induction false} PnlIsOwnSum(a: Acct, ks: seq<Key>, sid: string)
    requires PnlOver(a, ks, sid).Some?
    ensures PnlOver(a, ks, sid).value == SumSeq(ks, k => OwnAt(a, k, sid))
  {
    if ks != [] {
      PnlStep(a, ks, sid);
      PnlIsOwnSum(a, ks[..|ks| - 1], sid);
      hide ContributionAt, PnlWith, PnlOver;
    }
  }

  /** What a position adds to the value of `sid`: its realized total and its mark if it is one of
      that strategy's, else nothing. */
  function OwnAt(a: Acct, k: Key, sid: string): int {
    if k.strategyID == sid then BookAt(a, k).realized + AccountLaws.MarkValue(a, k) else 0
  }

  lemma {:induction false} SumZero<K>(keys: set<K>, g: K -> int)
    requires forall k :: k in keys ==> g(k) == 0
    ensures SumOver(keys, g) == 0
    decreases |keys|
  {
    if keys != {} {
      var k :| k in keys;
      SumPick(keys, g, k);
      SumZero(keys - {k}, g);
    }
  }

  /** Total equity is the starting balance plus the per-strategy values of the same sample. */
  lemma SampleDecomposes(c: Curves, a: Acct, ks: seq<Key>, ts: Instant, c': Curves)
    requires Sampled(c, a, ks, ts, c') && Consistent(a)
    ensures c'.total != [] && c'.total[|c'.total| - 1].ts == ts
    ensures c'.total[|c'.total| - 1].value == a.starting + SumOver(c'.ids, sid => PnlValue(a, ks, sid))
    ensures forall sid :: sid in c'.ids ==>
              c'.perStrategy[sid][|c'.perStrategy[sid]| - 1] == Point(ts, PnlValue(a, ks, sid))
  {
    hide PnlOver, UnrealizedOver, KeyBefore;
    var keys := a.books.Keys;
    forall k | k in ks ensures k.strategyID in c'.ids {
      assert k in Elements(ks);
    }
    StrategiesPartition(a, ks, c'.ids);
    EnumeratesDistinct(ks);
    AccountLaws.UnrealizedIsSum(a, ks);
    SumSeqIsSum(ks, k => ContributionAt(a, k));
    SumSeqIsSum(ks, k => AccountLaws.MarkValue(a, k));
    SumLinear(keys, k => AccountLaws.RealizedAt(a, k), k => AccountLaws.MarkValue(a, k), k => ContributionAt(a, k));
  }

  /** So it is in every account that fills and bars can reach. */
  lemma SampledRunDecomposes(
    starting: int64, ops: seq<AccountLaws.Op>, c: Curves, ks: seq<Key>, ts: Instant, c': Curves)
    requires AccountLaws.RunOps(starting, ops).Some?
    requires Sampled(c, AccountLaws.RunOps(starting, ops).value, ks, ts, c')
    ensures var a := AccountLaws.RunOps(starting, ops).value;
            && c'.total != []
            && c'.total[|c'.total| - 1].ts == ts
            && c'.total[|c'.total| - 1].value == starting + SumOver(c'.ids, sid => PnlValue(a, ks, sid))
  {
    hide Sampled, SumOver, PnlValue;
    AccountLaws.RealizedIsSum(starting, ops);
    SampleDecomposes(c, AccountLaws.RunOps(starting, ops).value, ks, ts, c');
  }

  // ---- alignment of the curves over whole runs ----

  function Times(ps: seq<Point>): seq<Instant> {
    seq(|ps|, i requires 0 <= i < |ps| => ps[i].ts)
  }

  predicate IsSuffix(a: seq<Instant>, b: seq<Instant>) {
    |a| <= |b| && b[|b| - |a|..] == a
  }

  /** Every strategy's timestamps are the tail of the total curve's. */
  predicate Aligned(c: Curves) {
    && c.perStrategy.Keys <= c.ids
    && forall sid :: sid in c.perStrategy ==> IsSuffix(Times(c.perStrategy[sid]), Times(c.total))
  }

  lemma SampleKeepsAligned(c: Curves, a: Acct, ks: seq<Key>, ts: Instant, c': Curves)
    requires Sampled(c, a, ks, ts, c') && Aligned(c)
    ensures Aligned(c') && c'.perStrategy.Keys == c'.ids
  {
    hide PnlOver, EquityOver, Enumerates;
    forall sid | sid in c'.perStrategy ensures IsSuffix(Times(c'.perStrategy[sid]), Times(c'.total)) {
      var p, q := Times(CurveOf(c, sid)), Times(c.total);
      assert Times(c'.perStrategy[sid]) == p + [ts];
      assert Times(c'.total) == q + [ts];
      assert IsSuffix(p, q);
    }
  }

  datatype Sample = Sample(acct: Acct, ks: seq<Key>, ts: Instant)

  /** Curves reached from an empty sampler by these samples, all successful. */
  ghost predicate Reaches(samples: seq<Sample>, c: Curves) {
    if samples == [] then c == NO_CURVES
    else
      var s := samples[|samples| - 1];
      exists b :: Reaches(samples[..|samples| - 1], b) && Sampled(b, s.acct, s.ks, s.ts, c)
  }

  function SampleTimes(samples: seq<Sample>): seq<Instant> {
    seq(|samples|, i requires 0 <= i < |samples| => samples[i].ts)
  }

  lemma TimesGrow(samples: seq<Sample>)
    requires samples != []
    ensures SampleTimes(samples) == SampleTimes(samples[..|samples| - 1]) + [samples[|samples| - 1].ts]
  {
  }

  lemma BeforeLast(samples: seq<Sample>, c: Curves) returns (b: Curves)
    requires samples != [] && Reaches(samples, c)
    ensures Reaches(samples[..|samples| - 1], b)
    ensures var s := samples[|samples| - 1]; Sampled(b, s.acct, s.ks, s.ts, c)
  {
    hide Sampled;
    var s := samples[|samples| - 1];
    b :| Reaches(samples[..|samples| - 1], b) && Sampled(b, s.acct, s.ks, s.ts, c);
  }

  lemma TotalGrows(b: Curves, s: Sample, c: Curves)
    requires Sampled(b, s.acct, s.ks, s.ts, c)
    ensures Times(c.total) == Times(b.total) + [s.ts]
  {
  }

  /** Over every run: one total point per sample, and aligned strategy curves. */
  lemma {:induction false} CurvesStayAligned(samples: seq<Sample>, c: Curves)
    requires Reaches(samples, c)
    ensures Aligned(c)
    ensures Times(c.total) == SampleTimes(samples)
  {
    if samples != [] {
      hide Reaches, Sampled, Aligned, Times, SampleTimes;
      var init, s := samples[..|samples| - 1], samples[|samples| - 1];
      var b := BeforeLast(samples, c);
      CurvesStayAligned(init, b);
      SampleKeepsAligned(b, s.acct, s.ks, s.ts, c);
      TotalGrows(b, s, c);
      TimesGrow(samples);
    }
  }

  // ---- the mutable sampler ----

  class EquitySampler {
    const acct: Account
    var strategyIDs: set<string>
    var perStrategy: map<string, seq<Point>>
    var total: seq<Point>

    ghost function State(): Curves
      reads this
    {
      Curves(strategyIDs, perStrategy, total)
    }

    constructor (acct: Account)
      ensures this.acct == acct && State() == NO_CURVES
    {
      this.acct := acct;
      strategyIDs, perStrategy, total := {}, map[], [];
    }

    /** One strategy's PnL: the inner loop over the sorted keys. */
    method StrategyPnl(sid: string, keys: seq<Key>) returns (r: Option<int64>)
      requires acct.Valid() && forall k :: k in keys ==> k in acct.positions
      ensures r == PnlOver(acct.State(), keys, sid)
    {
      hide Unrealized;
      var pnl: int64 := 0;
      for i := 0 to |keys|
        invariant PnlOver(acct.State(), keys[..i], sid) == Some(pnl)
      {
        var k := keys[i];
        assert keys[..i + 1][..i] == keys[..i];
        PnlFails(acct.State(), keys, i + 1, sid);
        if k.strategyID != sid {
          continue;
        }
        var p := acct.positions[k];
        assert BookAt(acct.State(), k) == p.State();
        var acc := CheckedAdd(pnl, p.realized);
        if acc.None? {
          return None;
        }
        pnl := acc.value;
        if p.signedQty != 0 && k.symbol in acct.lastPrice {
          var u := p.UnrealizedPnL(acct.lastPrice[k.symbol]);
          if u.None? {
            return None;
          }
          var sum := CheckedAdd(pnl, u.value);
          if sum.None? {
            return None;
          }
          pnl := sum.value;
        }
      }
      assert keys[..|keys|] == keys;
      return Some(pnl);
    }

    /** The outer loop: every known strategy, in any order. */
    method AllPnl(ids: set<string>, keys: seq<Key>) returns (r: Option<map<string, int64>>)
      requires acct.Valid() && forall k :: k in keys ==> k in acct.positions
      ensures r.None? <==> exists sid :: sid in ids && PnlOver(acct.State(), keys, sid).None?
      ensures r.Some? ==> r.value.Keys == ids
      ensures r.Some? ==> forall sid :: sid in ids ==> PnlOver(acct.State(), keys, sid) == Some(r.value[sid])
    {
      hide PnlOver;
      var rest, values: map<string, int64> := ids, map[];
      while rest != {}
        invariant rest <= ids && values.Keys == ids - rest
        invariant forall sid :: sid in values ==> PnlOver(acct.State(), keys, sid) == Some(values[sid])
        decreases rest
      {
        var sid :| sid in rest;
        var pnl := StrategyPnl(sid, keys);
        if pnl.None? {
          return None;
        }
        values := values[sid := pnl.value];
        rest := rest - {sid};
      }
      return Some(values);
    }

    /** Sort the keys once and total every strategy over them. */
    method Collect(ids: set<string>) returns (r: Option<map<string, int64>>, keys: seq<Key>)
      requires acct.Valid()
      ensures Enumerates(keys, acct.State().books.Keys)
      ensures r.None? <==> exists sid :: sid in ids && PnlOver(acct.State(), keys, sid).None?
      ensures r.Some? ==> r.value.Keys == ids
      ensures r.Some? ==> forall sid :: sid in ids ==> PnlOver(acct.State(), keys, sid) == Some(r.value[sid])
    {
      hide PnlOver, Enumerates;
      assert acct.State().books.Keys == acct.positions.Keys;
      keys := SortKeys(acct.positions.Keys);
      EnumeratesMembers(keys, acct.positions.Keys);
      r := AllPnl(ids, keys);
    }

    method TotalEquity(ghost ks: seq<Key>) returns (r: Option<int64>)
      requires acct.Valid() && Enumerates(ks, acct.State().books.Keys)
      ensures r == EquityOver(acct.State(), ks)
    {
      hide Enumerates, EquityOver;
      assert acct.State().books.Keys == acct.positions.Keys;
      r := acct.Equity();
    }

    method Sample(ts: Instant) returns (ok: bool, ghost ks: seq<Key>)
      requires acct.Valid()
      modifies this
      ensures ok ==> Sampled(old(State()), acct.State(), ks, ts, State())
      ensures !ok ==> SampleFailed(old(State()), acct.State(), ks, ts, State())
    {
      hide PnlOver, EquityOver, Enumerates, Extended, Sampled, SampleFailed, StrategiesOf, Account.State;
      ghost var a := acct.State();
      assert StrategiesOf(acct.positions.Keys) == StrategiesOf(a.books.Keys) by { SameKeys(acct); }
      strategyIDs := strategyIDs + DiscoverIDs();
      var values, keys := Collect(strategyIDs);
      ks := keys;
      if values.None? {
        FailureRecorded(old(State()), a, ks, ts);
        return false, ks;
      }
      perStrategy := Extended(perStrategy, values.value, ts);
      var equity := TotalEquity(ks);
      if equity.None? {
        HalfRecorded(old(State()), a, ks, values.value, ts);
        return false, ks;
      }
      total := total + [Point(ts, equity.value)];
      SampleRecorded(old(State()), a, ks, values.value, ts, equity.value);
      return true, ks;
    }

    function DiscoverIDs(): (ids: set<string>)
      reads acct
      ensures ids == StrategiesOf(acct.positions.Keys)
    {
      set k | k in acct.positions.Keys :: k.strategyID
    }
  }

  lemma SameKeys(acct: Account)
    ensures acct.State().books.Keys == acct.positions.Keys
  {
  }

  /** The pieces one Sample writes amount to Sampled. */
  lemma SampleRecorded(c: Curves, a: Acct, ks: seq<Key>, values: map<string, int64>, ts: Instant, equity: int64)
    requires Enumerates(ks, a.books.Keys) && values.Keys == c.ids + StrategiesOf(a.books.Keys)
    requires forall sid :: sid in values ==> PnlOver(a, ks, sid) == Some(values[sid])
    requires EquityOver(a, ks) == Some(equity)
    ensures Sampled(c, a, ks, ts, Curves(c.ids + StrategiesOf(a.books.Keys), Extended(c.perStrategy, values, ts),
                                         c.total + [Point(ts, equity)]))
  {
    hide PnlOver, EquityOver, Enumerates, StrategiesOf;
  }

  lemma HalfRecorded(c: Curves, a: Acct, ks: seq<Key>, values: map<string, int64>, ts: Instant)
    requires Enumerates(ks, a.books.Keys) && values.Keys == c.ids + StrategiesOf(a.books.Keys)
    requires forall sid :: sid in values ==> PnlOver(a, ks, sid) == Some(values[sid])
    requires EquityOver(a, ks).None?
    ensures SampleFailed(c, a, ks, ts,
                         Curves(c.ids + StrategiesOf(a.books.Keys), Extended(c.perStrategy, values, ts), c.total))
  {
    hide PnlOver, EquityOver, Enumerates, StrategiesOf;
  }

  lemma FailureRecorded(c: Curves, a: Acct, ks: seq<Key>, ts: Instant)
    requires exists sid :: sid in c.ids + StrategiesOf(a.books.Keys) && PnlOver(a, ks, sid).None?
    ensures SampleFailed(c, a, ks, ts, c.(ids := c.ids + StrategiesOf(a.books.Keys)))
  {
  }

  /** Append one point to the curve of every sampled strategy. */
  function Extended(curves: map<string, seq<Point>>, values: map<string, int64>, ts: Instant): map<string, seq<Point>> {
    map sid | sid in curves.Keys + values.Keys ::
      if sid in values
      then (if sid in curves then curves[sid] else []) + [Point(ts, values[sid])]
      else curves[sid]
  }

  lemma {:induction false} PnlFails(a: Acct, ks: seq<Key>, n: nat, sid: string)
    requires n <= |ks|
    ensures PnlOver(a, ks[..n], sid).None? ==> PnlOver(a, ks, sid).None?
    decreases |ks| - n
  {
    if n < |ks| {
      assert ks[..n + 1][..n] == ks[..n];
      PnlFails(a, ks, n + 1, sid);
    } else {
      assert ks[..n] == ks;
    }
  }
}
