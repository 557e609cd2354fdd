/** The account of internal/accounting/account.go: positions per (strategy, symbol), last
    prices, cash and equity. */
module Accounts {
  import opened Int64
  import opened Clock
  import opened Ledger
  import opened Sums

  datatype Key = Key(strategyID: string, symbol: string)

  datatype Acct = Acct(starting: int64, realized: int64, books: map<Key, Book>, last: map<string, int64>)

  function KeyOf(f: Fill): Key {
    Key(f.strategyID, f.symbol)
  }

  /** Fill.Validate. */
  predicate FillValid(f: Fill) {
    && f.tradeID != "" && f.clientOrderID != "" && f.strategyID != "" && f.symbol != ""
    && f.side != UnknownSide && f.qty > 0 && f.price > 0 && f.commission >= 0 && f.ts != ZeroTime
  }

  function BookAt(a: Acct, k: Key): Book {
    if k in a.books then a.books[k] else FLAT
  }

  datatype Settled = Settlement(acct: Acct, result: Result<FillOutcome>)

  /** Account.ApplyFill, error paths included. */
  function ApplyFill(a: Acct, f: Fill): Settled {
    if !FillValid(f) then Settlement(a, Err(InvalidArgument))
    else
      var ap := Apply(BookAt(a, KeyOf(f)), f);
      var routed := a.(books := a.books[KeyOf(f) := ap.book]);
      match ap.result
      case Err(e) => Settlement(routed, Err(e))
      case Ok(out) => Credit(routed, f, out)
  }

  /** The account's own part: realized total, last price, and the cash it must be able to show. */
  function Credit(a: Acct, f: Fill, out: FillOutcome): Settled {
    match CheckedAdd(a.realized, out.realizedDelta)
    case None => Settlement(a, Err(OverflowError))
    case Some(acc) =>
      var settled := a.(realized := acc, last := a.last[f.symbol := f.price]);
      Settlement(settled, if Cash(settled).None? then Err(OverflowError) else Ok(out))
  }

  function Cash(a: Acct): Option<int64> {
    CheckedAdd(a.starting, a.realized)
  }

  function ObserveBar(a: Acct, symbol: string, close: int64): Acct {
    a.(last := a.last[symbol := close])
  }

  /** One position's contribution to the unrealized total; None on overflow. */
  function MarkAt(a: Acct, k: Key): Option<int64> {
    if BookAt(a, k).qty == 0 || k.symbol !in a.last then Some(0)
    else Unrealized(BookAt(a, k), a.last[k.symbol])
  }

  /** Account.Unrealized over the keys in the given order. */
  function UnrealizedOver(a: Acct, ks: seq<Key>): Option<int64> {
    if ks == [] then Some(0)
    else
      match UnrealizedOver(a, ks[..|ks| - 1])
      case None => None
      case Some(total) =>
        match MarkAt(a, ks[|ks| - 1])
        case None => None
        case Some(u) => CheckedAdd(total, u)
  }

  function EquityOver(a: Acct, ks: seq<Key>): Option<int64> {
    match Cash(a)
    case None => None
    case Some(cash) =>
      match UnrealizedOver(a, ks)
      case None => None
      case Some(u) => CheckedAdd(cash, u)
  }

  // ---- the deterministic key order ----

  /** Go's string order. */
  predicate StringLess(a: string, b: string) {
    b != "" && (a == "" || a[0] < b[0] || (a[0] == b[0] && StringLess(a[1..], b[1..])))
  }

  predicate KeyBefore(a: Key, b: Key) {
    if a.strategyID != b.strategyID then StringLess(a.strategyID, b.strategyID)
    else StringLess(a.symbol, b.symbol)
  }

  lemma {:induction false} StringOrder(a: string, b: string, c: string)
    ensures !StringLess(a, a)
    ensures StringLess(a, b) && StringLess(b, c) ==> StringLess(a, c)
    ensures a != b ==> StringLess(a, b) || StringLess(b, a)
    decreases |a| + |b| + |c|
  {
    if a != "" && b != "" {
      var c1 := if c == "" then "" else c[1..];
      StringOrder(a[1..], b[1..], c1);
      if a[0] == b[0] && a[1..] == b[1..] {
        assert a == [a[0]] + a[1..] && b == [b[0]] + b[1..];
      }
    } else if a != "" {
      StringOrder(a[1..], "", "");
    }
  }

  lemma KeyOrder(a: Key, b: Key, c: Key)
    ensures !KeyBefore(a, a)
    ensures KeyBefore(a, b) && KeyBefore(b, c) ==> KeyBefore(a, c)
    ensures a != b ==> KeyBefore(a, b) || KeyBefore(b, a)
  {
    hide StringLess;
    StringOrder(a.strategyID, b.strategyID, c.strategyID);
    StringOrder(b.strategyID, a.strategyID, b.strategyID);
    StringOrder(a.symbol, b.symbol, c.symbol);
  }

  /** The order of strings, without recursion: the first difference decides, else the shorter one
      comes first. */
  predicate FirstDifference(a: string, b: string, i: nat) {
    i <= |a| && i < |b| && a[..i] == b[..i] && (i < |a| ==> a[i] < b[i])
  }

  lemma {:induction false} StringLessIff(a: string, b: string)
    ensures StringLess(a, b) <==> exists i: nat :: FirstDifference(a, b, i)
  {
    if b != "" && a != "" && a[0] == b[0] {
      StringLessIff(a[1..], b[1..]);
      forall i: nat ensures FirstDifference(a[1..], b[1..], i) <==> FirstDifference(a, b, i + 1) {
        DifferenceLater(a, b, i);
      }
      assert !FirstDifference(a, b, 0);
      if i: nat :| FirstDifference(a, b, i) {
        assert FirstDifference(a[1..], b[1..], i - 1);
      }
    } else {
      forall i: nat | FirstDifference(a, b, i) ensures i == 0 {
        if i > 0 { DifferenceBehind(a, b, i); }
      }
      assert FirstDifference(a, b, 0) <==> b != "" && (a == "" || a[0] < b[0]);
    }
  }

  lemma DifferenceBehind(a: string, b: string, i: nat)
    requires FirstDifference(a, b, i) && i > 0
    ensures a != "" && b != "" && a[0] == b[0]
  {
    assert a[..i][0] == b[..i][0];
  }

  lemma DifferenceLater(a: string, b: string, i: nat)
    requires a != "" && b != "" && a[0] == b[0]
    ensures FirstDifference(a[1..], b[1..], i) <==> FirstDifference(a, b, i + 1)
  {
    if i < |a| && i + 1 < |b| {
      assert a[..i + 1] == [a[0]] + a[1..][..i];
      assert b[..i + 1] == [b[0]] + b[1..][..i];
      if a[..i + 1] == b[..i + 1] { assert a[1..][..i] == a[..i + 1][1..] && b[1..][..i] == b[..i + 1][1..]; }
    }
  }

  /** Sorted keys ascend by strategy, then by symbol. */
  lemma SortedMeans(ks: seq<Key>, i: nat, j: nat)
    requires SortedKeys(ks) && i < j < |ks|
    ensures || (exists n: nat :: FirstDifference(ks[i].strategyID, ks[j].strategyID, n))
            || (ks[i].strategyID == ks[j].strategyID && exists n: nat :: FirstDifference(ks[i].symbol, ks[j].symbol, n))
  {
    hide StringLess, FirstDifference;
    StringLessIff(ks[i].strategyID, ks[j].strategyID);
    StringLessIff(ks[i].symbol, ks[j].symbol);
  }

  predicate SortedKeys(ks: seq<Key>) {
    forall i, j :: 0 <= i < j < |ks| ==> KeyBefore(ks[i], ks[j])
  }

  /** `ks` lists exactly `keys`, in key order. */
  ghost predicate Enumerates(ks: seq<Key>, keys: set<Key>) {
    SortedKeys(ks) && Elements(ks) == keys
  }

  lemma EnumeratesDistinct(ks: seq<Key>)
    requires SortedKeys(ks)
    ensures Distinct(ks)
  {
    forall i, j | 0 <= i < j < |ks| ensures ks[i] != ks[j] {
      KeyOrder(ks[i], ks[i], ks[i]);
    }
  }

  /** Map iteration order cannot leak: there is only one sorted listing. */
  lemma {:induction false} EnumerationUnique(ks: seq<Key>, js: seq<Key>, keys: set<Key>)
    requires Enumerates(ks, keys) && Enumerates(js, keys)
    ensures ks == js
    decreases |ks|
  {
    hide KeyBefore;
    if ks == [] {
      assert forall i :: 0 <= i < |js| ==> js[i] in Elements(js);
    } else {
      assert ks[0] in Elements(ks);
      assert js != [];
      var k, j := ks[0], js[0];
      assert j in Elements(js);
      if k != j {
        var x :| 0 <= x < |ks| && ks[x] == j;
        var y :| 0 <= y < |js| && js[y] == k;
        KeyOrder(k, j, k);
      }
      TailEnumerates(ks, keys);
      TailEnumerates(js, keys);
      EnumerationUnique(ks[1..], js[1..], keys - {k});
      assert ks == [k] + ks[1..] && js == [k] + js[1..];
    }
  }

  lemma TailEnumerates(ks: seq<Key>, keys: set<Key>)
    requires Enumerates(ks, keys) && ks != []
    ensures Enumerates(ks[1..], keys - {ks[0]})
  {
    hide KeyBefore;
    EnumeratesDistinct(ks);
    assert ks == [ks[0]] + ks[1..];
    assert ks[0] !in ks[1..];
  }

  function InsertKey(ks: seq<Key>, k: Key): seq<Key> {
    if ks == [] || KeyBefore(k, ks[0]) then [k] + ks else [ks[0]] + InsertKey(ks[1..], k)
  }

  lemma {:induction false} InsertKeyEnumerates(ks: seq<Key>, keys: set<Key>, k: Key)
    requires Enumerates(ks, keys) && k !in keys
    ensures Enumerates(InsertKey(ks, k), keys + {k})
    decreases |ks|
  {
    hide KeyBefore;
    if ks == [] {
    } else if KeyBefore(k, ks[0]) {
      forall i | 0 <= i < |ks| ensures KeyBefore(k, ks[i]) {
        KeyOrder(k, ks[0], ks[i]);
      }
    } else {
      var head, rest := ks[0], InsertKey(ks[1..], k);
      assert head in Elements(ks);
      TailEnumerates(ks, keys);
      InsertKeyEnumerates(ks[1..], keys - {head}, k);
      KeyOrder(head, k, k);
      forall i | 0 <= i < |rest| ensures KeyBefore(head, rest[i]) {
        assert rest[i] in Elements(rest);
        if rest[i] != k {
          assert rest[i] in Elements(ks[1..]);
        }
      }
      assert Elements([head] + rest) == {head} + Elements(rest);
      assert keys + {k} == {head} + (keys - {head} + {k});
    }
  }

  /** sortKeys: range over the map in any order, then sort. */
  method SortKeys(keys: set<Key>) returns (ks: seq<Key>)
    ensures Enumerates(ks, keys)
  {
    var rest := keys;
    ks := [];
    while rest != {}
      invariant rest <= keys && Enumerates(ks, keys - rest)
      decreases rest
    {
      var k :| k in rest;
      InsertKeyEnumerates(ks, keys - rest, k);
      ks := InsertKey(ks, k);
      assert keys - rest + {k} == keys - (rest - {k});
      rest := rest - {k};
    }
  }

  // ---- the mutable account ----

  class Account {
    const startingBalance: int64
    var realized: int64
    var positions: map<Key, Position>
    var lastPrice: map<string, int64>

    /** Every position sits under its own key, so distinct keys hold distinct objects. */
    ghost predicate Valid()
      reads this
    {
      forall k :: k in positions ==> Key(positions[k].strategyID, positions[k].symbol) == k
    }

    ghost function State(): Acct
      reads this, positions.Values
    {
      Acct(startingBalance, realized, map k | k in positions :: positions[k].State(), lastPrice)
    }

    constructor (starting: int64)
      ensures Valid() && State() == Acct(starting, 0, map[], map[]) && positions == map[]
    {
      startingBalance, realized, positions, lastPrice := starting, 0, map[], map[];
    }

    method Observe(symbol: string, close: int64)
      requires Valid()
      modifies this`lastPrice
      ensures Valid() && State() == ObserveBar(old(State()), symbol, close)
    {
      lastPrice := lastPrice[symbol := close];
    }

    /** position: find the (strategy, symbol) position, creating a flat one on first use. */
    method Route(k: Key) returns (p: Position)
      requires Valid()
      modifies this`positions
      ensures Valid() && k in positions && positions[k] == p
      ensures positions == old(positions)[k := p]
      ensures k in old(positions) ==> p == old(positions)[k]
      ensures k !in old(positions) ==> fresh(p)
      ensures State() == old(State()).(books := old(State()).books[k := BookAt(old(State()), k)])
    {
      if k in positions {
        p := positions[k];
      } else {
        p := new Position(k.strategyID, k.symbol);
        positions := positions[k := p];
      }
    }

    /** Route a fill to its position and apply it there. */
    method Post(f: Fill) returns (r: Result<FillOutcome>)
      requires Valid()
      modifies this`positions, positions.Values
      ensures Valid()
      ensures forall p :: p in positions.Values ==> p in old(positions.Values) || fresh(p)
      ensures var ap := Apply(BookAt(old(State()), KeyOf(f)), f);
              r == ap.result &&
              State() == old(State()).(books := old(State()).books[KeyOf(f) := ap.book])
    {
      hide Apply, State, Valid;
      var k := KeyOf(f);
      var p := Route(k);
      r := ApplyAt(k, f);
    }

    /** One position takes the fill; every other one keeps its book. */
    method ApplyAt(k: Key, f: Fill) returns (r: Result<FillOutcome>)
      requires Valid() && k in positions
      modifies positions[k]
      ensures Valid()
      ensures var ap := Apply(BookAt(old(State()), k), f);
              r == ap.result && State() == old(State()).(books := old(State()).books[k := ap.book])
    {
      hide Apply;
      ghost var before := State();
      r := positions[k].ApplyFill(f);
      assert forall j :: j in positions && j != k ==> positions[j] != positions[k];
      assert State().books == before.books[k := Apply(before.books[k], f).book];
    }

    /** ApplyFill: route, move cash by the realized delta, refresh the last price. */
    method Settle(f: Fill) returns (r: Result<FillOutcome>)
      requires Valid()
      modifies this, positions.Values
      ensures Valid()
      ensures forall p :: p in positions.Values ==> p in old(positions.Values) || fresh(p)
      ensures Settlement(State(), r) == ApplyFill(old(State()), f)
    {
      hide Apply, Credit, State;
      if !FillValid(f) {
        return Err(InvalidArgument);
      }
      var applied := Post(f);
      if applied.Err? {
        return Err(applied.error);
      }
      r := Book(f, applied.value);
    }

    method Book(f: Fill, out: FillOutcome) returns (r: Result<FillOutcome>)
      requires Valid()
      modifies this`realized, this`lastPrice
      ensures Valid() && Settlement(State(), r) == Credit(old(State()), f, out)
    {
      ghost var books := State().books;
      if out.realizedDelta != 0 {
        var acc := CheckedAdd(realized, out.realizedDelta);
        if acc.None? {
          return Err(OverflowError);
        }
        realized := acc.value;
      }
      lastPrice := lastPrice[f.symbol := f.price];
      assert State().books == books;
      var cash := CheckedAdd(startingBalance, realized);
      return if cash.None? then Err(OverflowError) else Ok(out);
    }

    /** Unrealized: the checked sum in the one sorted order of the keys. */
    method TotalUnrealized() returns (r: Option<int64>)
      requires Valid()
      ensures forall ks :: Enumerates(ks, positions.Keys) ==> r == UnrealizedOver(State(), ks)
    {
      hide Unrealized, Enumerates;
      var keys := SortKeys(positions.Keys);
      r := UnrealizedIn(keys);
      forall ks | Enumerates(ks, positions.Keys) ensures ks == keys {
        EnumerationUnique(ks, keys, positions.Keys);
      }
    }

    method UnrealizedIn(keys: seq<Key>) returns (r: Option<int64>)
      requires Valid() && Enumerates(keys, positions.Keys)
      ensures r == UnrealizedOver(State(), keys)
    {
      hide Unrealized, Enumerates;
      EnumeratesMembers(keys, positions.Keys);
      var total: int64 := 0;
      for i := 0 to |keys|
        invariant UnrealizedOver(State(), keys[..i]) == Some(total)
      {
        var k := keys[i];
        var p := positions[k];
        assert keys[..i + 1][..i] == keys[..i];
        assert BookAt(State(), k) == p.State();
        UnrealizedFails(State(), keys, i + 1);
        if p.signedQty == 0 || k.symbol !in lastPrice {
          continue;
        }
        var u := p.UnrealizedPnL(lastPrice[k.symbol]);
        if u.None? {
          return None;
        }
        var sum := CheckedAdd(total, u.value);
        if sum.None? {
          return None;
        }
        total := sum.value;
      }
      assert keys[..|keys|] == keys;
      return Some(total);
    }

    method Equity() returns (r: Option<int64>)
      requires Valid()
      ensures forall ks :: Enumerates(ks, positions.Keys) ==> r == EquityOver(State(), ks)
    {
      hide Enumerates, UnrealizedOver;
      var cash := CheckedAdd(startingBalance, realized);
      var u := TotalUnrealized();
      if cash.None? || u.None? {
        return None;
      }
      r := CheckedAdd(cash.value, u.value);
    }
  }

  lemma EnumeratesMembers(ks: seq<Key>, keys: set<Key>)
    requires Enumerates(ks, keys)
    ensures forall i :: 0 <= i < |ks| ==> ks[i] in keys
  {
  }

  /** Once the running total overflows the whole sum does. */
  lemma {:induction false} UnrealizedFails(a: Acct, ks: seq<Key>, n: nat)
    requires n <= |ks|
    ensures UnrealizedOver(a, ks[..n]).None? ==> UnrealizedOver(a, ks).None?
    decreases |ks| - n
  {
    if n < |ks| {
      assert ks[..n + 1][..n] == ks[..n];
      UnrealizedFails(a, ks, n + 1);
    } else {
      assert ks[..n] == ks;
    }
  }
}
