/** Symbol-indexed strategy dispatch of internal/engine/engine.go against the full scan it
    replaces. */
module Dispatch {
  import opened Int64
  import opened Sums

  /** A strategy's declared symbols; None when it does not implement SymbolScoped. */
  type Scope = Option<seq<string>>

  predicate Reacts(scope: Scope, sym: string) {
    scope.None? || sym in scope.value
  }

  predicate Ascending(xs: seq<nat>) {
    forall i, j :: 0 <= i < j < |xs| ==> xs[i] < xs[j]
  }

  /** Indices below n of the strategies a full scan would have react to `sym`, in order. */
  function Matching(scopes: seq<Scope>, sym: string, n: nat): (r: seq<nat>)
    requires n <= |scopes|
    ensures Ascending(r) && forall i :: i in r <==> 0 <= i < n && Reacts(scopes[i], sym)
  {
    if n == 0 then []
    else
      var r := Matching(scopes, sym, n - 1);
      if Reacts(scopes[n - 1], sym) then
        assert forall i :: 0 <= i < |r| ==> r[i] in r;
        r + [n - 1]
      else r
  }

  /** Indices below n of the strategies without a scope. */
  function Unscoped(scopes: seq<Scope>, n: nat): (r: seq<nat>)
    requires n <= |scopes|
    ensures Ascending(r) && forall i :: i in r <==> 0 <= i < n && scopes[i].None?
  {
    if n == 0 then []
    else
      var r := Unscoped(scopes, n - 1);
      if scopes[n - 1].None? then
        assert forall i :: 0 <= i < |r| ==> r[i] in r;
        r + [n - 1]
      else r
  }

  predicate Declares(scope: Scope, sym: string) {
    scope.Some? && sym in scope.value
  }

  /** Indices below n of the scoped strategies that declare `sym`. */
  function Declaring(scopes: seq<Scope>, sym: string, n: nat): (r: seq<nat>)
    requires n <= |scopes|
    ensures Ascending(r) && forall i :: i in r <==> 0 <= i < n && Declares(scopes[i], sym)
  {
    if n == 0 then []
    else
      var r := Declaring(scopes, sym, n - 1);
      if Declares(scopes[n - 1], sym) then
        assert forall i :: 0 <= i < |r| ==> r[i] in r;
        r + [n - 1]
      else r
  }

  /** Ascending lists are determined by their elements. */
  lemma {:induction false} AscendingUnique(xs: seq<nat>, ys: seq<nat>)
    requires Ascending(xs) && Ascending(ys) && forall i :: i in xs <==> i in ys
    ensures xs == ys
    decreases |xs|
  {
    if xs == [] {
      assert forall i :: 0 <= i < |ys| ==> ys[i] in ys;
    } else {
      assert xs[0] in xs;
      assert ys != [];
      assert ys[0] in ys;
      assert xs[0] == ys[0];
      forall i ensures i in xs[1..] <==> i in ys[1..] {
        if i in xs[1..] { assert i in xs && i != xs[0]; assert i in ys; }
        if i in ys[1..] { assert i in ys && i != ys[0]; assert i in xs; }
      }
      AscendingUnique(xs[1..], ys[1..]);
    }
  }

  /** mergeRegistrationOrder: the two-index merge of two ascending, disjoint index lists. */
  method MergeRegistrationOrder(a: seq<nat>, b: seq<nat>) returns (out: seq<nat>)
    requires Ascending(a) && Ascending(b) && forall i :: !(i in a && i in b)
    ensures Ascending(out) && forall i :: i in out <==> i in a || i in b
  {
    if |b| == 0 {
      return a;
    }
    out := [];
    var i, j := 0, 0;
    MergeStarts(a, b);
    while i < |a| && j < |b|
      invariant i <= |a| && j <= |b| && Merged(out, a, i, b, j)
    {
      hide Merged;
      if a[i] < b[j] {
        MergeTakes(out, a, i, b, j);
        out := out + [a[i]];
        i := i + 1;
      } else {
        assert a[i] in a && b[j] in b;
        MergeCommutes(out, a, i, b, j);
        MergeTakes(out, b, j, a, i);
        MergeCommutes(out + [b[j]], b, j + 1, a, i);
        out := out + [b[j]];
        j := j + 1;
      }
    }
    JoinAscending(out, a[i..]);
    assert a == a[..i] + a[i..] && b == b[..j] + b[j..];
    out := out + a[i..];
    JoinAscending(out, b[j..]);
    out := out + b[j..];
  }

  /** `out` is the ascending merge of the first i of `a` and the first j of `b`, and all of
      it lies below what is left of either. */
  ghost predicate Merged(out: seq<nat>, a: seq<nat>, i: nat, b: seq<nat>, j: nat)
    requires i <= |a| && j <= |b|
  {
    && Ascending(out)
    && (forall x :: x in out <==> x in a[..i] || x in b[..j])
    && (forall x :: x in out && i < |a| ==> x < a[i])
    && (forall x :: x in out && j < |b| ==> x < b[j])
  }

  lemma MergeStarts(a: seq<nat>, b: seq<nat>)
    ensures Merged([], a, 0, b, 0)
  {
  }

  lemma MergeCommutes(out: seq<nat>, a: seq<nat>, i: nat, b: seq<nat>, j: nat)
    requires i <= |a| && j <= |b| && Merged(out, a, i, b, j)
    ensures Merged(out, b, j, a, i)
  {
  }

  lemma MergeTakes(out: seq<nat>, a: seq<nat>, i: nat, b: seq<nat>, j: nat)
    requires i < |a| && j < |b| && Merged(out, a, i, b, j) && Ascending(a) && a[i] < b[j]
    ensures Merged(out + [a[i]], a, i + 1, b, j)
  {
    AppendAscending(out, a[i]);
    assert a[..i + 1] == a[..i] + [a[i]];
  }

  lemma AppendAscending(xs: seq<nat>, x: nat)
    requires Ascending(xs) && forall y :: y in xs ==> y < x
    ensures Ascending(xs + [x])
  {
    assert forall i :: 0 <= i < |xs| ==> xs[i] in xs;
  }

  lemma JoinAscending(xs: seq<nat>, ys: seq<nat>)
    requires Ascending(xs) && Ascending(ys) && (ys != [] ==> forall y :: y in xs ==> y < ys[0])
    ensures Ascending(xs + ys)
  {
    assert forall i :: 0 <= i < |xs| ==> xs[i] in xs;
  }

  class Router {
    const scopes: seq<Scope>
    var dispatch: map<string, seq<nat>>
    var broadcast: seq<nat>

    constructor (scopes: seq<Scope>)
      ensures this.scopes == scopes && dispatch == map[] && broadcast == []
    {
      this.scopes, dispatch, broadcast := scopes, map[], [];
    }

    /** Every registered symbol's slice is exactly what the full scan would select. */
    ghost predicate Built(registration: seq<string>)
      reads this
    {
      && broadcast == Unscoped(scopes, |scopes|)
      && dispatch.Keys == Elements(registration)
      && forall sym :: sym in dispatch ==> dispatch[sym] == Matching(scopes, sym, |scopes|)
    }

    /** buildDispatch. */
    method BuildDispatch(registration: seq<string>)
      modifies this
      ensures Built(registration)
    {
      hide Unscoped, Declaring, Matching;
      var scoped;
      broadcast, scoped := CollectScopes(scopes);
      dispatch := map[];
      for r := 0 to |registration|
        invariant broadcast == Unscoped(scopes, |scopes|)
        invariant dispatch.Keys == Elements(registration[..r])
        invariant forall sym :: sym in dispatch ==> dispatch[sym] == Matching(scopes, sym, |scopes|)
      {
        var sym := registration[r];
        ElementsStep(registration, r);
        if sym !in dispatch {
          var slice := MergedSlice(scopes, broadcast, SliceOf(scoped, sym), sym);
          dispatch := dispatch[sym := slice];
        }
      }
      assert registration[..|registration|] == registration;
    }

    /** strategiesFor. */
    method StrategiesFor(sym: string) returns (r: seq<nat>)
      ensures r == Selected(sym)
    {
      if sym in dispatch {
        return dispatch[sym];
      }
      return broadcast;
    }

    function Selected(sym: string): seq<nat>
      reads this
    {
      if sym in dispatch then dispatch[sym] else broadcast
    }

    /** A whole bar sequence through the index. */
    method RunBars<S(!new)>(registration: seq<string>, step: (S, nat, Bar) -> Option<S>, s: S, bars: seq<Bar>)
      returns (r: Option<S>)
      requires Built(registration)
      ensures r == IndexedBars(scopes, Elements(registration), step, s, bars)
      ensures r.Some? ==> exists states :: && BarChain(scopes, Elements(registration), step, bars, states)
                                           && states[0] == s && states[|bars|] == r.value
      ensures r.None? ==> exists k: nat :: BarFails(scopes, Elements(registration), step, s, bars, k)
    {
      IndexedBarsMean(scopes, Elements(registration), step, s, bars);
      hide BarChain, BarFails;
      hide Unscoped, Matching, RunList;
      ghost var registered := Elements(registration);
      var cur := s;
      for i := 0 to |bars|
        invariant IndexedBars(scopes, registered, step, s, bars) ==
                  IndexedBars(scopes, registered, step, cur, bars[i..])
      {
        assert bars[i..][1..] == bars[i + 1..];
        var next := RunBar(step, cur, bars[i]);
        if next.None? {
          return None;
        }
        cur := next.value;
      }
      return Some(cur);
    }

    /** The strategies part of handleBar: run the selected ones in order, stop on an error. */
    method RunBar<S(!new)>(step: (S, nat, Bar) -> Option<S>, s: S, bar: Bar) returns (r: Option<S>)
      ensures r == RunList(step, s, Selected(bar.symbol), bar)
      ensures forall t :: r == Some(t) <==> StepsThrough(step, s, Selected(bar.symbol), bar, t)
      ensures r == None <==> exists k: nat :: FailsAt(step, s, Selected(bar.symbol), bar, k)
    {
      RunListIff(step, s, Selected(bar.symbol), bar);
      hide StepsThrough, FailsAt;
      var ixs := StrategiesFor(bar.symbol);
      var cur := s;
      for i := 0 to |ixs|
        invariant RunList(step, s, ixs, bar) == RunList(step, cur, ixs[i..], bar)
      {
        assert ixs[i..][1..] == ixs[i + 1..];
        var next := step(cur, ixs[i], bar);
        if next.None? {
          return None;
        }
        cur := next.value;
      }
      return Some(cur);
    }
  }

  lemma ElementsStep(xs: seq<string>, r: nat)
    requires r < |xs|
    ensures Elements(xs[..r + 1]) == Elements(xs[..r]) + {xs[r]}
  {
  }

  /** The first loop of buildDispatch: broadcast strategies, and per-symbol scoped ones. */
  method CollectScopes(scopes: seq<Scope>) returns (broadcast: seq<nat>, scoped: map<string, seq<nat>>)
    ensures broadcast == Unscoped(scopes, |scopes|)
    ensures forall sym :: SliceOf(scoped, sym) == Declaring(scopes, sym, |scopes|)
  {
    hide SliceOf, Ascending;
    broadcast, scoped := [], map[];
    EmptySlices();
    for i := 0 to |scopes|
      invariant broadcast == Unscoped(scopes, i)
      invariant forall sym :: SliceOf(scoped, sym) == Declaring(scopes, sym, i)
    {
      if scopes[i].None? {
        broadcast := broadcast + [i];
      } else {
        scoped := AddScoped(scoped, scopes[i].value, i);
      }
    }
  }

  lemma EmptySlices()
    ensures forall sym :: SliceOf(map[], sym) == []
  {
  }

  /** Merging broadcast and scoped indices gives the full scan's selection. */
  method MergedSlice(scopes: seq<Scope>, broadcast: seq<nat>, scoped: seq<nat>, sym: string) returns (r: seq<nat>)
    requires broadcast == Unscoped(scopes, |scopes|) && scoped == Declaring(scopes, sym, |scopes|)
    ensures r == Matching(scopes, sym, |scopes|)
  {
    hide Unscoped, Declaring, Matching;
    r := MergeRegistrationOrder(broadcast, scoped);
    AscendingUnique(r, Matching(scopes, sym, |scopes|));
  }

  function SliceOf(m: map<string, seq<nat>>, sym: string): seq<nat> {
    if sym in m then m[sym] else []
  }

  /** The inner loop of buildDispatch: record one scoped strategy under each symbol it
      declares, once. */
  method AddScoped(scoped: map<string, seq<nat>>, symbols: seq<string>, i: nat) returns (r: map<string, seq<nat>>)
    ensures forall sym :: SliceOf(r, sym) == if sym in symbols then SliceOf(scoped, sym) + [i] else SliceOf(scoped, sym)
  {
    r := scoped;
    var seen: set<string> := {};
    for j := 0 to |symbols|
      invariant forall sym :: sym in seen <==> sym in symbols[..j]
      invariant forall sym :: SliceOf(r, sym) == if sym in seen then SliceOf(scoped, sym) + [i] else SliceOf(scoped, sym)
    {
      var sym := symbols[j];
      assert symbols[..j + 1] == symbols[..j] + [sym];
      if sym !in seen {
        seen := seen + {sym};
        r := r[sym := SliceOf(r, sym) + [i]];
      }
    }
    assert symbols[..|symbols|] == symbols;
  }

  /** For a symbol nobody registered the router falls back to the unscoped strategies, which
      is the full scan's choice exactly when no scoped strategy declares that symbol. */
  lemma FallbackIff(scopes: seq<Scope>, sym: string)
    ensures Unscoped(scopes, |scopes|) == Matching(scopes, sym, |scopes|) <==>
            forall i :: 0 <= i < |scopes| ==> !Declares(scopes[i], sym)
  {
    var u, m := Unscoped(scopes, |scopes|), Matching(scopes, sym, |scopes|);
    if forall i :: 0 <= i < |scopes| ==> !Declares(scopes[i], sym) {
      AscendingUnique(u, m);
    } else {
      var i :| 0 <= i < |scopes| && Declares(scopes[i], sym);
      assert i in m && i !in u;
    }
  }

  // ---- running bars ----

  datatype Bar = Bar(symbol: string, payload: int)

  /** Strategies run one after another on a shared state; None is an error that aborts. */
  function RunList<S>(step: (S, nat, Bar) -> Option<S>, s: S, ixs: seq<nat>, bar: Bar): Option<S>
    decreases |ixs|
  {
    if ixs == [] then Some(s)
    else
      match step(s, ixs[0], bar)
      case None => None
      case Some(t) => RunList(step, t, ixs[1..], bar)
  }

  /** `states` leads from the first state through the strategies `ixs`, in order, each one stepping
      one state to the next on this bar. */
  predicate Chain<S(==)>(step: (S, nat, Bar) -> Option<S>, ixs: seq<nat>, bar: Bar, states: seq<S>) {
    && |states| == |ixs| + 1
    && forall k :: 0 <= k < |ixs| ==> step(states[k], ixs[k], bar) == Some(states[k + 1])
  }

  /** All of them step, from s to t. */
  ghost predicate StepsThrough<S(!new)>(step: (S, nat, Bar) -> Option<S>, s: S, ixs: seq<nat>, bar: Bar, t: S) {
    exists states :: Chain(step, ixs, bar, states) && states[0] == s && states[|ixs|] == t
  }

  /** The first k of them step, and the next one fails. */
  ghost predicate FailsAt<S(!new)>(step: (S, nat, Bar) -> Option<S>, s: S, ixs: seq<nat>, bar: Bar, k: nat) {
    && k < |ixs|
    && exists states :: Chain(step, ixs[..k], bar, states) && states[0] == s && step(states[k], ixs[k], bar).None?
  }

  lemma {:induction false} RunListMeans<S(!new)>(step: (S, nat, Bar) -> Option<S>, s: S, ixs: seq<nat>, bar: Bar)
    ensures RunList(step, s, ixs, bar).Some? ==> StepsThrough(step, s, ixs, bar, RunList(step, s, ixs, bar).value)
    ensures RunList(step, s, ixs, bar).None? ==> exists k: nat :: FailsAt(step, s, ixs, bar, k)
    decreases |ixs|
  {
    if ixs == [] {
      assert Chain(step, ixs, bar, [s]) && [s][0] == s;
    } else {
      var next, rest := step(s, ixs[0], bar), ixs[1..];
      if next.None? {
        assert Chain(step, ixs[..0], bar, [s]) && [s][0] == s;
        assert FailsAt(step, s, ixs, bar, 0);
      } else {
        RunListMeans(step, next.value, rest, bar);
        if RunList(step, next.value, rest, bar).Some? {
          var t := RunList(step, next.value, rest, bar).value;
          var states :| Chain(step, rest, bar, states) && states[0] == next.value && states[|rest|] == t;
          ChainCons(step, s, ixs, bar, states);
        } else {
          var k: nat :| FailsAt(step, next.value, rest, bar, k);
          FailsLater(step, s, ixs, bar, k);
        }
      }
    }
  }

  lemma ChainCons<S>(step: (S, nat, Bar) -> Option<S>, s: S, ixs: seq<nat>, bar: Bar, states: seq<S>)
    requires ixs != [] && Chain(step, ixs[1..], bar, states) && step(s, ixs[0], bar) == Some(states[0])
    ensures Chain(step, ixs, bar, [s] + states)
  {
    var all := [s] + states;
    forall k | 0 <= k < |ixs| ensures step(all[k], ixs[k], bar) == Some(all[k + 1]) {
      if k > 0 { assert ixs[k] == ixs[1..][k - 1]; }
    }
  }

  lemma FailsLater<S(!new)>(step: (S, nat, Bar) -> Option<S>, s: S, ixs: seq<nat>, bar: Bar, k: nat)
    requires ixs != [] && step(s, ixs[0], bar).Some? && FailsAt(step, step(s, ixs[0], bar).value, ixs[1..], bar, k)
    ensures FailsAt(step, s, ixs, bar, k + 1)
  {
    var states :| && Chain(step, ixs[1..][..k], bar, states) && states[0] == step(s, ixs[0], bar).value
                  && step(states[k], ixs[1..][k], bar).None?;
    assert ixs[..k + 1][1..] == ixs[1..][..k];
    ChainCons(step, s, ixs[..k + 1], bar, states);
    var all := [s] + states;
    assert all[k + 1] == states[k] && ixs[k + 1] == ixs[1..][k];
  }

  /** Two chains from the same state agree as far as both go. */
  lemma {:induction false} ChainsAgree<S>(
    step: (S, nat, Bar) -> Option<S>, xs: seq<nat>, ys: seq<nat>, bar: Bar, us: seq<S>, vs: seq<S>, k: nat)
    requires Chain(step, xs, bar, us) && Chain(step, ys, bar, vs) && us[0] == vs[0]
    requires k <= |xs| && k <= |ys| && xs[..k] == ys[..k]
    ensures us[k] == vs[k]
    decreases k
  {
    if k > 0 {
      assert xs[..k][..k - 1] == xs[..k - 1] && ys[..k][..k - 1] == ys[..k - 1];
      ChainsAgree(step, xs, ys, bar, us, vs, k - 1);
      assert xs[k - 1] == xs[..k][k - 1] == ys[..k][k - 1] == ys[k - 1];
    }
  }

  /** Strategies that all step from s to t do not also fail, and step to no other state. */
  lemma StepsOrFails<S(!new)>(step: (S, nat, Bar) -> Option<S>, s: S, ixs: seq<nat>, bar: Bar, t: S)
    requires StepsThrough(step, s, ixs, bar, t)
    ensures forall k: nat :: !FailsAt(step, s, ixs, bar, k)
    ensures forall u :: StepsThrough(step, s, ixs, bar, u) ==> u == t
  {
    var us :| Chain(step, ixs, bar, us) && us[0] == s && us[|ixs|] == t;
    forall k: nat ensures !FailsAt(step, s, ixs, bar, k) {
      if FailsAt(step, s, ixs, bar, k) {
        var vs :| Chain(step, ixs[..k], bar, vs) && vs[0] == s && step(vs[k], ixs[k], bar).None?;
        assert step(us[k], ixs[k], bar) == Some(us[k + 1]);
        ChainsAgree(step, ixs, ixs[..k], bar, us, vs, k);
      }
    }
    forall u | StepsThrough(step, s, ixs, bar, u) ensures u == t {
      var vs :| Chain(step, ixs, bar, vs) && vs[0] == s && vs[|ixs|] == u;
      ChainsAgree(step, ixs, ixs, bar, us, vs, |ixs|);
    }
  }

  /** Running a list on a bar, without recursion: it ends in t exactly when all its strategies step
      from s to t, in order, and fails exactly when some first strategies step and the next fails. */
  lemma RunListIff<S(!new)>(step: (S, nat, Bar) -> Option<S>, s: S, ixs: seq<nat>, bar: Bar)
    ensures forall t :: RunList(step, s, ixs, bar) == Some(t) <==> StepsThrough(step, s, ixs, bar, t)
    ensures RunList(step, s, ixs, bar) == None <==> exists k: nat :: FailsAt(step, s, ixs, bar, k)
  {
    hide RunList, StepsThrough, FailsAt;
    RunListMeans(step, s, ixs, bar);
    var r := RunList(step, s, ixs, bar);
    if r.Some? {
      StepsOrFails(step, s, ixs, bar, r.value);
    } else {
      var k: nat :| FailsAt(step, s, ixs, bar, k);
      forall t ensures !StepsThrough(step, s, ixs, bar, t) {
        if StepsThrough(step, s, ixs, bar, t) { StepsOrFails(step, s, ixs, bar, t); }
      }
    }
  }

  function Range(lo: nat, hi: nat): seq<nat>
    requires lo <= hi
    decreases hi - lo
  {
    if lo == hi then [] else [lo] + Range(lo + 1, hi)
  }

  /** The loop the index replaced: offer the bar to every strategy. */
  function FullScan<S>(scopes: seq<Scope>, step: (S, nat, Bar) -> Option<S>, s: S, bar: Bar): Option<S> {
    RunList(step, s, Range(0, |scopes|), bar)
  }

  /** Scoped strategies ignore bars of symbols they do not declare. */
  ghost predicate SelfFilters<S(!new)>(scopes: seq<Scope>, step: (S, nat, Bar) -> Option<S>) {
    forall s: S, i: nat, bar: Bar :: i < |scopes| && !Reacts(scopes[i], bar.symbol) ==> step(s, i, bar) == Some(s)
  }

  /** Indices from lo upward that react, in order. */
  function MatchingFrom(scopes: seq<Scope>, sym: string, lo: nat): (r: seq<nat>)
    requires lo <= |scopes|
    ensures Ascending(r) && forall i :: i in r <==> lo <= i < |scopes| && Reacts(scopes[i], sym)
    decreases |scopes| - lo
  {
    if lo == |scopes| then []
    else
      var rest := MatchingFrom(scopes, sym, lo + 1);
      if Reacts(scopes[lo], sym) then
        assert forall i :: 0 <= i < |rest| ==> rest[i] in rest;
        [lo] + rest
      else rest
  }

  lemma {:induction false} ScanSkips<S(!new)>(
    scopes: seq<Scope>, step: (S, nat, Bar) -> Option<S>, s: S, bar: Bar, lo: nat)
    requires SelfFilters(scopes, step) && lo <= |scopes|
    ensures RunList(step, s, Range(lo, |scopes|), bar) == RunList(step, s, MatchingFrom(scopes, bar.symbol, lo), bar)
    decreases |scopes| - lo
  {
    if lo < |scopes| {
      var rest, matching := Range(lo + 1, |scopes|), MatchingFrom(scopes, bar.symbol, lo + 1);
      assert Range(lo, |scopes|) == [lo] + rest;
      RunListCons(step, s, lo, rest, bar);
      if Reacts(scopes[lo], bar.symbol) {
        assert MatchingFrom(scopes, bar.symbol, lo) == [lo] + matching;
        RunListCons(step, s, lo, matching, bar);
        hide RunList, SelfFilters, Range, MatchingFrom;
        var next := step(s, lo, bar);
        if next.Some? { ScanSkips(scopes, step, next.value, bar, lo + 1); }
      } else {
        assert MatchingFrom(scopes, bar.symbol, lo) == matching;
        assert step(s, lo, bar) == Some(s);
        hide RunList, SelfFilters, Range, MatchingFrom;
        ScanSkips(scopes, step, s, bar, lo + 1);
      }
    }
  }

  lemma RunListCons<S>(step: (S, nat, Bar) -> Option<S>, s: S, ix: nat, rest: seq<nat>, bar: Bar)
    ensures RunList(step, s, [ix] + rest, bar) ==
            match step(s, ix, bar)
            case None => None
            case Some(t) => RunList(step, t, rest, bar)
  {
    assert ([ix] + rest)[1..] == rest;
  }

  /** On one bar the indexed choice and the full scan end in the same state or error. */
  lemma IndexedBarEqualsScan<S(!new)>(scopes: seq<Scope>, step: (S, nat, Bar) -> Option<S>, s: S, bar: Bar)
    requires SelfFilters(scopes, step)
    ensures RunList(step, s, Matching(scopes, bar.symbol, |scopes|), bar) == FullScan(scopes, step, s, bar)
  {
    ScanSkips(scopes, step, s, bar, 0);
    AscendingUnique(Matching(scopes, bar.symbol, |scopes|), MatchingFrom(scopes, bar.symbol, 0));
  }

  function ScanBars<S>(scopes: seq<Scope>, step: (S, nat, Bar) -> Option<S>, s: S, bars: seq<Bar>): Option<S>
    decreases |bars|
  {
    if bars == [] then Some(s)
    else
      match FullScan(scopes, step, s, bars[0])
      case None => None
      case Some(t) => ScanBars(scopes, step, t, bars[1..])
  }

  /** What a built router selects. */
  function Choice(scopes: seq<Scope>, registered: set<string>, sym: string): seq<nat> {
    if sym in registered then Matching(scopes, sym, |scopes|) else Unscoped(scopes, |scopes|)
  }

  function IndexedBars<S>(
    scopes: seq<Scope>, registered: set<string>, step: (S, nat, Bar) -> Option<S>, s: S, bars: seq<Bar>): Option<S>
    decreases |bars|
  {
    if bars == [] then Some(s)
    else
      match RunList(step, s, Choice(scopes, registered, bars[0].symbol), bars[0])
      case None => None
      case Some(t) => IndexedBars(scopes, registered, step, t, bars[1..])
  }

  /** `states` leads from bar to bar: on each one every selected strategy steps, in order. */
  ghost predicate BarChain<S(!new)>(
    scopes: seq<Scope>, registered: set<string>, step: (S, nat, Bar) -> Option<S>, bars: seq<Bar>, states: seq<S>)
  {
    && |states| == |bars| + 1
    && forall k :: 0 <= k < |bars| ==>
         StepsThrough(step, states[k], Choice(scopes, registered, bars[k].symbol), bars[k], states[k + 1])
  }

  /** Bar k is reached, and a selected strategy fails on it. */
  ghost predicate BarFails<S(!new)>(
    scopes: seq<Scope>, registered: set<string>, step: (S, nat, Bar) -> Option<S>, s: S, bars: seq<Bar>, k: nat)
  {
    && k < |bars|
    && exists states, j: nat ::
         && BarChain(scopes, registered, step, bars[..k], states) && states[0] == s
         && FailsAt(step, states[k], Choice(scopes, registered, bars[k].symbol), bars[k], j)
  }

  /** A whole bar sequence, without recursion: it ends in t only through a chain of bars on each of
      which every selected strategy stepped, and fails only on a bar so reached. */
  lemma {:induction false} IndexedBarsMean<S(!new)>(
    scopes: seq<Scope>, registered: set<string>, step: (S, nat, Bar) -> Option<S>, s: S, bars: seq<Bar>)
    ensures var r := IndexedBars(scopes, registered, step, s, bars);
            && (r.Some? ==> exists states :: && BarChain(scopes, registered, step, bars, states)
                                             && states[0] == s && states[|bars|] == r.value)
            && (r.None? ==> exists k: nat :: BarFails(scopes, registered, step, s, bars, k))
    decreases |bars|
  {
    hide Choice, StepsThrough, FailsAt, RunList;
    if bars == [] {
      assert BarChain(scopes, registered, step, bars, [s]) && [s][0] == s;
    } else {
      var bar, rest := bars[0], bars[1..];
      var ixs := Choice(scopes, registered, bar.symbol);
      RunListIff(step, s, ixs, bar);
      var next := RunList(step, s, ixs, bar);
      if next.None? {
        var j: nat :| FailsAt(step, s, ixs, bar, j);
        assert BarChain(scopes, registered, step, bars[..0], [s]) && [s][0] == s;
        assert BarFails(scopes, registered, step, s, bars, 0);
      } else {
        IndexedBarsMean(scopes, registered, step, next.value, rest);
        var r := IndexedBars(scopes, registered, step, next.value, rest);
        if r.Some? {
          var states :| && BarChain(scopes, registered, step, rest, states)
                        && states[0] == next.value && states[|rest|] == r.value;
          BarChainCons(scopes, registered, step, s, bars, states);
          assert ([s] + states)[0] == s && ([s] + states)[|bars|] == r.value;
        } else {
          var k: nat :| BarFails(scopes, registered, step, next.value, rest, k);
          BarFailsLater(scopes, registered, step, s, bars, next.value, k);
        }
      }
    }
  }

  lemma BarChainCons<S(!new)>(
    scopes: seq<Scope>, registered: set<string>, step: (S, nat, Bar) -> Option<S>, s: S, bars: seq<Bar>, states: seq<S>)
    requires bars != [] && BarChain(scopes, registered, step, bars[1..], states)
    requires StepsThrough(step, s, Choice(scopes, registered, bars[0].symbol), bars[0], states[0])
    ensures BarChain(scopes, registered, step, bars, [s] + states)
  {
    hide Choice, StepsThrough;
    var all := [s] + states;
    forall k | 0 <= k < |bars|
      ensures StepsThrough(step, all[k], Choice(scopes, registered, bars[k].symbol), bars[k], all[k + 1])
    {
      if k > 0 { assert bars[k] == bars[1..][k - 1]; }
    }
  }

  lemma BarFailsLater<S(!new)>(
    scopes: seq<Scope>, registered: set<string>, step: (S, nat, Bar) -> Option<S>, s: S, bars: seq<Bar>, t: S, k: nat)
    requires bars != [] && StepsThrough(step, s, Choice(scopes, registered, bars[0].symbol), bars[0], t)
    requires BarFails(scopes, registered, step, t, bars[1..], k)
    ensures BarFails(scopes, registered, step, s, bars, k + 1)
  {
    hide Choice, StepsThrough, FailsAt;
    var rest := bars[1..];
    var states, j: nat :| && BarChain(scopes, registered, step, rest[..k], states) && states[0] == t
                          && FailsAt(step, states[k], Choice(scopes, registered, rest[k].symbol), rest[k], j);
    assert bars[..k + 1][1..] == rest[..k];
    BarChainCons(scopes, registered, step, s, bars[..k + 1], states);
    var all := [s] + states;
    assert all[k + 1] == states[k] && bars[k + 1] == rest[k] && all[0] == s;
  }

  /** Indexed dispatch refines the full scan over every sequence of bars, provided scoped
      strategies ignore foreign symbols and nobody declares an unregistered symbol a bar has. */
  lemma {:induction false} IndexedEqualsScan<S(!new)>(
    scopes: seq<Scope>, registered: set<string>, step: (S, nat, Bar) -> Option<S>, s: S, bars: seq<Bar>)
    requires SelfFilters(scopes, step)
    requires forall b, i :: b in bars && 0 <= i < |scopes| && b.symbol !in registered ==> !Declares(scopes[i], b.symbol)
    ensures IndexedBars(scopes, registered, step, s, bars) == ScanBars(scopes, step, s, bars)
    decreases |bars|
  {
    if bars != [] {
      hide Unscoped, Matching;
      var sym := bars[0].symbol;
      if sym !in registered {
        FallbackIff(scopes, sym);
      }
      IndexedBarEqualsScan(scopes, step, s, bars[0]);
      var next := FullScan(scopes, step, s, bars[0]);
      if next.Some? {
        IndexedEqualsScan(scopes, registered, step, next.value, bars[1..]);
      }
    }
  }
}
