/** paretoFront of internal/api/handlers_hyperopt.go. Scores are reals: NaN is not modelled. */
module Pareto {
  import opened Int64

  datatype Trial = Trial(number: int, complete: bool, sharpe: Option<real>, calmar: Option<real>)

  datatype Scored = Scored(number: int, sharpe: real, calmar: real)

  predicate Eligible(t: Trial) {
    t.complete && t.sharpe.Some? && t.calmar.Some?
  }

  function ScoreOf(t: Trial): Scored
    requires Eligible(t)
  {
    Scored(t.number, t.sharpe.value, t.calmar.value)
  }

  /** The complete trials with both scores, in row order. */
  function Points(rows: seq<Trial>): seq<Scored> {
    if rows == [] then []
    else
      var init, t := Points(rows[..|rows| - 1]), rows[|rows| - 1];
      if Eligible(t) then init + [ScoreOf(t)] else init
  }

  /** Weak dominance: no worse in both scores and better in one. */
  predicate Dominates(a: Scored, b: Scored) {
    a.sharpe >= b.sharpe && a.calmar >= b.calmar && (a.sharpe > b.sharpe || a.calmar > b.calmar)
  }

  predicate Dominated(ps: seq<Scored>, p: Scored) {
    exists j :: 0 <= j < |ps| && Dominates(ps[j], p)
  }

  predicate DistinctNumbers(ps: seq<Scored>) {
    forall i, j :: 0 <= i < j < |ps| ==> ps[i].number != ps[j].number
  }

  method CollectPoints(rows: seq<Trial>) returns (ps: seq<Scored>)
    ensures ps == Points(rows)
  {
    ps := [];
    for i := 0 to |rows|
      invariant ps == Points(rows[..i])
    {
      assert rows[..i + 1][..i] == rows[..i];
      var t := rows[i];
      if !t.complete || t.sharpe.None? || t.calmar.None? {
        continue;
      }
      ps := ps + [Scored(t.number, t.sharpe.value, t.calmar.value)];
    }
    assert rows[..|rows|] == rows;
  }

  /** The inner loop: compare one trial with every other. */
  method IsDominated(ps: seq<Scored>, i: nat) returns (dominated: bool)
    requires i < |ps|
    ensures dominated == Dominated(ps, ps[i])
  {
    for j := 0 to |ps|
      invariant forall k :: 0 <= k < j ==> !Dominates(ps[k], ps[i])
    {
      if i == j {
        continue;
      }
      if Dominates(ps[j], ps[i]) {
        return true;
      }
    }
    return false;
  }

  /** One complete row with both scores is no worse than another in both, and better in one. */
  predicate RowDominates(a: Trial, b: Trial) {
    && a.complete && a.sharpe.Some? && a.calmar.Some? && b.sharpe.Some? && b.calmar.Some?
    && a.sharpe.value >= b.sharpe.value && a.calmar.value >= b.calmar.value
    && (a.sharpe.value > b.sharpe.value || a.calmar.value > b.calmar.value)
  }

  /** A complete row with both scores that no row dominates. */
  predicate RowOnFront(rows: seq<Trial>, t: Trial) {
    && t.complete && t.sharpe.Some? && t.calmar.Some?
    && forall j :: 0 <= j < |rows| ==> !RowDominates(rows[j], t)
  }

  /** The points are the scores of exactly the eligible rows. */
  lemma {:induction false} PointsAreRows(rows: seq<Trial>, p: Scored)
    ensures p in Points(rows) <==>
            exists i :: && 0 <= i < |rows| && rows[i].complete
                        && rows[i] == Trial(p.number, true, Some(p.sharpe), Some(p.calmar))
  {
    if rows != [] {
      var n := |rows| - 1;
      PointsAreRows(rows[..n], p);
      assert forall i :: 0 <= i < n ==> rows[..n][i] == rows[i];
    }
  }

  lemma FrontOfRows(rows: seq<Trial>, n: int)
    ensures (exists i :: 0 <= i < |Points(rows)| && Points(rows)[i].number == n && !Dominated(Points(rows), Points(rows)[i]))
            <==> exists i :: 0 <= i < |rows| && rows[i].number == n && RowOnFront(rows, rows[i])
  {
    var ps := Points(rows);
    forall i | 0 <= i < |ps| && ps[i].number == n && !Dominated(ps, ps[i])
      ensures exists k :: 0 <= k < |rows| && rows[k].number == n && RowOnFront(rows, rows[k])
    {
      PointsAreRows(rows, ps[i]);
      var k :| && 0 <= k < |rows| && rows[k].complete
               && rows[k] == Trial(ps[i].number, true, Some(ps[i].sharpe), Some(ps[i].calmar));
      UndominatedRow(rows, k, ps[i]);
    }
    forall i | 0 <= i < |rows| && rows[i].number == n && RowOnFront(rows, rows[i])
      ensures exists k :: 0 <= k < |ps| && ps[k].number == n && !Dominated(ps, ps[k])
    {
      var p := Scored(n, rows[i].sharpe.value, rows[i].calmar.value);
      assert rows[i] == Trial(p.number, true, Some(p.sharpe), Some(p.calmar));
      PointsAreRows(rows, p);
      UndominatedRow(rows, i, p);
    }
  }

  /** A row and its point are dominated together. */
  lemma UndominatedRow(rows: seq<Trial>, i: nat, p: Scored)
    requires i < |rows| && rows[i] == Trial(p.number, true, Some(p.sharpe), Some(p.calmar))
    ensures Dominated(Points(rows), p) <==> !RowOnFront(rows, rows[i])
  {
    var ps := Points(rows);
    hide Points;
    if Dominated(ps, p) {
      var j :| 0 <= j < |ps| && Dominates(ps[j], p);
      PointsAreRows(rows, ps[j]);
      var k :| && 0 <= k < |rows| && rows[k].complete
               && rows[k] == Trial(ps[j].number, true, Some(ps[j].sharpe), Some(ps[j].calmar));
      assert RowDominates(rows[k], rows[i]);
    } else if !RowOnFront(rows, rows[i]) {
      var k :| 0 <= k < |rows| && RowDominates(rows[k], rows[i]);
      var q := Scored(rows[k].number, rows[k].sharpe.value, rows[k].calmar.value);
      assert rows[k] == Trial(q.number, true, Some(q.sharpe), Some(q.calmar));
      PointsAreRows(rows, q);
    }
  }

  /** paretoFront: the numbers of the complete, fully scored trials that no other one dominates. */
  method ParetoFront(rows: seq<Trial>) returns (front: set<int>)
    ensures forall n :: n in front <==> exists i :: 0 <= i < |rows| && rows[i].number == n && RowOnFront(rows, rows[i])
    ensures forall n :: n in front <==>
              exists i :: 0 <= i < |Points(rows)| && Points(rows)[i].number == n && !Dominated(Points(rows), Points(rows)[i])
  {
    var ps := CollectPoints(rows);
    front := {};
    for i := 0 to |ps|
      invariant forall n :: n in front <==> exists k :: 0 <= k < i && ps[k].number == n && !Dominated(ps, ps[k])
    {
      var dominated := IsDominated(ps, i);
      if !dominated {
        front := front + {ps[i].number};
      }
    }
    forall n ensures n in front <==> exists i :: 0 <= i < |rows| && rows[i].number == n && RowOnFront(rows, rows[i]) {
      FrontOfRows(rows, n);
    }
  }

  /** Membership in the front of a list with distinct numbers. */
  predicate OnFront(ps: seq<Scored>, p: Scored) {
    p in ps && !Dominated(ps, p)
  }

  /** With distinct numbers the front decides each trial by its own dominance. */
  lemma FrontByNumber(ps: seq<Scored>, front: set<int>, p: Scored)
    requires DistinctNumbers(ps) && p in ps
    requires forall n :: n in front <==> exists i :: 0 <= i < |ps| && ps[i].number == n && !Dominated(ps, ps[i])
    ensures p.number in front <==> OnFront(ps, p)
  {
  }

  lemma DominanceIsStrictOrder(a: Scored, b: Scored, c: Scored)
    ensures !Dominates(a, a)
    ensures Dominates(a, b) && Dominates(b, c) ==> Dominates(a, c)
  {
  }

  /** No front member dominates another. */
  lemma FrontIsAntichain(ps: seq<Scored>, p: Scored, q: Scored)
    requires OnFront(ps, p) && OnFront(ps, q)
    ensures !Dominates(p, q)
  {
  }

  function Dominators(ps: seq<Scored>, p: Scored): set<Scored> {
    set q | q in ps && Dominates(q, p)
  }

  /** Every trial off the front is dominated by one on it, so the front is empty only when
      no complete trial has both scores. */
  lemma {:induction false} FrontCovers(ps: seq<Scored>, p: Scored) returns (q: Scored)
    requires p in ps
    ensures OnFront(ps, q) && (q == p || Dominates(q, p))
    decreases |Dominators(ps, p)|
  {
    if !Dominated(ps, p) {
      q := p;
    } else {
      var j :| 0 <= j < |ps| && Dominates(ps[j], p);
      var d := ps[j];
      forall x | x in Dominators(ps, d) ensures x in Dominators(ps, p) {
        DominanceIsStrictOrder(x, d, p);
      }
      DominanceIsStrictOrder(d, d, d);
      assert d in Dominators(ps, p) && d !in Dominators(ps, d);
      SubsetSmaller(Dominators(ps, d), Dominators(ps, p));
      q := FrontCovers(ps, d);
      DominanceIsStrictOrder(q, d, p);
    }
  }

  lemma SubsetSmaller(a: set<Scored>, b: set<Scored>)
    requires a < b
    ensures |a| < |b|
  {
    assert b == a + (b - a);
  }

  /** Said of the rows: every complete, fully scored row is on the front or dominated by a row that
      is, so the front is non-empty whenever such a row exists. */
  lemma RowFrontCovers(rows: seq<Trial>, i: nat) returns (k: nat)
    requires i < |rows| && rows[i].complete && rows[i].sharpe.Some? && rows[i].calmar.Some?
    ensures k < |rows| && RowOnFront(rows, rows[k]) && (rows[k] == rows[i] || RowDominates(rows[k], rows[i]))
  {
    hide Points;
    var p := Scored(rows[i].number, rows[i].sharpe.value, rows[i].calmar.value);
    assert rows[i] == Trial(p.number, true, Some(p.sharpe), Some(p.calmar));
    PointsAreRows(rows, p);
    var q := FrontCovers(Points(rows), p);
    PointsAreRows(rows, q);
    var j :| 0 <= j < |rows| && rows[j] == Trial(q.number, true, Some(q.sharpe), Some(q.calmar));
    k := j;
    UndominatedRow(rows, k, q);
  }
}
