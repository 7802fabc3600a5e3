/** The ensemble's use of a measured correlation matrix: the matrix is in ascending id order, the
    profiles it is applied to are in registry order. */
module Ensemble {
  import opened RealMath
  import opened Grouping
  import opened Correlations
  import opened Ordering

  /** Aligned return series for exactly these ids. */
  ghost predicate SeriesFor(ids: seq<string>, series: map<string, seq<real>>, length: nat) {
    Aligned(series, length) && forall id :: id in ids <==> id in series
  }

  /** Whatever was measured, the matrix is also the correlations of the profiles as listed. */
  ghost predicate AlwaysLinesUp(registry: seq<string>, sorted: seq<string>)
    requires forall id :: id in registry <==> id in sorted
  {
    forall series: map<string, seq<real>>, length: nat, m: Matrix ::
      SeriesFor(sorted, series, length) && Measures(series, length, sorted, m) ==> Measures(series, length, registry, m)
  }

  /** The matrix lines up with the registry for every return data exactly when there are only two
      strategies or the registry lists them in ascending order already. */
  lemma LinesUpExactly(registry: seq<string>, sorted: seq<string>)
    requires Distinct(registry) && |registry| >= 2 && |sorted| == |registry|
    requires Ascending(sorted, LexLe) && forall id :: id in registry <==> id in sorted
    ensures AlwaysLinesUp(registry, sorted) <==> |registry| == 2 || registry == sorted
  {
    hide Measures;
    if |registry| == 2 {
      forall series: map<string, seq<real>>, length: nat, m: Matrix
        | SeriesFor(sorted, series, length) && Measures(series, length, sorted, m)
        ensures Measures(series, length, registry, m)
      {
        TwoLineUp(registry, sorted, series, length, m);
      }
    } else if registry != sorted {
      var a :| 0 <= a < |registry| && registry[a] != sorted[a];
      var b := OtherPosition(registry, sorted, a);
      Witness(registry, sorted, a, b);
    }
  }

  lemma TwoLineUp(registry: seq<string>, sorted: seq<string>, series: map<string, seq<real>>, length: nat, m: Matrix)
    requires Distinct(registry) && |registry| == |sorted| == 2 && (forall id :: id in registry <==> id in sorted)
    requires SeriesFor(sorted, series, length) && Measures(series, length, sorted, m)
    ensures Measures(series, length, registry, m)
  {
    hide IsCorrelation;
    assert registry[0] in sorted && registry[1] in sorted && sorted[0] in registry && sorted[1] in registry;
    CorrelationSymmetric(series[sorted[0]], series[sorted[1]], m[0][1]);
    assert registry == sorted || (registry[0] == sorted[1] && registry[1] == sorted[0]);
  }

  /** A second position at which the two orders name different pairs. */
  lemma OtherPosition(registry: seq<string>, sorted: seq<string>, a: nat) returns (b: nat)
    requires Distinct(registry) && |registry| == |sorted| >= 3 && a < |registry| && registry[a] != sorted[a]
    ensures b < |registry| && b != a && !(registry[b] == sorted[a] && registry[a] == sorted[b])
  {
    var x := if a == 0 then 1 else 0;
    var y := if a <= 1 then 2 else 1;
    b := if registry[x] == sorted[a] then y else x;
    assert registry[x] != registry[y] by {
      assert x < y ==> registry[x] != registry[y];
    }
  }

  const RISING: seq<real> := [0.0, 1.0]
  const FLAT: seq<real> := [0.0, 0.0]

  /** Two strategies move together and all others not at all. */
  function Data(ids: seq<string>, p: string, q: string): (series: map<string, seq<real>>)
    ensures forall id :: id in ids <==> id in series
    ensures forall id :: id in series ==> series[id] == if id == p || id == q then RISING else FLAT
  {
    map id | id in ids :: if id == p || id == q then RISING else FLAT
  }

  function Together(n: nat, a: nat, b: nat): (m: Matrix)
    ensures |m| == n && forall i :: 0 <= i < n ==> |m[i]| == n
    ensures forall i, j :: 0 <= i < n && 0 <= j < n ==>
              m[i][j] == if i == j || (i == a && j == b) || (i == b && j == a) then 1.0 else 0.0
  {
    seq(n, i => seq(n, j => if i == j || (i == a && j == b) || (i == b && j == a) then 1.0 else 0.0))
  }

  lemma RisingCorrelation(r: real)
    ensures IsCorrelation(RISING, RISING, 1.0)
    ensures IsCorrelation(RISING, FLAT, r) <==> r == 0.0
    ensures IsCorrelation(FLAT, RISING, r) <==> r == 0.0
    ensures IsCorrelation(FLAT, FLAT, r) <==> r == 0.0
  {
    assert RISING[1] != RISING[0];
    assert !IsConstant(RISING) && IsConstant(FLAT);
  }

  lemma Witness(registry: seq<string>, sorted: seq<string>, a: nat, b: nat)
    requires Distinct(registry) && |sorted| == |registry| && Ascending(sorted, LexLe)
    requires forall id :: id in registry <==> id in sorted
    requires a < |registry| && b < |registry| && a != b && registry[a] != sorted[a]
    requires !(registry[b] == sorted[a] && registry[a] == sorted[b])
    ensures !AlwaysLinesUp(registry, sorted)
  {
    hide IsCorrelation, LexLe, Measures;
    var series := Data(sorted, sorted[a], sorted[b]);
    var m := Together(|sorted|, a, b);
    assert SeriesFor(sorted, series, 2);
    WitnessMeasured(sorted, a, b, series, m);
    WitnessMismatch(registry, sorted, a, b, series, m);
  }

  lemma WitnessMeasured(sorted: seq<string>, a: nat, b: nat, series: map<string, seq<real>>, m: Matrix)
    requires Ascending(sorted, LexLe) && a < |sorted| && b < |sorted| && a != b
    requires series == Data(sorted, sorted[a], sorted[b]) && m == Together(|sorted|, a, b)
    ensures Measures(series, 2, sorted, m)
  {
    hide IsCorrelation, LexLe, IsCorrelationMatrix, Together, Data;
    assert forall i :: 0 <= i < |sorted| ==> sorted[i] in sorted;
    TogetherIsMatrix(|sorted|, a, b);
    forall i, j | 0 <= i < |m| && 0 <= j < |m| && i != j
      ensures IsCorrelation(series[sorted[i]], series[sorted[j]], m[i][j])
    {
      WitnessEntry(sorted, a, b, i, j);
    }
  }

  lemma TogetherIsMatrix(n: nat, a: nat, b: nat)
    ensures IsCorrelationMatrix(Together(n, a, b))
  {
    hide Together;
  }

  lemma WitnessEntry(sorted: seq<string>, a: nat, b: nat, i: nat, j: nat)
    requires Ascending(sorted, LexLe) && a < |sorted| && b < |sorted| && a != b
    requires i < |sorted| && j < |sorted| && i != j && sorted[i] in sorted && sorted[j] in sorted
    ensures IsCorrelation(Data(sorted, sorted[a], sorted[b])[sorted[i]], Data(sorted, sorted[a], sorted[b])[sorted[j]],
                          Together(|sorted|, a, b)[i][j])
  {
    hide IsCorrelation, LexLe, Together;
    RisingCorrelation(Together(|sorted|, a, b)[i][j]);
    assert forall x, y :: 0 <= x < |sorted| && 0 <= y < |sorted| && x != y ==> sorted[x] != sorted[y];
  }

  lemma WitnessMismatch(registry: seq<string>, sorted: seq<string>, a: nat, b: nat,
                        series: map<string, seq<real>>, m: Matrix)
    requires Distinct(registry) && |sorted| == |registry| && forall id :: id in registry <==> id in sorted
    requires a < |registry| && b < |registry| && a != b && registry[a] != sorted[a]
    requires !(registry[b] == sorted[a] && registry[a] == sorted[b])
    requires series == Data(sorted, sorted[a], sorted[b]) && m == Together(|sorted|, a, b)
    ensures !Measures(series, 2, registry, m)
  {
    hide IsCorrelation;
    RisingCorrelation(m[a][b]);
    assert registry[a] != registry[b] by {
      assert a < b ==> registry[a] != registry[b];
    }
    assert registry[a] in sorted && registry[b] in sorted;
    assert !IsCorrelation(series[registry[a]], series[registry[b]], m[a][b]);
  }
}
