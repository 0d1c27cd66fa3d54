/**
 * The prestencil weights of one target: the row of _prestencil_weights that
 * turns raw neighbour data into the samples the reconstruction expects.
 *
 * For the manifold vector samplings the row is a flattened tensor of pairs:
 * the entry for block k, ambient component j, neighbour m and endpoint b
 * (0 or 1) sits at k*d*2*no + j*2*no + 2*m + b, where d is the ambient
 * dimension and no the neighbour-list width (max_num_neighbors). For the
 * gradient edge-integral sampling the row is one (-c, +c) pair per neighbour.
 */
module Prestencil {
  import opened GmlsTypes

  // ---------------------------------------------------------------------
  // The flattened index
  // ---------------------------------------------------------------------

  /** The flat index of block k, component j, neighbour m, endpoint b. */
  function Slot(d: nat, no: nat, k: nat, j: nat, m: nat, b: nat): (s: nat)
    ensures k < d && j < d && m < no && b < 2 ==> s < d * d * 2 * no
  {
    OffsetBound(d, no, k, j, m, b);
    k * d * 2 * no + j * 2 * no + 2 * m + b
  }

  /** The four coordinates of a flat index s, read back by division and remainder. */
  function SlotEndpoint(s: nat): nat
  {
    s % 2
  }

  function SlotNeighbor(no: nat, s: nat): nat
    requires no > 0
  {
    (s / 2) % no
  }

  function SlotComponent(d: nat, no: nat, s: nat): nat
    requires d > 0 && no > 0
  {
    (s / 2 / no) % d
  }

  function SlotBlock(d: nat, no: nat, s: nat): nat
    requires d > 0 && no > 0
  {
    s / 2 / no / d
  }

  /** Division with remainder is unique. */
  lemma DivMod(x: nat, q: nat, r: nat, n: nat)
    requires n > 0 && r < n && x == q * n + r
    ensures x / n == q && x % n == r
  {
    var q', r' := x / n, x % n;
    assert x == q' * n + r';
    if q' < q {
      MultiplyLeft(q' + 1, q, n);
      assert false;
    } else if q < q' {
      MultiplyLeft(q + 1, q', n);
      assert false;
    }
  }

  lemma MultiplyLeft(a: nat, b: nat, n: nat)
    requires a <= b
    ensures a * n <= b * n
  {
  }

  lemma ProductNat(a: nat, b: nat)
    ensures a * b >= 0
  {
  }

  /** A quotient stays below a bound when the dividend stays below bound * n. */
  lemma QuotientBelow(x: nat, n: nat, bound: nat)
    requires n > 0 && x < bound * n
    ensures x / n < bound
  {
    if x / n >= bound {
      MultiplyLeft(bound, x / n, n);
      assert false;
    }
  }

  /** The index as nested remainders: ((k * d + j) * no + m) * 2 + b. */
  lemma SlotNested(d: nat, no: nat, k: nat, j: nat, m: nat, b: nat)
    ensures Slot(d, no, k, j, m, b) == ((k * d + j) * no + m) * 2 + b
  {
    assert (k * d + j) * no == k * d * no + j * no;
    assert k * d * 2 * no == (k * d * no) * 2;
    assert j * 2 * no == (j * no) * 2;
  }

  /** The coordinates read back from Slot(d, no, k, j, m, b) are k, j, m and b, and the index lies below d * d * 2 * no. */
  lemma SlotParts(d: nat, no: nat, k: nat, j: nat, m: nat, b: nat)
    requires k < d && j < d && m < no && b < 2
    ensures Slot(d, no, k, j, m, b) < d * d * 2 * no
    ensures SlotEndpoint(Slot(d, no, k, j, m, b)) == b
    ensures SlotNeighbor(no, Slot(d, no, k, j, m, b)) == m
    ensures SlotComponent(d, no, Slot(d, no, k, j, m, b)) == j
    ensures SlotBlock(d, no, Slot(d, no, k, j, m, b)) == k
  {
    var s := Slot(d, no, k, j, m, b);
    var half := (k * d + j) * no + m;
    SlotNested(d, no, k, j, m, b);
    DivMod(s, half, b, 2);
    DivMod(half, k * d + j, m, no);
    DivMod(k * d + j, k, j, d);
  }

  /** Inside the ranges, k * d + j <= d * d - 1 and each unit of it spans 2 * no entries. */
  lemma OffsetBound(d: nat, no: nat, k: nat, j: nat, m: nat, b: nat)
    ensures k < d && j < d && m < no && b < 2 ==> k * d * 2 * no + j * 2 * no + 2 * m + b < d * d * 2 * no
    ensures 0 <= k * d * 2 * no + j * 2 * no + 2 * m + b
  {
    StrideForm(d, no, k, j);
    ProductNat(k * d + j, 2 * no);
    if k < d && j < d && m < no && b < 2 {
      RowBound(d, k, j);
      StrideBound(k * d + j, d * d, 2 * no);
      assert d * d * 2 * no == (d * d) * (2 * no);
    }
  }

  lemma StrideForm(d: nat, no: nat, k: nat, j: nat)
    ensures k * d * 2 * no + j * 2 * no == (k * d + j) * (2 * no)
  {
  }

  lemma RowBound(d: nat, k: nat, j: nat)
    requires k < d && j < d
    ensures k * d + j + 1 <= d * d
  {
    MultiplyLeft(k + 1, d, d);
  }

  lemma StrideBound(row: nat, rows: nat, width: nat)
    requires row + 1 <= rows
    ensures row * width + width <= rows * width
  {
    MultiplyLeft(row + 1, rows, width);
  }

  /** Distinct coordinates give distinct indices. */
  lemma SlotInjective(d: nat, no: nat, k: nat, j: nat, m: nat, b: nat, k': nat, j': nat, m': nat, b': nat)
    requires k < d && j < d && m < no && b < 2 && k' < d && j' < d && m' < no && b' < 2
    requires Slot(d, no, k, j, m, b) == Slot(d, no, k', j', m', b')
    ensures k == k' && j == j' && m == m' && b == b'
  {
    SlotParts(d, no, k, j, m, b);
    SlotParts(d, no, k', j', m', b');
  }

  /** SlotInjective for every pair of indices at once, to hang on the Slot terms of a proof. */
  lemma AllSlotsDistinct(d: nat, no: nat)
    ensures forall k: nat, j: nat, m: nat, b: nat, k': nat, j': nat, m': nat, b': nat
      {:trigger Slot(d, no, k, j, m, b), Slot(d, no, k', j', m', b')} ::
      (k < d && j < d && m < no && b < 2 && k' < d && j' < d && m' < no && b' < 2
       && Slot(d, no, k, j, m, b) == Slot(d, no, k', j', m', b')) ==>
      k == k' && j == j' && m == m' && b == b'
  {
    forall k: nat, j: nat, m: nat, b: nat, k': nat, j': nat, m': nat, b': nat |
      (k < d && j < d && m < no && b < 2 && k' < d && j' < d && m' < no && b' < 2
       && Slot(d, no, k, j, m, b) == Slot(d, no, k', j', m', b'))
      ensures k == k' && j == j' && m == m' && b == b'
    {
      SlotInjective(d, no, k, j, m, b, k', j', m', b');
    }
  }

  /** Every index below d * d * 2 * no is the Slot of its own coordinates. */
  lemma SlotCoverage(d: nat, no: nat, s: nat)
    requires d > 0 && no > 0 && s < d * d * 2 * no
    ensures SlotBlock(d, no, s) < d && SlotComponent(d, no, s) < d && SlotNeighbor(no, s) < no
    ensures s == Slot(d, no, SlotBlock(d, no, s), SlotComponent(d, no, s), SlotNeighbor(no, s), SlotEndpoint(s))
  {
    CoordinatesInRange(d, no, s);
    CoordinatesRebuild(d, no, s);
  }

  lemma CoordinatesInRange(d: nat, no: nat, s: nat)
    requires d > 0 && no > 0 && s < d * d * 2 * no
    ensures SlotBlock(d, no, s) < d && SlotNeighbor(no, s) < no
  {
    ProductNat(d, d);
    ProductNat(d * d, no);
    assert d * d * 2 * no == (d * d * no) * 2;
    QuotientBelow(s, 2, d * d * no);
    QuotientBelow(s / 2, no, d * d);
    QuotientBelow(s / 2 / no, d, d);
  }

  lemma CoordinatesRebuild(d: nat, no: nat, s: nat)
    requires d > 0 && no > 0
    ensures s == Slot(d, no, SlotBlock(d, no, s), SlotComponent(d, no, s), SlotNeighbor(no, s), SlotEndpoint(s))
  {
    var half := s / 2;
    var row := half / no;
    var k, j, m, b := row / d, row % d, half % no, s % 2;
    assert s == half * 2 + b;
    assert half == row * no + m;
    assert row == k * d + j;
    SlotNested(d, no, k, j, m, b);
  }

  /** The largest index written is d^2 * 2 * no - 1, the last entry of the allocation for a rank-1 output. */
  lemma LargestSlot(d: nat, no: nat)
    requires d > 0 && no > 0
    ensures Slot(d, no, d - 1, d - 1, no - 1, 1) == d * d * 2 * no - 1
    ensures PrestencilWidth(d, 1, no) == d * d * 2 * no
  {
    var n := d - 1;
    SlotNested(d, no, n, n, no - 1, 1);
    assert n * d + n == d * d - 1 by {
      assert (n + 1) * d == n * d + d;
    }
    assert (d * d - 1) * no == d * d * no - no;
    assert d * d * 2 * no == (d * d * no) * 2;
    assert Pow(d, 2) == d * d by {
      assert Pow(d, 1) == d;
    }
  }

  function Pow(base: nat, e: nat): nat
  {
    if e == 0 then 1 else base * Pow(base, e - 1)
  }

  /** The width of a target's row as allocated: pow(d, rank + 1) * 2 * max_num_neighbors. */
  function PrestencilWidth(d: nat, outputRank: nat, no: nat): nat
  {
    Pow(d, outputRank + 1) * 2 * no
  }

  // ---------------------------------------------------------------------
  // Manifold vector prestencils
  // ---------------------------------------------------------------------

  /**
   * What the manifold-vector and manifold-gradient prestencils leave at
   * block k, component j, endpoint b: entry (j, k) of the change of basis
   * (T or V) at the first endpoint of the first d - 1 blocks, zero otherwise.
   */
  function ManifoldValue(d: nat, basis: (nat, nat) -> real, k: nat, j: nat, b: nat): real
  {
    if b == 0 && k + 1 < d then basis(j, k) else 0.0
  }

  /** s is the index of block k < blocks, component j, neighbour m. */
  ghost predicate InComponent(d: nat, no: nat, s: int, m: nat, j: nat, blocks: nat)
  {
    exists k: nat, b: nat :: k < blocks && b < 2 && s == Slot(d, no, k, j, m, b)
  }

  /** s is the index of some block, component j < components, neighbour m. */
  ghost predicate InNeighbor(d: nat, no: nat, s: int, m: nat, components: nat)
  {
    exists k: nat, j: nat, b: nat :: k < d && j < components && b < 2 && s == Slot(d, no, k, j, m, b)
  }

  /** s is the index of some block and component of a neighbour m < neighbors. */
  ghost predicate InNeighbors(d: nat, no: nat, s: int, neighbors: nat)
  {
    exists k: nat, j: nat, m: nat, b: nat :: k < d && j < d && m < neighbors && b < 2 && s == Slot(d, no, k, j, m, b)
  }

  /**
   * With every neighbour of the list (n == no) the indices written are
   * exactly the d * d * 2 * no entries of a rank-1 row.
   */
  lemma NeighborsCoverRow(d: nat, no: nat, s: nat)
    requires d > 0 && no > 0
    ensures InNeighbors(d, no, s, no) <==> s < d * d * 2 * no
  {
    if s < d * d * 2 * no {
      SlotCoverage(d, no, s);
      var k, j, m, b := SlotBlock(d, no, s), SlotComponent(d, no, s), SlotNeighbor(no, s), SlotEndpoint(s);
      assert k < d && j < d && m < no && b < 2 && s == Slot(d, no, k, j, m, b);
    }
  }

  /** Component j of neighbour m: every block k < d, both endpoints. */
  method WriteComponent(W: array2<real>, t: nat, d: nat, no: nat, m: nat, j: nat, basis: (nat, nat) -> real)
    requires 0 < d && m < no && j < d && t < W.Length0 && d * d * 2 * no <= W.Length1
    modifies W
    ensures forall k: nat, b: nat :: k < d && b < 2 ==>
      W[t, Slot(d, no, k, j, m, b)] == ManifoldValue(d, basis, k, j, b)
    ensures forall r, s ::
      (0 <= r < W.Length0 && 0 <= s < W.Length1 && !(r == t && InComponent(d, no, s, m, j, d))) ==>
      W[r, s] == old(W[r, s])
  {
    AllSlotsDistinct(d, no);
    var k := 0;
    while k < d - 1
      invariant k <= d - 1
      invariant forall k': nat, b: nat :: k' < k && b < 2 ==>
        W[t, Slot(d, no, k', j, m, b)] == ManifoldValue(d, basis, k', j, b)
      invariant forall r, s ::
        (0 <= r < W.Length0 && 0 <= s < W.Length1 && !(r == t && InComponent(d, no, s, m, j, k))) ==>
        W[r, s] == old(W[r, s])
    {
      W[t, Slot(d, no, k, j, m, 0)] := basis(j, k);
      W[t, Slot(d, no, k, j, m, 1)] := 0.0;
      k := k + 1;
    }
    W[t, Slot(d, no, d - 1, j, m, 0)] := 0.0;
    W[t, Slot(d, no, d - 1, j, m, 1)] := 0.0;
  }

  /** Neighbour m: every component j < d. */
  method WriteNeighbor(W: array2<real>, t: nat, d: nat, no: nat, m: nat, basis: (nat, nat) -> real)
    requires 0 < d && m < no && t < W.Length0 && d * d * 2 * no <= W.Length1
    modifies W
    ensures forall k: nat, j: nat, b: nat :: k < d && j < d && b < 2 ==>
      W[t, Slot(d, no, k, j, m, b)] == ManifoldValue(d, basis, k, j, b)
    ensures forall r, s ::
      (0 <= r < W.Length0 && 0 <= s < W.Length1 && !(r == t && InNeighbor(d, no, s, m, d))) ==>
      W[r, s] == old(W[r, s])
  {
    AllSlotsDistinct(d, no);
    var j := 0;
    while j < d
      invariant j <= d
      invariant forall k: nat, j': nat, b: nat :: k < d && j' < j && b < 2 ==>
        W[t, Slot(d, no, k, j', m, b)] == ManifoldValue(d, basis, k, j', b)
      invariant forall r, s ::
        (0 <= r < W.Length0 && 0 <= s < W.Length1 && !(r == t && InNeighbor(d, no, s, m, j))) ==>
        W[r, s] == old(W[r, s])
    {
      WriteComponent(W, t, d, no, m, j, basis);
      j := j + 1;
    }
  }

  /**
   * The manifold-vector (basis T) and manifold-gradient (basis V)
   * prestencils: for every neighbour m < n, component j and block k < d,
   * the entry at the first endpoint is basis(j, k) for k < d - 1 and zero
   * for the last block, and the entry at the second endpoint is zero.
   * Nothing outside the indices of those neighbours changes.
   */
  method ManifoldPrestencil(W: array2<real>, t: nat, d: nat, no: nat, n: nat, basis: (nat, nat) -> real)
    requires 0 < d && n <= no && t < W.Length0 && d * d * 2 * no <= W.Length1
    modifies W
    ensures forall k: nat, j: nat, m: nat, b: nat :: k < d && j < d && m < n && b < 2 ==>
      W[t, Slot(d, no, k, j, m, b)] == ManifoldValue(d, basis, k, j, b)
    ensures forall r, s ::
      (0 <= r < W.Length0 && 0 <= s < W.Length1 && !(r == t && InNeighbors(d, no, s, n))) ==>
      W[r, s] == old(W[r, s])
  {
    AllSlotsDistinct(d, no);
    var m := 0;
    while m < n
      invariant m <= n
      invariant forall k: nat, j: nat, m': nat, b: nat :: k < d && j < d && m' < m && b < 2 ==>
        W[t, Slot(d, no, k, j, m', b)] == ManifoldValue(d, basis, k, j, b)
      invariant forall r, s ::
        (0 <= r < W.Length0 && 0 <= s < W.Length1 && !(r == t && InNeighbors(d, no, s, m))) ==>
        W[r, s] == old(W[r, s])
    {
      WriteNeighbor(W, t, d, no, m, basis);
      m := m + 1;
    }
  }

  // ---------------------------------------------------------------------
  // Gradient edge-integral prestencil
  // ---------------------------------------------------------------------

  /**
   * The coefficient of neighbour pair i: 1 without operator coefficients;
   * otherwise neighbour 0's coefficient for pair 0 and the mean of
   * neighbours 0 and i for the others.
   */
  function PairCoefficient(coefficients: seq<real>, neighbor: nat -> nat, i: nat): real
    requires |coefficients| > 0 ==> neighbor(0) < |coefficients| && neighbor(i) < |coefficients|
  {
    if |coefficients| == 0 then 1.0
    else if i == 0 then coefficients[neighbor(0)]
    else 0.5 * (coefficients[neighbor(0)] + coefficients[neighbor(i)])
  }

  /** A constant coefficient field c gives every pair the coefficient c, and no coefficients give 1. */
  lemma PairCoefficientConstant(coefficients: seq<real>, neighbor: nat -> nat, i: nat, c: real)
    requires |coefficients| > 0 ==> neighbor(0) < |coefficients| && neighbor(i) < |coefficients|
    requires forall x :: 0 <= x < |coefficients| ==> coefficients[x] == c
    ensures PairCoefficient(coefficients, neighbor, i) == if |coefficients| == 0 then 1.0 else c
  {
  }

  /** Each pair coefficient lies between the coefficients of the two neighbours it averages. */
  lemma PairCoefficientBetween(coefficients: seq<real>, neighbor: nat -> nat, i: nat)
    requires |coefficients| > 0 && neighbor(0) < |coefficients| && neighbor(i) < |coefficients|
    ensures var c0, ci := coefficients[neighbor(0)], coefficients[neighbor(i)];
      var p := PairCoefficient(coefficients, neighbor, i);
      (c0 <= p <= ci) || (ci <= p <= c0)
  {
  }

  predicate CoefficientsCover(coefficients: seq<real>, neighbor: nat -> nat, n: nat)
  {
    |coefficients| > 0 ==> neighbor(0) < |coefficients| && forall i :: 0 <= i < n ==> neighbor(i) < |coefficients|
  }

  /**
   * The gradient edge-integral prestencil: entries 2i and 2i + 1 are -c and
   * +c with c the pair coefficient of neighbour i, for every neighbour
   * i < n and always for pair 0; nothing else changes.
   */
  method StaggeredAnalyticPrestencil(W: array2<real>, t: nat, n: nat, coefficients: seq<real>, neighbor: nat -> nat)
    requires t < W.Length0 && 2 <= W.Length1 && 2 * n <= W.Length1
    requires CoefficientsCover(coefficients, neighbor, n)
    modifies W
    ensures forall i :: (0 <= i < n || i == 0) ==>
      W[t, 2 * i] == -PairCoefficient(coefficients, neighbor, i) && W[t, 2 * i + 1] == PairCoefficient(coefficients, neighbor, i)
    ensures forall r, s :: 0 <= r < W.Length0 && 0 <= s < W.Length1 && (r != t || (s >= 2 * n && s >= 2)) ==>
      W[r, s] == old(W[r, s])
  {
    var coefficient := 1.0;
    if |coefficients| > 0 {
      coefficient := coefficients[neighbor(0)];
    }
    W[t, 0] := -coefficient;
    W[t, 1] := coefficient;
    var i := 1;
    while i < n
      invariant 1 <= i && (i <= n || i == 1)
      invariant |coefficients| == 0 ==> coefficient == 1.0
      invariant forall i' :: 0 <= i' < i ==>
        W[t, 2 * i'] == -PairCoefficient(coefficients, neighbor, i') && W[t, 2 * i' + 1] == PairCoefficient(coefficients, neighbor, i')
      invariant forall r, s :: 0 <= r < W.Length0 && 0 <= s < W.Length1 && (r != t || s >= 2 * i) ==>
        W[r, s] == old(W[r, s])
    {
      if |coefficients| > 0 {
        coefficient := 0.5 * (coefficients[neighbor(0)] + coefficients[neighbor(i)]);
      }
      W[t, 2 * i] := -coefficient;
      W[t, 2 * i + 1] := coefficient;
      i := i + 1;
    }
  }

  // ---------------------------------------------------------------------
  // The dispatch on the data sampling functional
  // ---------------------------------------------------------------------

  /**
   * The prestencil of one target by its data sampling functional; point
   * samples have no prestencil and leave the row as it is. Only the target's
   * own row changes, so the prestencils of several targets can share W.
   * T is the tangent basis, V the change of basis of the target.
   */
  method ComputePrestencilWeights(W: array2<real>, t: nat, sampling: SamplingFunctional, d: nat, no: nat, n: nat,
                                  T: (nat, nat) -> real, V: (nat, nat) -> real,
                                  coefficients: seq<real>, neighbor: nat -> nat)
    requires t < W.Length0 && 0 < d && n <= no
    requires sampling == StaggeredEdgeAnalyticGradientIntegralSample ==>
      2 <= W.Length1 && 2 * n <= W.Length1 && CoefficientsCover(coefficients, neighbor, n)
    requires sampling == ManifoldVectorSample || sampling == ManifoldGradientVectorSample ==> d * d * 2 * no <= W.Length1
    requires sampling != StaggeredEdgeIntegralSample
    modifies W
    ensures sampling == ManifoldVectorSample ==>
      forall k, j, m, b :: 0 <= k < d && 0 <= j < d && 0 <= m < n && 0 <= b < 2 ==>
        W[t, Slot(d, no, k, j, m, b)] == ManifoldValue(d, T, k, j, b)
    ensures sampling == ManifoldGradientVectorSample ==>
      forall k, j, m, b :: 0 <= k < d && 0 <= j < d && 0 <= m < n && 0 <= b < 2 ==>
        W[t, Slot(d, no, k, j, m, b)] == ManifoldValue(d, V, k, j, b)
    ensures sampling == StaggeredEdgeAnalyticGradientIntegralSample ==>
      forall i :: (0 <= i < n || i == 0) ==>
        W[t, 2 * i] == -PairCoefficient(coefficients, neighbor, i)
        && W[t, 2 * i + 1] == PairCoefficient(coefficients, neighbor, i)
    ensures sampling == ManifoldVectorSample || sampling == ManifoldGradientVectorSample ==>
      forall r, s :: 0 <= r < W.Length0 && 0 <= s < W.Length1 && !(r == t && InNeighbors(d, no, s, n)) ==>
        W[r, s] == old(W[r, s])
    ensures sampling == StaggeredEdgeAnalyticGradientIntegralSample ==>
      forall r, s :: 0 <= r < W.Length0 && 0 <= s < W.Length1 && (r != t || (s >= 2 * n && s >= 2)) ==>
        W[r, s] == old(W[r, s])
    ensures sampling !in {ManifoldVectorSample, ManifoldGradientVectorSample, StaggeredEdgeAnalyticGradientIntegralSample} ==>
      forall r, s :: 0 <= r < W.Length0 && 0 <= s < W.Length1 ==> W[r, s] == old(W[r, s])
  {
    if sampling == StaggeredEdgeAnalyticGradientIntegralSample {
      StaggeredAnalyticPrestencil(W, t, n, coefficients, neighbor);
    } else if sampling == ManifoldVectorSample {
      ManifoldPrestencil(W, t, d, no, n, T);
    } else if sampling == ManifoldGradientVectorSample {
      ManifoldPrestencil(W, t, d, no, n, V);
    }
  }
}
