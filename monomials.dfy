/**
 * The order in which the Taylor polynomial basis enumerates its monomials.
 *
 * The target functionals write entries of a basis row at hard-coded column
 * indices; those columns only mean "x^2", "y", "z", ... under one particular
 * enumeration. The loops of the face-average and surface-curl functionals
 * spell that order out: total degree n ascending, then alphaz ascending,
 * then alphay ascending, with alphax = n - alphaz - alphay (in two
 * dimensions: n ascending, then alphay ascending, alphax = n - alphay).
 * This module defines that order, its inverse (the column of a monomial),
 * the counts, and the three loops that walk it with a running column k.
 */
module MonomialBasis {

  /** Exponents of the monomial x^x * y^y * z^z. */
  datatype Exponent = Exponent(x: nat, y: nat, z: nat)

  function Degree(e: Exponent): nat
  {
    e.x + e.y + e.z
  }

  /** The monomial uses only the first `dims` coordinates (dims below 2 means x only). */
  predicate InDimension(dims: nat, e: Exponent)
  {
    (dims < 3 ==> e.z == 0) && (dims < 2 ==> e.y == 0)
  }

  // ---------------------------------------------------------------------
  // Three dimensions
  // ---------------------------------------------------------------------

  /** Within total degree n, the position where the monomials with alphaz == az begin. */
  function BlockStart(n: nat, az: nat): nat
    requires az <= n + 1
  {
    if az == 0 then 0 else BlockStart(n, az - 1) + (n - (az - 1) + 1)
  }

  /** Number of monomials in three variables of total degree below n. */
  function Below3(n: nat): nat
  {
    if n == 0 then 0 else Below3(n - 1) + BlockStart(n - 1, n)
  }

  /** Degree n, fixed alphaz: alphay ascending, alphax = n - alphaz - alphay. */
  function Block3(n: nat, az: nat): seq<Exponent>
    requires az <= n
  {
    seq(n - az + 1, ay requires 0 <= ay < n - az + 1 => Exponent(n - az - ay, ay, az))
  }

  /** Degree n, the blocks for alphaz = az, az + 1, ..., n in order. */
  function DegreeFrom3(n: nat, az: nat): seq<Exponent>
    requires az <= n + 1
    decreases n + 1 - az
  {
    if az == n + 1 then [] else Block3(n, az) + DegreeFrom3(n, az + 1)
  }

  /** All monomials of degree at most p in three variables, in loop order. */
  function Monomials3(p: nat): seq<Exponent>
  {
    (if p == 0 then [] else Monomials3(p - 1)) + DegreeFrom3(p, 0)
  }

  /** The column of e in that order. */
  function Index3(e: Exponent): nat
  {
    Below3(Degree(e)) + BlockStart(Degree(e), e.z) + e.y
  }

  lemma {:induction false} BlockStartMonotone(n: nat, a: nat, b: nat)
    requires a <= b <= n + 1
    ensures BlockStart(n, a) <= BlockStart(n, b)
    decreases b - a
  {
    if a < b {
      BlockStartMonotone(n, a, b - 1);
    }
  }

  lemma {:induction false} DegreeFrom3Length(n: nat, az: nat)
    requires az <= n + 1
    ensures BlockStart(n, az) <= BlockStart(n, n + 1)
    ensures |DegreeFrom3(n, az)| == BlockStart(n, n + 1) - BlockStart(n, az)
    decreases n + 1 - az
  {
    if az <= n {
      DegreeFrom3Length(n, az + 1);
    }
  }

  lemma {:induction false} Monomials3Length(p: nat)
    ensures |Monomials3(p)| == Below3(p + 1)
  {
    DegreeFrom3Length(p, 0);
    if p > 0 {
      Monomials3Length(p - 1);
    }
  }

  lemma {:induction false} DegreeFrom3At(n: nat, az0: nat, e: Exponent)
    requires Degree(e) == n && az0 <= e.z
    ensures BlockStart(n, az0) <= BlockStart(n, e.z)
    ensures BlockStart(n, e.z) - BlockStart(n, az0) + e.y < |DegreeFrom3(n, az0)|
    ensures DegreeFrom3(n, az0)[BlockStart(n, e.z) - BlockStart(n, az0) + e.y] == e
    decreases e.z - az0
  {
    DegreeFrom3Length(n, az0);
    if az0 == e.z {
      assert Block3(n, az0)[e.y] == e;
    } else {
      DegreeFrom3At(n, az0 + 1, e);
    }
  }

  lemma {:induction false} DegreeFrom3Inverse(n: nat, az0: nat, k: nat)
    requires az0 <= n + 1 && k < |DegreeFrom3(n, az0)|
    ensures Degree(DegreeFrom3(n, az0)[k]) == n
    ensures az0 <= DegreeFrom3(n, az0)[k].z <= n
    ensures BlockStart(n, az0) <= BlockStart(n, DegreeFrom3(n, az0)[k].z)
    ensures BlockStart(n, DegreeFrom3(n, az0)[k].z) - BlockStart(n, az0) + DegreeFrom3(n, az0)[k].y == k
    decreases n + 1 - az0
  {
    var b := Block3(n, az0);
    if k < |b| {
      assert DegreeFrom3(n, az0)[k] == b[k];
    } else {
      DegreeFrom3Inverse(n, az0 + 1, k - |b|);
      assert DegreeFrom3(n, az0)[k] == DegreeFrom3(n, az0 + 1)[k - |b|];
      BlockStartMonotone(n, az0 + 1, DegreeFrom3(n, az0)[k].z);
    }
  }

  lemma Monomials3Prefix(p: nat, k: nat)
    requires p > 0 && k < |Monomials3(p - 1)|
    ensures k < |Monomials3(p)| && Monomials3(p)[k] == Monomials3(p - 1)[k]
  {
    assert Monomials3(p) == Monomials3(p - 1) + DegreeFrom3(p, 0);
  }

  lemma Monomials3Top(p: nat, j: nat)
    requires j < |DegreeFrom3(p, 0)|
    ensures Below3(p) + j < |Monomials3(p)| && Monomials3(p)[Below3(p) + j] == DegreeFrom3(p, 0)[j]
  {
    var rest := DegreeFrom3(p, 0);
    if p == 0 {
      assert Monomials3(0) == [] + rest;
    } else {
      var prefix := Monomials3(p - 1);
      Monomials3Length(p - 1);
      assert |prefix| == Below3(p);
      assert Monomials3(p) == prefix + rest;
      assert (prefix + rest)[|prefix| + j] == rest[j];
    }
  }

  /** Every monomial of degree at most p sits at column Index3 of the enumeration. */
  lemma {:induction false} Monomials3At(p: nat, e: Exponent)
    requires Degree(e) <= p
    ensures Index3(e) < |Monomials3(p)| && Monomials3(p)[Index3(e)] == e
  {
    if Degree(e) == p {
      DegreeFrom3At(p, 0, e);
      Monomials3Top(p, BlockStart(p, e.z) + e.y);
    } else {
      Monomials3At(p - 1, e);
      Monomials3Prefix(p, Index3(e));
    }
  }

  /** Column k of the enumeration holds a monomial of degree at most p whose Index3 is k. */
  lemma {:induction false} Monomials3Inverse(p: nat, k: nat)
    requires k < |Monomials3(p)|
    ensures Degree(Monomials3(p)[k]) <= p && Index3(Monomials3(p)[k]) == k
  {
    var prefix := if p == 0 then [] else Monomials3(p - 1);
    var rest := DegreeFrom3(p, 0);
    assert Monomials3(p) == prefix + rest;
    if p > 0 {
      Monomials3Length(p - 1);
    }
    assert |prefix| == Below3(p);
    if k < |prefix| {
      Monomials3Inverse(p - 1, k);
      assert Monomials3(p)[k] == prefix[k];
    } else {
      DegreeFrom3Inverse(p, 0, k - |prefix|);
      var e := rest[k - |prefix|];
      assert Monomials3(p)[k] == e;
      assert Index3(e) == Below3(p) + BlockStart(p, e.z) + e.y;
    }
  }

  lemma {:induction false} BlockStartClosed(n: nat, a: nat)
    requires a <= n + 1
    ensures 2 * BlockStart(n, a) == a * (2 * n + 3 - a)
  {
    if a > 0 {
      BlockStartClosed(n, a - 1);
      assert 2 * BlockStart(n, a) == (a - 1) * (2 * n + 4 - a) + 2 * (n - a + 2);
    }
  }

  lemma {:induction false} Below3Closed(n: nat)
    ensures 6 * Below3(n) == n * (n + 1) * (n + 2)
  {
    if n > 0 {
      Below3Closed(n - 1);
      BlockStartClosed(n - 1, n);
      assert 2 * BlockStart(n - 1, n) == n * (n + 1);
      assert 6 * Below3(n) == (n - 1) * n * (n + 1) + 3 * (n * (n + 1));
    }
  }

  // ---------------------------------------------------------------------
  // Two dimensions and one dimension
  // ---------------------------------------------------------------------

  /** Number of monomials in two variables of total degree below n. */
  function Below2(n: nat): nat
  {
    if n == 0 then 0 else Below2(n - 1) + n
  }

  /** Degree n in two variables: alphay ascending, alphax = n - alphay. */
  function Degree2(n: nat): seq<Exponent>
  {
    seq(n + 1, ay requires 0 <= ay < n + 1 => Exponent(n - ay, ay, 0))
  }

  function Monomials2(p: nat): seq<Exponent>
  {
    (if p == 0 then [] else Monomials2(p - 1)) + Degree2(p)
  }

  function Index2(e: Exponent): nat
  {
    Below2(Degree(e)) + e.y
  }

  lemma {:induction false} Monomials2Length(p: nat)
    ensures |Monomials2(p)| == Below2(p + 1)
  {
    if p > 0 {
      Monomials2Length(p - 1);
    }
  }

  lemma Monomials2Prefix(p: nat, k: nat)
    requires p > 0 && k < |Monomials2(p - 1)|
    ensures k < |Monomials2(p)| && Monomials2(p)[k] == Monomials2(p - 1)[k]
  {
    assert Monomials2(p) == Monomials2(p - 1) + Degree2(p);
  }

  lemma Monomials2Top(p: nat, j: nat)
    requires j <= p
    ensures Below2(p) + j < |Monomials2(p)| && Monomials2(p)[Below2(p) + j] == Exponent(p - j, j, 0)
  {
    var rest := Degree2(p);
    if p == 0 {
      assert Monomials2(0) == [] + rest;
    } else {
      var prefix := Monomials2(p - 1);
      Monomials2Length(p - 1);
      assert |prefix| == Below2(p);
      assert Monomials2(p) == prefix + rest;
      assert (prefix + rest)[|prefix| + j] == rest[j];
    }
  }

  lemma {:induction false} Monomials2At(p: nat, e: Exponent)
    requires Degree(e) <= p && e.z == 0
    ensures Index2(e) < |Monomials2(p)| && Monomials2(p)[Index2(e)] == e
  {
    if Degree(e) == p {
      Monomials2Top(p, e.y);
    } else {
      Monomials2At(p - 1, e);
      Monomials2Prefix(p, Index2(e));
    }
  }

  lemma {:induction false} Monomials2Inverse(p: nat, k: nat)
    requires k < |Monomials2(p)|
    ensures Degree(Monomials2(p)[k]) <= p && Monomials2(p)[k].z == 0
    ensures Index2(Monomials2(p)[k]) == k
  {
    var prefix := if p == 0 then [] else Monomials2(p - 1);
    var rest := Degree2(p);
    assert Monomials2(p) == prefix + rest;
    if p > 0 {
      Monomials2Length(p - 1);
    }
    assert |prefix| == Below2(p);
    if k < |prefix| {
      Monomials2Inverse(p - 1, k);
      assert Monomials2(p)[k] == prefix[k];
    } else {
      var e := rest[k - |prefix|];
      assert Monomials2(p)[k] == e;
      assert Degree(e) == p && e.y == k - |prefix|;
    }
  }

  lemma {:induction false} Below2Closed(n: nat)
    ensures 2 * Below2(n) == n * (n + 1)
  {
    if n > 0 {
      Below2Closed(n - 1);
    }
  }

  function Monomials1(p: nat): seq<Exponent>
  {
    seq(p + 1, n requires 0 <= n < p + 1 => Exponent(n, 0, 0))
  }

  // ---------------------------------------------------------------------
  // Any dimension: three-dimensional order for dims >= 3, the two-dimensional
  // one for dims == 2, powers of x otherwise (the `default:` of the switches).
  // ---------------------------------------------------------------------

  function Monomials(dims: nat, p: nat): seq<Exponent>
  {
    if dims >= 3 then Monomials3(p) else if dims == 2 then Monomials2(p) else Monomials1(p)
  }

  function MonomialIndex(dims: nat, e: Exponent): nat
  {
    if dims >= 3 then Index3(e) else if dims == 2 then Index2(e) else e.x
  }

  /** Completeness: each monomial of degree <= p in dims variables is listed, at its MonomialIndex. */
  lemma MonomialAt(dims: nat, p: nat, e: Exponent)
    requires InDimension(dims, e) && Degree(e) <= p
    ensures MonomialIndex(dims, e) < |Monomials(dims, p)|
    ensures Monomials(dims, p)[MonomialIndex(dims, e)] == e
  {
    if dims >= 3 {
      Monomials3At(p, e);
    } else if dims == 2 {
      Monomials2At(p, e);
    }
  }

  /** Soundness: each column lists a monomial of degree <= p in dims variables whose MonomialIndex is that column. */
  lemma IndexOfMonomialAt(dims: nat, p: nat, k: nat)
    requires k < |Monomials(dims, p)|
    ensures InDimension(dims, Monomials(dims, p)[k]) && Degree(Monomials(dims, p)[k]) <= p
    ensures MonomialIndex(dims, Monomials(dims, p)[k]) == k
  {
    if dims >= 3 {
      Monomials3Inverse(p, k);
    } else if dims == 2 {
      Monomials2Inverse(p, k);
    }
  }

  /** Each exponent triple is visited exactly once: no column repeats a monomial. */
  lemma MonomialsDistinct(dims: nat, p: nat, i: nat, j: nat)
    requires i < |Monomials(dims, p)| && j < |Monomials(dims, p)| && i != j
    ensures Monomials(dims, p)[i] != Monomials(dims, p)[j]
  {
    IndexOfMonomialAt(dims, p, i);
    IndexOfMonomialAt(dims, p, j);
  }

  /** The number of columns: (p+1)(p+2)(p+3)/6 in 3-D, (p+1)(p+2)/2 in 2-D, p+1 in 1-D. */
  lemma MonomialCount(dims: nat, p: nat)
    ensures dims >= 3 ==> 6 * |Monomials(dims, p)| == (p + 1) * (p + 2) * (p + 3)
    ensures dims == 2 ==> 2 * |Monomials(dims, p)| == (p + 1) * (p + 2)
    ensures dims < 2 ==> |Monomials(dims, p)| == p + 1
  {
    if dims >= 3 {
      Monomials3Length(p);
      Below3Closed(p + 1);
    } else if dims == 2 {
      Monomials2Length(p);
      Below2Closed(p + 1);
    }
  }

  // ---------------------------------------------------------------------
  // The monomials the hard-coded columns are meant to pick
  // ---------------------------------------------------------------------

  /** x, y, z for d = 0, 1, 2. */
  function Unit(d: nat): Exponent
    requires d < 3
  {
    if d == 0 then Exponent(1, 0, 0) else if d == 1 then Exponent(0, 1, 0) else Exponent(0, 0, 1)
  }

  /** x^2, y^2, z^2. */
  predicate IsPureSecondOrder(e: Exponent)
  {
    e == Exponent(2, 0, 0) || e == Exponent(0, 2, 0) || e == Exponent(0, 0, 2)
  }

  // ---------------------------------------------------------------------
  // The enumeration loops, writing one row of a row-major basis matrix
  // ---------------------------------------------------------------------

  /**
   * M lists the monomials of degree at most p in three variables, each at
   * its Index3 column. The walks below are proved against any such M; the
   * enumeration Monomials3(p) is one (Monomials3Enumerates).
   */
  ghost predicate Enumerates3(M: seq<Exponent>, p: nat)
  {
    |M| == Below3(p + 1) && forall e :: Degree(e) <= p ==> Index3(e) < |M| && M[Index3(e)] == e
  }

  /** The same in two variables, with Index2. */
  ghost predicate Enumerates2(M: seq<Exponent>, p: nat)
  {
    |M| == Below2(p + 1) && forall e :: Degree(e) <= p && e.z == 0 ==> Index2(e) < |M| && M[Index2(e)] == e
  }

  lemma Monomials3Enumerates(p: nat)
    ensures Enumerates3(Monomials3(p), p)
  {
    Monomials3Length(p);
    forall e | Degree(e) <= p
      ensures Index3(e) < |Monomials3(p)| && Monomials3(p)[Index3(e)] == e
    {
      Monomials3At(p, e);
    }
  }

  lemma Monomials2Enumerates(p: nat)
    ensures Enumerates2(Monomials2(p), p)
  {
    Monomials2Length(p);
    forall e | Degree(e) <= p && e.z == 0
      ensures Index2(e) < |Monomials2(p)| && Monomials2(p)[Index2(e)] == e
    {
      Monomials2At(p, e);
    }
  }

  /** A quadrature term stored at the first quadrature point, added afterwards. */
  function Accumulated(reset: bool, before: real, t: real): real
  {
    if reset then t else before + t
  }

  /**
   * One quadrature point of the three-dimensional face average: for each
   * monomial, in loop order, column k of `row` is set (first quadrature
   * point) or incremented by the monomial's term; M is the enumeration
   * (Monomials3(p)).
   */
  method FaceAverageQuadraturePoint3(P: array2<real>, row: nat, ghost M: seq<Exponent>, p: nat, reset: bool, term: Exponent -> real)
    requires Enumerates3(M, p)
    requires row < P.Length0 && |M| <= P.Length1
    modifies P
    ensures forall c :: 0 <= c < |M| ==> P[row, c] == Accumulated(reset, old(P[row, c]), term(M[c]))
    ensures forall r, c :: 0 <= r < P.Length0 && |M| <= c < P.Length1 ==> P[r, c] == old(P[r, c])
    ensures forall r, c :: 0 <= r < P.Length0 && r != row && 0 <= c < P.Length1 ==> P[r, c] == old(P[r, c])
  {
    var k := 0;
    var n := 0;
    while n <= p
      invariant n <= p + 1
      invariant k == Below3(n) <= |M|
      invariant forall c :: 0 <= c < k ==> P[row, c] == Accumulated(reset, old(P[row, c]), term(M[c]))
      invariant forall r, c :: 0 <= r < P.Length0 && 0 <= c < P.Length1 && (r != row || c >= k) ==> P[r, c] == old(P[r, c])
    {
      var alphaz := 0;
      while alphaz <= n
        invariant alphaz <= n + 1
        invariant k == Below3(n) + BlockStart(n, alphaz) <= |M|
        invariant forall c :: 0 <= c < k ==> P[row, c] == Accumulated(reset, old(P[row, c]), term(M[c]))
        invariant forall r, c :: 0 <= r < P.Length0 && 0 <= c < P.Length1 && (r != row || c >= k) ==> P[r, c] == old(P[r, c])
      {
        FaceAverageBlock3(P, row, M, p, n, alphaz, k, reset, term);
        k := k + (n - alphaz + 1);
        alphaz := alphaz + 1;
      }
      n := n + 1;
    }
  }

  /** The innermost loop of FaceAverageQuadraturePoint3: degree n, fixed alphaz, alphay ascending from column k0. */
  method FaceAverageBlock3(P: array2<real>, row: nat, ghost M: seq<Exponent>, p: nat, n: nat, alphaz: nat, k0: nat,
                           reset: bool, term: Exponent -> real)
    requires Enumerates3(M, p) && alphaz <= n <= p && k0 == Below3(n) + BlockStart(n, alphaz)
    requires row < P.Length0 && |M| <= P.Length1
    modifies P
    ensures k0 + (n - alphaz + 1) <= |M|
    ensures forall c :: k0 <= c < k0 + (n - alphaz + 1) ==>
      c < |M| && P[row, c] == Accumulated(reset, old(P[row, c]), term(M[c]))
    ensures forall r, c :: (0 <= r < P.Length0 && 0 <= c < P.Length1
                            && (r != row || c < k0 || c >= k0 + (n - alphaz + 1))) ==> P[r, c] == old(P[r, c])
  {
    var k := k0;
    var s := n - alphaz;
    var alphay := 0;
    assert Index3(Exponent(0, s, alphaz)) == k0 + s;
    while alphay <= s
      invariant alphay <= s + 1
      invariant k == k0 + alphay
      invariant forall c :: k0 <= c < k ==> c < |M| && P[row, c] == Accumulated(reset, old(P[row, c]), term(M[c]))
      invariant forall r, c :: (0 <= r < P.Length0 && 0 <= c < P.Length1
                                && (r != row || c < k0 || c >= k)) ==> P[r, c] == old(P[r, c])
    {
      var alphax := s - alphay;
      var e := Exponent(alphax, alphay, alphaz);
      assert Index3(e) == k;
      var valToSum := term(e);
      if reset {
        P[row, k] := valToSum;
      } else {
        P[row, k] := P[row, k] + valToSum;
      }
      k := k + 1;
      alphay := alphay + 1;
    }
  }

  /**
   * One quadrature point of the face average on a two-dimensional manifold:
   * the same walk in two variables over the enumeration M (Monomials2(p)).
   */
  method FaceAverageQuadraturePoint2(P: array2<real>, row: nat, ghost M: seq<Exponent>, p: nat, reset: bool, term: Exponent -> real)
    requires Enumerates2(M, p)
    requires row < P.Length0 && |M| <= P.Length1
    modifies P
    ensures forall c :: 0 <= c < |M| ==> P[row, c] == Accumulated(reset, old(P[row, c]), term(M[c]))
    ensures forall r, c :: 0 <= r < P.Length0 && |M| <= c < P.Length1 ==> P[r, c] == old(P[r, c])
    ensures forall r, c :: 0 <= r < P.Length0 && r != row && 0 <= c < P.Length1 ==> P[r, c] == old(P[r, c])
  {
    var k := 0;
    var n := 0;
    while n <= p
      invariant n <= p + 1
      invariant k == Below2(n) <= |M|
      invariant forall c :: 0 <= c < k ==> c < |M| && P[row, c] == Accumulated(reset, old(P[row, c]), term(M[c]))
      invariant forall r, c :: 0 <= r < P.Length0 && 0 <= c < P.Length1 && (r != row || c >= k) ==> P[r, c] == old(P[r, c])
    {
      var alphay := 0;
      while alphay <= n
        invariant alphay <= n + 1
        invariant k == Below2(n) + alphay <= |M|
        invariant forall c :: 0 <= c < k ==> c < |M| && P[row, c] == Accumulated(reset, old(P[row, c]), term(M[c]))
        invariant forall r, c :: 0 <= r < P.Length0 && 0 <= c < P.Length1 && (r != row || c >= k) ==> P[r, c] == old(P[r, c])
      {
        var alphax := n - alphay;
        var e := Exponent(alphax, alphay, 0);
        assert Index2(e) == k;
        var valToSum := term(e);
        if reset {
          P[row, k] := valToSum;
        } else {
          P[row, k] := P[row, k] + valToSum;
        }
        k := k + 1;
        alphay := alphay + 1;
      }
      n := n + 1;
    }
  }

  /**
   * One output component of the surface curl on a two-dimensional manifold:
   * column `index` of `row` receives the value for the index-th monomial of M (Monomials2(p)).
   */
  method SurfaceCurlRow2(P: array2<real>, row: nat, ghost M: seq<Exponent>, p: nat, value: Exponent -> real)
    requires Enumerates2(M, p)
    requires row < P.Length0 && |M| <= P.Length1
    modifies P
    ensures forall c :: 0 <= c < |M| ==> P[row, c] == value(M[c])
    ensures forall r, c :: 0 <= r < P.Length0 && |M| <= c < P.Length1 ==> P[r, c] == old(P[r, c])
    ensures forall r, c :: 0 <= r < P.Length0 && r != row && 0 <= c < P.Length1 ==> P[r, c] == old(P[r, c])
  {
    var index := 0;
    var n := 0;
    while n <= p
      invariant n <= p + 1
      invariant index == Below2(n) <= |M|
      invariant forall c :: 0 <= c < index ==> c < |M| && P[row, c] == value(M[c])
      invariant forall r, c :: 0 <= r < P.Length0 && 0 <= c < P.Length1 && (r != row || c >= index) ==> P[r, c] == old(P[r, c])
    {
      var alphay := 0;
      while alphay <= n
        invariant alphay <= n + 1
        invariant index == Below2(n) + alphay <= |M|
        invariant forall c :: 0 <= c < index ==> c < |M| && P[row, c] == value(M[c])
        invariant forall r, c :: 0 <= r < P.Length0 && 0 <= c < P.Length1 && (r != row || c >= index) ==> P[r, c] == old(P[r, c])
      {
        var alphax := n - alphay;
        var e := Exponent(alphax, alphay, 0);
        assert Index2(e) == index;
        P[row, index] := value(e);
        index := index + 1;
        alphay := alphay + 1;
      }
      n := n + 1;
    }
  }
}
