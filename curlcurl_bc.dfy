/**
 * The boundary conditions of the curl-curl physics: particles on the faces
 * of the cube [-1, 1]^3 are flagged, and the right-hand side entries of the
 * flagged particles' degrees of freedom are overwritten with the analytic
 * solution.
 *
 * The analytic test functions, the DOF manager and the field manager live in
 * code that is not part of this model: the vector value of the analytic
 * solution, the DOF map of field_one and the field-id lookup are parameters.
 */
module CurlCurlBoundaryConditions {
  import opened Outcomes

  datatype Point = Point(x: real, y: real, z: real)

  /** The two analytic solutions the physics can be tested against. */
  datatype AnalyticSolution = CurlCurlSineTest | CurlCurlPolyTest

  /** The operations a field interaction can be requested for. */
  datatype Interaction = Bc | Source | Assembly

  datatype InteractingFields = InteractingFields(interaction: Interaction, fieldId: int)

  /** The tolerance of the face test. */
  const EpsilonBall: real := 0.000001

  function Abs(r: real): real
  {
    if r < 0.0 then -r else r
  }

  /** A coordinate within EpsilonBall of +1 or of -1. */
  predicate NearFace(c: real)
  {
    Abs(c - 1.0) < EpsilonBall || Abs(c + 1.0) < EpsilonBall
  }

  /** A particle is on the boundary when one of its coordinates is near a face. */
  predicate OnBoundary(p: Point)
  {
    NearFace(p.x) || NearFace(p.y) || NearFace(p.z)
  }

  /** The flag a particle receives: 1 on the boundary, 0 elsewhere. */
  function BoundaryFlag(p: Point): (flag: int)
    ensures flag == 0 || flag == 1
    ensures flag == 1 <==> OnBoundary(p)
  {
    if OnBoundary(p) then 1 else 0
  }

  /** A point on a face of the cube is on the boundary. */
  lemma FacePointsOnBoundary(p: Point)
    requires p.x == 1.0 || p.x == -1.0 || p.y == 1.0 || p.y == -1.0 || p.z == 1.0 || p.z == -1.0
    ensures OnBoundary(p)
  {
  }

  /** A point whose coordinates all stay EpsilonBall away from both faces is not on the boundary. */
  lemma InteriorPointsNotOnBoundary(p: Point)
    requires -1.0 + EpsilonBall <= p.x <= 1.0 - EpsilonBall
    requires -1.0 + EpsilonBall <= p.y <= 1.0 - EpsilonBall
    requires -1.0 + EpsilonBall <= p.z <= 1.0 - EpsilonBall
    ensures !OnBoundary(p)
  {
  }

  /** The face test is symmetric under the reflection p -> -p. */
  lemma BoundarySymmetric(p: Point)
    ensures OnBoundary(p) <==> OnBoundary(Point(-p.x, -p.y, -p.z))
  {
    assert NearFace(p.x) <==> NearFace(-p.x) by {
      assert Abs(-p.x - 1.0) == Abs(p.x + 1.0);
      assert Abs(-p.x + 1.0) == Abs(p.x - 1.0);
    }
    assert NearFace(p.y) <==> NearFace(-p.y) by {
      assert Abs(-p.y - 1.0) == Abs(p.y + 1.0);
      assert Abs(-p.y + 1.0) == Abs(p.y - 1.0);
    }
    assert NearFace(p.z) <==> NearFace(-p.z) by {
      assert Abs(-p.z - 1.0) == Abs(p.z + 1.0);
      assert Abs(-p.z + 1.0) == Abs(p.z - 1.0);
    }
  }

  /** The analytic solution named by the "solution type" parameter: the sine test for "sine", the polynomial test otherwise. */
  function SolutionFor(solutionType: string): (f: AnalyticSolution)
    ensures f == CurlCurlSineTest <==> solutionType == "sine"
    ensures f == CurlCurlPolyTest <==> solutionType != "sine"
  {
    if solutionType == "sine" then CurlCurlSineTest else CurlCurlPolyTest
  }

  /** The message of the exception thrown when no right-hand side is attached. */
  const MissingRhs: string := "Tpetra Multivector for BCS not yet specified."

  /**
   * The interactions the boundary conditions need: exactly one, a bc
   * interaction on the field named "vector solution".
   */
  function GatherFieldInteractions(idOfField: string -> int): (r: seq<InteractingFields>)
    ensures |r| == 1
    ensures r[0].interaction == Bc && r[0].fieldId == idOfField("vector solution")
  {
    [InteractingFields(Bc, idOfField("vector solution"))]
  }

  class CurlCurlBoundaries {
    /** The particles' flags (the bc_id view). */
    var flags: array<int>
    /** The particles' coordinates. */
    var points: seq<Point>
    /** The right-hand side multivector, column 0; null until one is attached. */
    var rhs: array?<real>
    /** The "solution type" parameter. */
    var solutionType: string

    constructor(flags: array<int>, points: seq<Point>, rhs: array?<real>, solutionType: string)
      ensures this.flags == flags && this.points == points && this.rhs == rhs && this.solutionType == solutionType
    {
      this.flags := flags;
      this.points := points;
      this.rhs := rhs;
      this.solutionType := solutionType;
    }

    /** Every particle's flag is its BoundaryFlag: 1 exactly on the boundary, otherwise 0. */
    method FlagBoundaries()
      requires flags.Length <= |points|
      modifies flags
      ensures forall i :: 0 <= i < flags.Length ==> flags[i] == BoundaryFlag(points[i])
      ensures forall i :: 0 <= i < flags.Length ==> (flags[i] == 1 <==> OnBoundary(points[i]))
      ensures forall i :: 0 <= i < flags.Length ==> flags[i] == 0 || flags[i] == 1
    {
      var i := 0;
      while i < flags.Length
        invariant i <= flags.Length
        invariant forall i' :: 0 <= i' < i ==> flags[i'] == BoundaryFlag(points[i'])
      {
        var epsilonBall := 0.000001;
        var p := points[i];
        if Abs(p.x - 1.0) < epsilonBall || Abs(p.x + 1.0) < epsilonBall
          || Abs(p.y - 1.0) < epsilonBall || Abs(p.y + 1.0) < epsilonBall
          || Abs(p.z - 1.0) < epsilonBall || Abs(p.z + 1.0) < epsilonBall
        {
          flags[i] := 1;
        } else {
          flags[i] := 0;
        }
        i := i + 1;
      }
    }

    /** x is the degree of freedom of component k < nDim of a flagged particle i < upto. */
    ghost predicate BoundaryDof(x: int, upto: nat, nDim: nat, dof: (nat, nat) -> nat)
      reads this, flags
      requires upto <= flags.Length
    {
      exists i: nat, k: nat :: i < upto && k < nDim && flags[i] == 1 && dof(i, k) == x
    }

    /**
     * Writes the analytic solution into the right-hand side at the degrees
     * of freedom of field_one of every flagged particle: the entry of
     * component k of particle i becomes component k of the analytic solution
     * at that particle. Every other entry keeps its value. Without a
     * right-hand side it fails with MissingRhs and changes nothing.
     * dof(i, k) is the DOF map of field_one, nDim its number of components.
     */
    method ApplyBoundaries(nlocal: nat, nDim: nat, dof: (nat, nat) -> nat,
                           evalVector: (AnalyticSolution, Point, nat) -> real)
      returns (outcome: Outcome<string>)
      requires nlocal <= flags.Length && nlocal <= |points|
      requires rhs != null ==> forall i: nat, k: nat :: i < nlocal && k < nDim ==> dof(i, k) < rhs.Length
      requires forall i: nat, k: nat, i': nat, k': nat ::
        (i < nlocal && k < nDim && i' < nlocal && k' < nDim && dof(i, k) == dof(i', k')) ==> i == i' && k == k'
      modifies rhs
      ensures rhs == null ==> outcome == Fail(MissingRhs)
      ensures rhs != null ==> outcome == Pass
      ensures rhs != null ==> forall i: nat, k: nat :: i < nlocal && k < nDim && flags[i] == 1 ==>
        rhs[dof(i, k)] == evalVector(SolutionFor(solutionType), points[i], k)
      ensures rhs != null ==> forall x :: 0 <= x < rhs.Length && !BoundaryDof(x, nlocal, nDim, dof) ==>
        rhs[x] == old(rhs[x])
    {
      var solution := SolutionFor(solutionType);
      if rhs == null {
        return Fail(MissingRhs);
      }
      var b := rhs;
      var i := 0;
      while i < nlocal
        invariant i <= nlocal
        invariant forall i': nat, k: nat :: i' < i && k < nDim && flags[i'] == 1 ==>
          b[dof(i', k)] == evalVector(solution, points[i'], k)
        invariant forall x :: 0 <= x < b.Length && !BoundaryDof(x, i, nDim, dof) ==> b[x] == old(b[x])
      {
        var k := 0;
        while k < nDim
          invariant k <= nDim
          invariant forall i': nat, k': nat :: i' < i && k' < nDim && flags[i'] == 1 ==>
            b[dof(i', k')] == evalVector(solution, points[i'], k')
          invariant forall k': nat :: k' < k && flags[i] == 1 ==> b[dof(i, k')] == evalVector(solution, points[i], k')
          invariant forall x :: (0 <= x < b.Length && !BoundaryDof(x, i, nDim, dof)
                                 && !(flags[i] == 1 && exists k': nat :: k' < k && dof(i, k') == x)) ==>
            b[x] == old(b[x])
        {
          var d := dof(i, k);
          if flags[i] == 1 {
            b[d] := evalVector(solution, points[i], k);
          }
          k := k + 1;
        }
        i := i + 1;
      }
      outcome := Pass;
    }
  }
}
