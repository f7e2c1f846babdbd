/** The per-body formulas behind the getters of `OrbitFuncs`, one function per
    derivation rule, and the algebraic identities that hold between them over
    the reals. Each getter applies one of these to every body of the batch. */
module TwoBody {
  import opened Numerics
  import opened Vectors
  import opened Elementary

  // ---- vector quantities ----

  /** `ovec`: position in the orbital plane from the radius and the true anomaly. */
  function PlanePosition(m: Math, r: real, nu: real): Vec3 {
    Vec3(r * Cos(m, nu), r * Sin(m, nu), 0.0)
  }

  /** `vovec`: velocity in the orbital plane from a, r, the eccentric anomaly and e. */
  function PlaneVelocity(m: Math, mu: real, a: real, r: real, ea: real, e: real): Vec3 {
    var s := Div(Sqrt(m, mu * a), r);
    Vec3(-s * Sin(m, ea), s * Sqrt(m, 1.0 - e * e) * Cos(m, ea), 0.0)
  }

  /** `nvec`: the ascending-node vector (-h.y, h.x, 0). */
  function NodeVector(h: Vec3): Vec3 { Vec3(-h.y, h.x, 0.0) }

  /** `evec`: v x h / mu - r / |r|. */
  function EccentricityVector(m: Math, mu: real, p: Vec3, v: Vec3, h: Vec3): Vec3 {
    Sub(DivBy(Cross(v, h), mu), DivBy(p, Norm(m, p)))
  }

  // ---- scalar elements ----

  /** `a` by vis-viva: 1 / (2/|r| - v.v/mu); negative on hyperbolic orbits. */
  function VisViva(m: Math, mu: real, p: Vec3, v: Vec3): real {
    Div(1.0, Div(2.0, Norm(m, p)) - Div(Dot(v, v), mu))
  }

  /** `inc`: arccos(h.z / |h|). */
  function Inclination(m: Math, h: Vec3): real { Arccos(m, Div(h.z, Norm(m, h))) }

  /** `node` from the node vector: 0 for an equatorial orbit, arccos(n.x/|n|)
      otherwise, mirrored to 2*pi minus that when n.y < 0. */
  function NodeFromNodeVector(m: Math, inc: real, nv: Vec3): real {
    var base := if inc == 0.0 then 0.0 else Arccos(m, Div(nv.x, Norm(m, nv)));
    if nv.y < 0.0 then TWO_PI - base else base
  }

  /** `arg` from the node and eccentricity vectors: 0 when e == 0 or |n| == 0,
      arccos(n.e / (|n| e)) otherwise, mirrored when evec.z < 0. */
  function ArgFromVectors(m: Math, e: real, nv: Vec3, ev: Vec3): real {
    var n := Norm(m, nv);
    var base := if e == 0.0 || n == 0.0 then 0.0 else Arccos(m, Div(Dot(nv, ev), n * e));
    if ev.z < 0.0 then TWO_PI - base else base
  }

  /** `M` from `E` by Kepler's equation, chosen per body by its own e. */
  function MeanFromEcc(m: Math, e: real, ea: real): real {
    if e < 1.0 then Mod2Pi(EllipticKeplerMean(m, e, ea)) else Mod2Pi(HyperbolicKeplerMean(m, e, ea))
  }

  /** `E` from `M` by the solvers, chosen per body by its own e; None when the
      hyperbolic Newton iteration does not converge. */
  function EccFromMean(m: Math, mean: real, e: real): Option<real> {
    if e < 1.0 then Some(Mod2Pi(KeplerElliptic(m, WrapPi(mean), e)))
    else KeplerHyperbolic(m, mean, e)
  }

  /** `E` from the true anomaly by the tangent half-angle relation (no regime split). */
  function EccFromTrue(m: Math, e: real, nu: real): real {
    2.0 * Arctan2(m, Sqrt(m, 1.0 - e) * Sin(m, nu / 2.0), Sqrt(m, 1.0 + e) * Cos(m, nu / 2.0))
  }

  /** `true_anomaly` from `E`, by the elliptic or the hyperbolic half-angle relation. */
  function TrueFromEcc(m: Math, e: real, ea: real): real {
    if e < 1.0 then
      2.0 * Arctan2(m, Sqrt(m, 1.0 + e) * Sin(m, ea / 2.0), Sqrt(m, 1.0 - e) * Cos(m, ea / 2.0))
    else
      2.0 * Arctan2(m, Sqrt(m, e + 1.0) * Tanh(m, ea / 2.0), Sqrt(m, e - 1.0))
  }

  /** `true_anomaly` from the state vectors: the angle from the pericentre
      direction (from the x axis when e == 0), mirrored when r.v < 0. */
  function TrueFromVectors(m: Math, e: real, p: Vec3, v: Vec3, ev: Vec3): real {
    var base := if e == 0.0 then Arccos(m, Div(p.x, Norm(m, p)))
                else Arccos(m, Div(Dot(ev, p), Norm(m, ev) * Norm(m, p)));
    if Dot(p, v) < 0.0 then TWO_PI - base else base
  }

  /** `varpi = node + arg`, `true_longitude = true_anomaly + varpi` and
      `mean_longitude = M + varpi`, each reduced to [0, 2*pi). */
  function AngleSum(x: real, y: real): real { Mod2Pi(x + y) }

  /** `node = varpi - arg`, `arg = varpi - node` and `M = mean_longitude - varpi`,
      each reduced to [0, 2*pi). */
  function AngleDifference(x: real, y: real): real { Mod2Pi(x - y) }

  /** `true_anomaly = true_longitude - varpi`, which the source leaves unreduced. */
  function TrueFromLongitude(tl: real, varpi: real): real { tl - varpi }

  /** `M` from the time of pericentre: n (epoch - t_peri) mod 2*pi. */
  function MeanFromPericentreTime(n: real, epoch: real, tPeri: real): real {
    Mod2Pi(n * (epoch - tPeri))
  }

  /** `t_peri`: the epoch minus M/n (days). */
  function PericentreTime(epoch: real, mean: real, n: real): real { epoch - Div(mean, n) }

  function SemiMinorAxis(m: Math, a: real, e: real): real { a * Sqrt(m, 1.0 - e * e) }

  function SemiLatusRectum(a: real, e: real): real { a * (1.0 - e * e) }

  function PericentreDistance(a: real, e: real): real { a * (1.0 - e) }

  function ApocentreDistance(a: real, e: real): real { a * (1.0 + e) }

  function MeanMotion(m: Math, mu: real, a: real): real {
    Sqrt(m, Div(mu, Abs(a) * Abs(a) * Abs(a)))
  }

  /** `r` from the elements: a (1 - e cos E). */
  function RadiusFromAnomaly(m: Math, a: real, e: real, ea: real): real {
    a * (1.0 - e * Cos(m, ea))
  }

  // ---- identities ----

  /** The node vector lies in the reference plane and is perpendicular to h. */
  lemma NodeVectorInPlane(h: Vec3)
    ensures NodeVector(h).z == 0.0
    ensures Dot(NodeVector(h), h) == 0.0
  {
  }

  /** h = r x v is perpendicular to r and to v, so the node vector built from it
      is perpendicular to h and has no z component. */
  lemma AngularMomentumGeometry(p: Vec3, v: Vec3)
    ensures Dot(Cross(p, v), p) == 0.0 && Dot(Cross(p, v), v) == 0.0
    ensures NodeVector(Cross(p, v)).z == 0.0 && Dot(NodeVector(Cross(p, v)), Cross(p, v)) == 0.0
  {
    CrossOrthogonal(p, v);
    NodeVectorInPlane(Cross(p, v));
  }

  /** q + Q = 2a, and p = a (1 - e^2) = q (1 + e). */
  lemma ShapeRelations(a: real, e: real)
    ensures PericentreDistance(a, e) + ApocentreDistance(a, e) == 2.0 * a
    ensures SemiLatusRectum(a, e) == PericentreDistance(a, e) * (1.0 + e)
  {
    calc {
      PericentreDistance(a, e) * (1.0 + e);
      a * (1.0 - e) * (1.0 + e);
      a * (1.0 - e * e);
    }
  }

  /** On a bound orbit b^2 = a p: the semi-minor axis squared is a times the
      semi-latus rectum. */
  lemma SemiMinorSquared(m: Math, a: real, e: real)
    requires SqrtExact(m)
    requires -1.0 <= e <= 1.0
    ensures SemiMinorAxis(m, a, e) * SemiMinorAxis(m, a, e) == a * SemiLatusRectum(a, e)
  {
    var s := Sqrt(m, 1.0 - e * e);
    assert 0.0 <= 1.0 - e * e by {
      assert e * e <= 1.0 by {
        if e >= 0.0 { assert e * e <= e * 1.0; } else { assert e * e <= (-e) * 1.0; }
      }
    }
    assert s * s == 1.0 - e * e;
    calc {
      SemiMinorAxis(m, a, e) * SemiMinorAxis(m, a, e);
      (a * s) * (a * s);
      a * a * (s * s);
      a * a * (1.0 - e * e);
      a * SemiLatusRectum(a, e);
    }
  }

  /** With arccos in [0, pi], the node derived from the node vector lies in [0, 2*pi]. */
  lemma NodeFromNodeVectorRange(m: Math, inc: real, nv: Vec3)
    requires ArccosInRange(m)
    ensures 0.0 <= NodeFromNodeVector(m, inc, nv) <= TWO_PI
  {
    if inc != 0.0 { assert 0.0 <= Arccos(m, Div(nv.x, Norm(m, nv))) <= PI; }
  }

  /** With arccos in [0, pi], arg derived from the vectors lies in [0, 2*pi];
      it is 0 on a circular orbit whose eccentricity vector has no negative z. */
  lemma ArgFromVectorsRange(m: Math, e: real, nv: Vec3, ev: Vec3)
    requires ArccosInRange(m)
    ensures 0.0 <= ArgFromVectors(m, e, nv, ev) <= TWO_PI
    ensures e == 0.0 && ev.z >= 0.0 ==> ArgFromVectors(m, e, nv, ev) == 0.0
  {
    var n := Norm(m, nv);
    if !(e == 0.0 || n == 0.0) { assert 0.0 <= Arccos(m, Div(Dot(nv, ev), n * e)) <= PI; }
  }

  /** On an equatorial orbit whose node vector has no negative y the node is 0. */
  lemma EquatorialNode(m: Math, nv: Vec3)
    requires nv.y >= 0.0
    ensures NodeFromNodeVector(m, 0.0, nv) == 0.0
  {
  }

  /** A whole-turn shift of E shifts the elliptic mean anomaly by the same turn,
      when sin repeats there. */
  lemma EllipticKeplerMeanShift(m: Math, e: real, e1: real, ea: real, t: real)
    requires ea == e1 + t
    requires Sin(m, ea) == Sin(m, e1)
    ensures EllipticKeplerMean(m, e, ea) == EllipticKeplerMean(m, e, e1) + t
  {
  }

  /** The elliptic half of the inversion, from the two facts it needs about
      the solver's root e1 for the wrapped mean anomaly. */
  lemma {:induction false} EllipticInverse(m: Math, mean: real, e: real, e1: real)
    requires 0.0 <= mean < TWO_PI && e < 1.0
    requires EllipticKeplerMean(m, e, e1) == WrapPi(mean)
    requires Sin(m, Mod2Pi(e1)) == Sin(m, e1)
    ensures MeanFromEcc(m, e, Mod2Pi(e1)) == mean
  {
    var w := WrapPi(mean);
    var k := (e1 / TWO_PI).Floor;
    EllipticKeplerMeanShift(m, e, e1, Mod2Pi(e1), (-k) as real * TWO_PI);
    Mod2PiShift(w, -k);
    Mod2PiOfReduced(mean);
    if mean > PI {
      Mod2PiShift(w, 1);
      assert w + 1 as real * TWO_PI == mean;
    }
  }

  /** Kepler's equation is inverted by the solver: deriving E from a mean
      anomaly in [0, 2*pi) and M back from that E returns the same mean anomaly,
      on elliptic and on hyperbolic orbits alike (when Newton converged). */
  lemma {:induction false} MeanEccRoundTrip(m: Math, mean: real, e: real)
    requires Periodic(m) && KeplerExact(m)
    requires 0.0 <= mean < TWO_PI && 0.0 <= e
    requires EccFromMean(m, mean, e).Some?
    ensures MeanFromEcc(m, e, EccFromMean(m, mean, e).value) == mean
  {
    if e < 1.0 {
      var e1 := KeplerElliptic(m, WrapPi(mean), e);
      assert EllipticKeplerMean(m, e, e1) == WrapPi(mean);
      assert Sin(m, Mod2Pi(e1)) == Sin(m, e1);
      EllipticInverse(m, mean, e, e1);
    } else {
      Mod2PiOfReduced(mean);
    }
  }

  /** Adding an angle and taking it away again are inverse on [0, 2*pi): this
      is how `M` and `mean_longitude` determine each other through varpi, and
      how `node`, `arg` and `varpi` determine each other. */
  lemma {:induction false} SumDifferenceInverse(x: real, y: real, z: real)
    requires 0.0 <= x < TWO_PI && 0.0 <= z < TWO_PI
    ensures AngleDifference(AngleSum(x, y), y) == x
    ensures AngleSum(AngleDifference(z, y), y) == z
  {
    SumThenDifference(x, y);
    DifferenceThenSum(z, y);
    assert y + Mod2Pi(z - y) == Mod2Pi(z - y) + y;
  }

  /** From varpi and one of node and arg, the other is recovered: varpi built
      as node + arg gives back arg as varpi - node and node as varpi - arg. */
  lemma {:induction false} NodeArgVarpi(node: real, arg: real)
    requires 0.0 <= node < TWO_PI && 0.0 <= arg < TWO_PI
    ensures AngleDifference(AngleSum(node, arg), node) == arg
    ensures AngleDifference(AngleSum(node, arg), arg) == node
  {
    assert AngleSum(node, arg) == AngleSum(arg, node) by {
      assert node + arg == arg + node;
    }
    SumDifferenceInverse(arg, node, arg);
    SumDifferenceInverse(node, arg, node);
  }

  /** The true longitude survives being turned into a true anomaly
      (`true_longitude - varpi`, not reduced) and back. */
  lemma {:induction false} TrueLongitudeRoundTrip(tl: real, varpi: real)
    requires 0.0 <= tl < TWO_PI
    ensures AngleSum(TrueFromLongitude(tl, varpi), varpi) == tl
  {
    assert (tl - varpi) + varpi == tl;
    Mod2PiOfReduced(tl);
  }

  /** `t_peri` and `M` from `t_peri` are inverse: the time of pericentre
      computed from a mean anomaly in [0, 2*pi) gives that anomaly back, for
      a nonzero mean motion. */
  lemma PericentreTimeRoundTrip(n: real, epoch: real, mean: real)
    requires n != 0.0 && 0.0 <= mean < TWO_PI
    ensures MeanFromPericentreTime(n, epoch, PericentreTime(epoch, mean, n)) == mean
  {
    assert n * (epoch - PericentreTime(epoch, mean, n)) == mean;
    Mod2PiOfReduced(mean);
  }

  /** At E = 0 the radius from the elements is the pericentre distance q. */
  lemma PericentreRadius(m: Math, a: real, e: real)
    requires Cos(m, 0.0) == 1.0
    ensures RadiusFromAnomaly(m, a, e, 0.0) == PericentreDistance(a, e)
  {
  }
}
