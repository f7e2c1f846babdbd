/** The array expressions of the getters: numpy applies each per-body formula
    of `TwoBody` element by element, so a batch of n bodies gives n results in
    the same order. */
module Batch {
  import opened Numerics
  import opened Vectors
  import opened Elementary
  import opened TwoBody
  import opened Cache

  /** The component of `w` a Cartesian slot names. */
  function Axis(k: ScalarSlot, w: Vec3): real {
    if k.X? || k.VX? then w.x else if k.Y? || k.VY? then w.y else w.z
  }

  predicate IsShapeSlot(k: ScalarSlot) { k.B? || k.P? || k.SmallQ? || k.BigQ? }

  /** `b`, `p`, `q` and `Q` from a and e. */
  function Shape(m: Math, k: ScalarSlot, a: real, e: real): real {
    match k
    case B => SemiMinorAxis(m, a, e)
    case P => SemiLatusRectum(a, e)
    case SmallQ => PericentreDistance(a, e)
    case _ => ApocentreDistance(a, e)
  }

  /** `ovec`, body by body. */
  function PlanePositions(m: Math, r: seq<real>, nu: seq<real>): (w: seq<Vec3>)
    requires |r| == |nu|
    ensures |w| == |r|
    ensures forall i :: 0 <= i < |r| ==> w[i] == PlanePosition(m, r[i], nu[i])
  {
    seq(|r|, i requires 0 <= i < |r| => PlanePosition(m, r[i], nu[i]))
  }

  /** `vovec`, body by body. */
  function PlaneVelocities(m: Math, mu: real, a: seq<real>, r: seq<real>, ea: seq<real>, e: seq<real>): (w: seq<Vec3>)
    requires |a| == |r| == |ea| == |e|
    ensures |w| == |a|
    ensures forall i :: 0 <= i < |a| ==> w[i] == PlaneVelocity(m, mu, a[i], r[i], ea[i], e[i])
  {
    seq(|a|, i requires 0 <= i < |a| => PlaneVelocity(m, mu, a[i], r[i], ea[i], e[i]))
  }

  /** `nvec`, body by body. */
  function NodeVectors(h: seq<Vec3>): (w: seq<Vec3>)
    ensures |w| == |h|
    ensures forall i :: 0 <= i < |h| ==> w[i] == NodeVector(h[i])
  {
    seq(|h|, i requires 0 <= i < |h| => NodeVector(h[i]))
  }

  /** `evec`, body by body. */
  function EccentricityVectors(m: Math, mu: real, p: seq<Vec3>, v: seq<Vec3>, h: seq<Vec3>): (w: seq<Vec3>)
    requires |p| == |v| == |h|
    ensures |w| == |p|
    ensures forall i :: 0 <= i < |p| ==> w[i] == EccentricityVector(m, mu, p[i], v[i], h[i])
  {
    seq(|p|, i requires 0 <= i < |p| => EccentricityVector(m, mu, p[i], v[i], h[i]))
  }

  /** `hvec`: r x v, body by body. */
  function CrossProducts(p: seq<Vec3>, v: seq<Vec3>): (w: seq<Vec3>)
    requires |p| == |v|
    ensures |w| == |p|
    ensures forall i :: 0 <= i < |p| ==> w[i] == Cross(p[i], v[i])
  {
    seq(|p|, i requires 0 <= i < |p| => Cross(p[i], v[i]))
  }

  /** `rrdot`: r . v, body by body. */
  function DotProducts(p: seq<Vec3>, v: seq<Vec3>): (w: seq<real>)
    requires |p| == |v|
    ensures |w| == |p|
    ensures forall i :: 0 <= i < |p| ==> w[i] == Dot(p[i], v[i])
  {
    seq(|p|, i requires 0 <= i < |p| => Dot(p[i], v[i]))
  }

  /** `Vector(x, y, z)`, body by body. */
  function Assemble(x: seq<real>, y: seq<real>, z: seq<real>): (w: seq<Vec3>)
    requires |x| == |y| == |z|
    ensures |w| == |x|
    ensures forall i :: 0 <= i < |x| ==> w[i] == Vec3(x[i], y[i], z[i])
  {
    seq(|x|, i requires 0 <= i < |x| => Vec3(x[i], y[i], z[i]))
  }

  /** `x` .. `vz`: one component of each vector, body by body. */
  function Components(k: ScalarSlot, v: seq<Vec3>): (w: seq<real>)
    ensures |w| == |v|
    ensures forall i :: 0 <= i < |v| ==> w[i] == Axis(k, v[i])
  {
    seq(|v|, i requires 0 <= i < |v| => Axis(k, v[i]))
  }

  /** `position` and `velocity` from the in-plane vectors, body by body. */
  function Rotations(m: Math, o: seq<Vec3>, arg: seq<real>, inc: seq<real>, node: seq<real>): (w: seq<Vec3>)
    requires |o| == |arg| == |inc| == |node|
    ensures |w| == |o|
    ensures forall i :: 0 <= i < |o| ==> w[i] == Rotate(m, o[i], arg[i], inc[i], node[i])
  {
    seq(|o|, i requires 0 <= i < |o| => Rotate(m, o[i], arg[i], inc[i], node[i]))
  }

  /** `a`, body by body. */
  function VisVivas(m: Math, mu: real, p: seq<Vec3>, v: seq<Vec3>): (w: seq<real>)
    requires |p| == |v|
    ensures |w| == |p|
    ensures forall i :: 0 <= i < |p| ==> w[i] == VisViva(m, mu, p[i], v[i])
  {
    seq(|p|, i requires 0 <= i < |p| => VisViva(m, mu, p[i], v[i]))
  }

  /** `e` from `evec` and `r` from `position`, body by body. */
  function Norms(m: Math, v: seq<Vec3>): (w: seq<real>)
    ensures |w| == |v|
    ensures forall i :: 0 <= i < |v| ==> w[i] == Norm(m, v[i])
  {
    seq(|v|, i requires 0 <= i < |v| => Norm(m, v[i]))
  }

  /** `inc`, body by body. */
  function Inclinations(m: Math, h: seq<Vec3>): (w: seq<real>)
    ensures |w| == |h|
    ensures forall i :: 0 <= i < |h| ==> w[i] == Inclination(m, h[i])
  {
    seq(|h|, i requires 0 <= i < |h| => Inclination(m, h[i]))
  }

  /** `node` from the node vector, body by body. */
  function NodesFromNodeVectors(m: Math, inc: seq<real>, nv: seq<Vec3>): (w: seq<real>)
    requires |inc| == |nv|
    ensures |w| == |inc|
    ensures forall i :: 0 <= i < |inc| ==> w[i] == NodeFromNodeVector(m, inc[i], nv[i])
  {
    seq(|inc|, i requires 0 <= i < |inc| => NodeFromNodeVector(m, inc[i], nv[i]))
  }

  /** `arg` from the node and eccentricity vectors, body by body. */
  function ArgsFromVectors(m: Math, e: seq<real>, nv: seq<Vec3>, ev: seq<Vec3>): (w: seq<real>)
    requires |e| == |nv| == |ev|
    ensures |w| == |e|
    ensures forall i :: 0 <= i < |e| ==> w[i] == ArgFromVectors(m, e[i], nv[i], ev[i])
  {
    seq(|e|, i requires 0 <= i < |e| => ArgFromVectors(m, e[i], nv[i], ev[i]))
  }

  /** `varpi`, `true_longitude` and `mean_longitude`, body by body. */
  function AngleSums(x: seq<real>, y: seq<real>): (w: seq<real>)
    requires |x| == |y|
    ensures |w| == |x|
    ensures forall i :: 0 <= i < |x| ==> w[i] == AngleSum(x[i], y[i])
  {
    seq(|x|, i requires 0 <= i < |x| => AngleSum(x[i], y[i]))
  }

  /** `node`, `arg` and `M` from two angles, body by body. */
  function AngleDifferences(x: seq<real>, y: seq<real>): (w: seq<real>)
    requires |x| == |y|
    ensures |w| == |x|
    ensures forall i :: 0 <= i < |x| ==> w[i] == AngleDifference(x[i], y[i])
  {
    seq(|x|, i requires 0 <= i < |x| => AngleDifference(x[i], y[i]))
  }

  /** `M` from `E`, body by body. */
  function MeansFromEcc(m: Math, e: seq<real>, ea: seq<real>): (w: seq<real>)
    requires |e| == |ea|
    ensures |w| == |e|
    ensures forall i :: 0 <= i < |e| ==> w[i] == MeanFromEcc(m, e[i], ea[i])
  {
    seq(|e|, i requires 0 <= i < |e| => MeanFromEcc(m, e[i], ea[i]))
  }

  /** `M` from the time of pericentre, body by body. */
  function MeansFromPericentreTime(n: seq<real>, epoch: real, tPeri: seq<real>): (w: seq<real>)
    requires |n| == |tPeri|
    ensures |w| == |n|
    ensures forall i :: 0 <= i < |n| ==> w[i] == MeanFromPericentreTime(n[i], epoch, tPeri[i])
  {
    seq(|n|, i requires 0 <= i < |n| => MeanFromPericentreTime(n[i], epoch, tPeri[i]))
  }

  /** `E` from the true anomaly, body by body. */
  function EccsFromTrue(m: Math, e: seq<real>, nu: seq<real>): (w: seq<real>)
    requires |e| == |nu|
    ensures |w| == |e|
    ensures forall i :: 0 <= i < |e| ==> w[i] == EccFromTrue(m, e[i], nu[i])
  {
    seq(|e|, i requires 0 <= i < |e| => EccFromTrue(m, e[i], nu[i]))
  }

  /** `true_anomaly` from the true longitude, body by body. */
  function TruesFromLongitude(tl: seq<real>, varpi: seq<real>): (w: seq<real>)
    requires |tl| == |varpi|
    ensures |w| == |tl|
    ensures forall i :: 0 <= i < |tl| ==> w[i] == TrueFromLongitude(tl[i], varpi[i])
  {
    seq(|tl|, i requires 0 <= i < |tl| => TrueFromLongitude(tl[i], varpi[i]))
  }

  /** `true_anomaly` from `E`, body by body. */
  function TruesFromEcc(m: Math, e: seq<real>, ea: seq<real>): (w: seq<real>)
    requires |e| == |ea|
    ensures |w| == |e|
    ensures forall i :: 0 <= i < |e| ==> w[i] == TrueFromEcc(m, e[i], ea[i])
  {
    seq(|e|, i requires 0 <= i < |e| => TrueFromEcc(m, e[i], ea[i]))
  }

  /** `true_anomaly` from the state vectors, body by body. */
  function TruesFromVectors(m: Math, e: seq<real>, p: seq<Vec3>, v: seq<Vec3>, ev: seq<Vec3>): (w: seq<real>)
    requires |e| == |p| == |v| == |ev|
    ensures |w| == |e|
    ensures forall i :: 0 <= i < |e| ==> w[i] == TrueFromVectors(m, e[i], p[i], v[i], ev[i])
  {
    seq(|e|, i requires 0 <= i < |e| => TrueFromVectors(m, e[i], p[i], v[i], ev[i]))
  }

  /** `t_peri`, body by body. */
  function PericentreTimes(epoch: real, mean: seq<real>, n: seq<real>): (w: seq<real>)
    requires |mean| == |n|
    ensures |w| == |mean|
    ensures forall i :: 0 <= i < |mean| ==> w[i] == PericentreTime(epoch, mean[i], n[i])
  {
    seq(|mean|, i requires 0 <= i < |mean| => PericentreTime(epoch, mean[i], n[i]))
  }

  /** `b`, `p`, `q` and `Q`, body by body. */
  function Shapes(m: Math, k: ScalarSlot, a: seq<real>, e: seq<real>): (w: seq<real>)
    requires |a| == |e|
    ensures |w| == |a|
    ensures forall i :: 0 <= i < |a| ==> w[i] == Shape(m, k, a[i], e[i])
  {
    seq(|a|, i requires 0 <= i < |a| => Shape(m, k, a[i], e[i]))
  }

  /** `n`, body by body. */
  function MeanMotions(m: Math, mu: real, a: seq<real>): (w: seq<real>)
    ensures |w| == |a|
    ensures forall i :: 0 <= i < |a| ==> w[i] == MeanMotion(m, mu, a[i])
  {
    seq(|a|, i requires 0 <= i < |a| => MeanMotion(m, mu, a[i]))
  }

  /** `r` from the elements, body by body. */
  function RadiiFromAnomaly(m: Math, a: seq<real>, e: seq<real>, ea: seq<real>): (w: seq<real>)
    requires |a| == |e| == |ea|
    ensures |w| == |a|
    ensures forall i :: 0 <= i < |a| ==> w[i] == RadiusFromAnomaly(m, a[i], e[i], ea[i])
  {
    seq(|a|, i requires 0 <= i < |a| => RadiusFromAnomaly(m, a[i], e[i], ea[i]))
  }

  /** `self.x += x_sun`: the same offset added to every body. */
  function Offsets(s: seq<real>, d: real): (w: seq<real>)
    ensures |w| == |s|
    ensures forall i :: 0 <= i < |s| ==> w[i] == s[i] + d
  {
    seq(|s|, i requires 0 <= i < |s| => s[i] + d)
  }

  /** Body by body, a reduced angle sum taken apart again gives back the
      first operand when it lies in [0, 2*pi): `mean_longitude` built from
      `M` and varpi gives `M` back, and `varpi` built from `node` and `arg`
      gives `node` back. */
  lemma {:induction false} AngleSumsInverse(x: seq<real>, y: seq<real>)
    requires |x| == |y|
    requires forall i :: 0 <= i < |x| ==> 0.0 <= x[i] < TWO_PI
    ensures AngleDifferences(AngleSums(x, y), y) == x
  {
    var w := AngleDifferences(AngleSums(x, y), y);
    forall i | 0 <= i < |x|
      ensures w[i] == x[i]
    {
      SumDifferenceInverse(x[i], y[i], x[i]);
    }
  }

  /** Body by body, `t_peri` computed from `M` gives `M` back, for bodies
      with a nonzero mean motion and `M` in [0, 2*pi). */
  lemma {:induction false} PericentreTimesRoundTrip(n: seq<real>, epoch: real, mean: seq<real>)
    requires |n| == |mean|
    requires forall i :: 0 <= i < |n| ==> n[i] != 0.0 && 0.0 <= mean[i] < TWO_PI
    ensures MeansFromPericentreTime(n, epoch, PericentreTimes(epoch, mean, n)) == mean
  {
    var w := MeansFromPericentreTime(n, epoch, PericentreTimes(epoch, mean, n));
    forall i | 0 <= i < |n|
      ensures w[i] == mean[i]
    {
      PericentreTimeRoundTrip(n[i], epoch, mean[i]);
    }
  }

  /** Subtracting the offset that was added gives back the batch. */
  lemma OffsetsInverse(s: seq<real>, d: real)
    ensures Offsets(Offsets(s, d), -d) == s
  {
    var w := Offsets(Offsets(s, d), -d);
    assert forall i :: 0 <= i < |s| ==> w[i] == s[i];
  }
}
