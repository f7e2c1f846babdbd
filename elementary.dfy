/** The floating-point library functions the core calls (numpy ufuncs, the
    `Vector` class's norm and Euler rotation, the two Kepler solvers) as
    uninterpreted functions bundled in one value: each is a table from
    arguments to results (an argument the table leaves out reads as 0, so every
    function of the arguments is some table). The model never evaluates them;
    it only records where and with which arguments they are applied.
    The predicates below state the idealised laws some lemmas assume. */
module Elementary {
  import opened Numerics
  import opened Vectors

  datatype Option<T> = None | Some(value: T)

  datatype Math = Math(
    sin: imap<real, real>,
    cos: imap<real, real>,
    sinh: imap<real, real>,
    tanh: imap<real, real>,
    arccos: imap<real, real>,
    arctan2: imap<(real, real), real>,
    sqrt: imap<real, real>,
    norm: imap<Vec3, real>,
    rotate: imap<(Vec3, real, real, real), Vec3>,
    keplerElliptic: imap<(real, real), real>,
    keplerHyperbolic: imap<(real, real), Option<real>>)

  // One function per library call, so that every formula and every law below
  // speaks of `Sin(m, x)` rather than of a table lookup.
  function Sin(m: Math, x: real): real { if x in m.sin then m.sin[x] else 0.0 }
  function Cos(m: Math, x: real): real { if x in m.cos then m.cos[x] else 0.0 }
  function Sinh(m: Math, x: real): real { if x in m.sinh then m.sinh[x] else 0.0 }
  function Tanh(m: Math, x: real): real { if x in m.tanh then m.tanh[x] else 0.0 }
  function Arccos(m: Math, x: real): real { if x in m.arccos then m.arccos[x] else 0.0 }
  function Arctan2(m: Math, y: real, x: real): real {
    if (y, x) in m.arctan2 then m.arctan2[(y, x)] else 0.0
  }
  function Sqrt(m: Math, x: real): real { if x in m.sqrt then m.sqrt[x] else 0.0 }
  function Norm(m: Math, v: Vec3): real { if v in m.norm then m.norm[v] else 0.0 }
  function Rotate(m: Math, v: Vec3, arg: real, inc: real, node: real): Vec3 {
    var key := (v, arg, inc, node);
    if key in m.rotate then m.rotate[key] else Vec3(0.0, 0.0, 0.0)
  }
  function KeplerElliptic(m: Math, mean: real, e: real): real {
    if (mean, e) in m.keplerElliptic then m.keplerElliptic[(mean, e)] else 0.0
  }
  function KeplerHyperbolic(m: Math, mean: real, e: real): Option<real> {
    if (mean, e) in m.keplerHyperbolic then m.keplerHyperbolic[(mean, e)] else None
  }

  /** The right-hand sides of Kepler's equation: M = E - e sin E on an
      ellipse, M = e sinh E - E on a hyperbola. */
  function EllipticKeplerMean(m: Math, e: real, ea: real): real { ea - e * Sin(m, ea) }
  function HyperbolicKeplerMean(m: Math, e: real, ea: real): real { e * Sinh(m, ea) - ea }

  /** arccos lands in [0, pi]. */
  ghost predicate ArccosInRange(m: Math) {
    forall u :: 0.0 <= Arccos(m, u) <= PI
  }

  /** sin and cos repeat after a whole turn. The turn is the double
      `TWO_PI`, which neither the real sine nor the floating-point one repeats
      after exactly: this is an idealisation that lemmas take as a hypothesis. */
  ghost predicate Periodic(m: Math) {
    && (forall x :: Sin(m, Mod2Pi(x)) == Sin(m, x))
    && (forall x :: Cos(m, Mod2Pi(x)) == Cos(m, x))
  }

  /** Both solvers return exact roots of their Kepler equation. */
  ghost predicate KeplerExact(m: Math) {
    && (forall mm, e :: 0.0 <= e < 1.0 ==>
          EllipticKeplerMean(m, e, KeplerElliptic(m, mm, e)) == mm)
    && (forall mm, e :: 1.0 <= e && KeplerHyperbolic(m, mm, e).Some? ==>
          HyperbolicKeplerMean(m, e, KeplerHyperbolic(m, mm, e).value) == mm)
  }

  /** sqrt is the non-negative square root on non-negative arguments. */
  ghost predicate SqrtExact(m: Math) {
    forall u :: 0.0 <= u ==> 0.0 <= Sqrt(m, u) && Sqrt(m, u) * Sqrt(m, u) == u
  }
}
