/** The lazy orbital-state cache of `OrbitFuncs`: every quantity is a getter that
    returns the private slot when it is present and otherwise derives the value
    from other getters by the first rule whose inputs are present, stores it,
    and returns it. The getters are methods on the batch's attribute dictionary
    (`cache`); `fuel` bounds their nesting the way the interpreter's recursion
    limit does. The frame flag and `mu` are class attributes, shared by every
    batch, so they live in one `FrameState` object all batches point to. */
module OrbitFuncs {
  import opened Numerics
  import opened Vectors
  import opened Elementary
  import opened TwoBody
  import opened Cache
  import opened Batch

  datatype Frame = Heliocentric | Barycentric

  /** The sun's position and velocity relative to the solar-system barycentre
      (ecliptic, au and au/day). */
  datatype SunState = SunState(pos: Vec3, vel: Vec3)

  /** The planetary ephemeris the frame changes read the sun from: a table
      from epoch (Julian date, TT) to the sun's state. */
  datatype Ephemeris = Ephemeris(sun: imap<real, SunState>)

  /** The sun's state at epoch `t` (an epoch the table leaves out reads as
      the origin). */
  function SunAt(eph: Ephemeris, t: real): SunState {
    if t in eph.sun then eph.sun[t] else SunState(Vec3(0.0, 0.0, 0.0), Vec3(0.0, 0.0, 0.0))
  }

  /** The class-wide state: `OrbitFuncs.frame` and `OrbitFuncs.mu`, with the two
      gravitational parameters of the constants module. */
  class FrameState {
    var frame: Frame
    var mu: real
    const muHelio: real
    const muBary: real

    constructor (frame: Frame, mu: real, muHelio: real, muBary: real)
      ensures this.frame == frame && this.mu == mu
      ensures this.muHelio == muHelio && this.muBary == muBary
    {
      this.frame, this.mu := frame, mu;
      this.muHelio, this.muBary := muHelio, muBary;
    }
  }

  /** Both state vectors are cached. */
  predicate HasStateVectors(c: Dict) { Position in c.vectors && Velocity in c.vectors }

  /** The state vector a Cartesian component is read from. */
  function StateSlot(k: ScalarSlot): VectorSlot { if k.X? || k.Y? || k.Z? then Position else Velocity }

  /** The part of the sun's state a Cartesian component is shifted by. */
  function SunOffset(k: ScalarSlot, s: SunState): real {
    Axis(k, if StateSlot(k) == Position then s.pos else s.vel)
  }

  /** What a completed frame change leaves in the dictionary: the six Cartesian
      components and the two state vectors and nothing else, each component
      shifted by `sign` times the sun's part, and the state vectors rebuilt
      from the components. */
  ghost predicate Reframed(d0: Dict, d1: Dict, sign: real, sun: SunState) {
    && (forall k :: k in d1.scalars <==> IsCartesian(k))
    && d1.vectors.Keys == {Position, Velocity}
    && (forall k :: IsCartesian(k) ==> Shifted(d0, d1, k, sign, sun))
    && |d1.scalars[X]| == |d1.scalars[Y]| == |d1.scalars[Z]|
    && |d1.scalars[VX]| == |d1.scalars[VY]| == |d1.scalars[VZ]|
    && d1.vectors[Position] == Assemble(d1.scalars[X], d1.scalars[Y], d1.scalars[Z])
    && d1.vectors[Velocity] == Assemble(d1.scalars[VX], d1.scalars[VY], d1.scalars[VZ])
  }

  /** Component `k` of `d1` is the value it had in `d0` moved by `sign` times
      the sun's part, or, when `d0` held no such component but held the state
      vector it is read from, that vector's component moved. */
  ghost predicate Shifted(d0: Dict, d1: Dict, k: ScalarSlot, sign: real, sun: SunState) {
    && k in d1.scalars
    && (k in d0.scalars ==> d1.scalars[k] == Offsets(d0.scalars[k], sign * SunOffset(k, sun)))
    && (k !in d0.scalars && StateSlot(k) in d0.vectors ==>
          d1.scalars[k] == Offsets(Components(k, d0.vectors[StateSlot(k)]), sign * SunOffset(k, sun)))
  }

  /** `self.k += d` has been done: the component `k` of `d1` is what its getter
      returned, moved by `sign` times the sun's part. The getter returned the
      stored value when `d0` held one, and otherwise the component of the
      state vector, which `d1` holds. */
  ghost predicate Moved(d0: Dict, d1: Dict, k: ScalarSlot, sign: real, sun: SunState) {
    && k in d1.scalars
    && (k in d0.scalars ==> d1.scalars[k] == Offsets(d0.scalars[k], sign * SunOffset(k, sun)))
    && (k !in d0.scalars ==>
          && StateSlot(k) in d1.vectors
          && d1.scalars[k] == Offsets(Components(k, d1.vectors[StateSlot(k)]), sign * SunOffset(k, sun)))
  }

  /** A component moved in the first step and left alone in the second is
      moved over both. */
  lemma MovedAcross(d0: Dict, d1: Dict, d2: Dict, k: ScalarSlot, sign: real, sun: SunState, js: set<ScalarSlot>)
    requires Moved(d0, d1, k, sign, sun) && ExtendsExceptAll(d1, d2, js) && k !in js
    ensures Moved(d0, d2, k, sign, sun)
  {
  }

  /** A component left alone in the first step and moved in the second is
      moved over both: it cannot have appeared in the first step. */
  lemma MovedAfter(d0: Dict, d1: Dict, d2: Dict, k: ScalarSlot, sign: real, sun: SunState, js: set<ScalarSlot>)
    requires ExtendsExceptAll(d0, d1, js) && k !in js && IsCartesian(k) && Moved(d1, d2, k, sign, sun)
    ensures Moved(d0, d2, k, sign, sun)
  {
  }

  /** A component moved, then another moved: both are moved over the two
      steps (when the second step succeeded), and only they may have changed. */
  lemma PairSteps(c0: Dict, c1: Dict, c2: Dict, a: ScalarSlot, b: ScalarSlot, sign: real, sun: SunState, ok: bool)
    requires IsCartesian(b) && a != b
    requires ExtendsExceptAll(c0, c1, {a}) && Moved(c0, c1, a, sign, sun)
    requires ExtendsExceptAll(c1, c2, {b}) && (ok ==> Moved(c1, c2, b, sign, sun))
    ensures ExtendsExceptAll(c0, c2, {a, b})
    ensures ok ==> Moved(c0, c2, a, sign, sun) && Moved(c0, c2, b, sign, sun)
  {
    ExtendsExceptAllTrans(c0, c1, c2, {a}, {b});
    assert {a} + {b} == {a, b};
    if ok {
      MovedAcross(c0, c1, c2, a, sign, sun, {b});
      MovedAfter(c0, c1, c2, b, sign, sun, {a});
    }
  }

  /** A component moved, then two others moved. */
  lemma TripleSteps(c0: Dict, c1: Dict, c2: Dict, a: ScalarSlot, b: ScalarSlot, c: ScalarSlot,
                    sign: real, sun: SunState, ok: bool)
    requires IsCartesian(b) && IsCartesian(c) && a != b && a != c
    requires ExtendsExceptAll(c0, c1, {a}) && Moved(c0, c1, a, sign, sun)
    requires ExtendsExceptAll(c1, c2, {b, c})
    requires ok ==> Moved(c1, c2, b, sign, sun) && Moved(c1, c2, c, sign, sun)
    ensures ExtendsExceptAll(c0, c2, {a, b, c})
    ensures ok ==> Moved(c0, c2, a, sign, sun) && Moved(c0, c2, b, sign, sun) && Moved(c0, c2, c, sign, sun)
  {
    ExtendsExceptAllTrans(c0, c1, c2, {a}, {b, c});
    assert {a} + {b, c} == {a, b, c};
    if ok {
      MovedAcross(c0, c1, c2, a, sign, sun, {b, c});
      MovedAfter(c0, c1, c2, b, sign, sun, {a});
      MovedAfter(c0, c1, c2, c, sign, sun, {a});
    }
  }

  /** The position components moved, then the velocity components moved, then
      `clear_kep` and the state vectors rebuilt: a completed frame change. */
  lemma OriginSteps(c0: Dict, c1: Dict, c2: Dict, d: Dict, sign: real, sun: SunState)
    requires ExtendsExceptAll(c0, c1, {X, Y, Z})
    requires Moved(c0, c1, X, sign, sun) && Moved(c0, c1, Y, sign, sun) && Moved(c0, c1, Z, sign, sun)
    requires ExtendsExceptAll(c1, c2, {VX, VY, VZ})
    requires Moved(c1, c2, VX, sign, sun) && Moved(c1, c2, VY, sign, sun) && Moved(c1, c2, VZ, sign, sun)
    requires |c2.scalars[X]| == |c2.scalars[Y]| == |c2.scalars[Z]|
    requires |c2.scalars[VX]| == |c2.scalars[VY]| == |c2.scalars[VZ]|
    requires d.scalars == CartesianPart(c2.scalars)
    requires d.vectors == map[Position := Assemble(c2.scalars[X], c2.scalars[Y], c2.scalars[Z]),
                              Velocity := Assemble(c2.scalars[VX], c2.scalars[VY], c2.scalars[VZ])]
    ensures Reframed(c0, d, sign, sun)
  {
    PositionsMovedAcross(c0, c1, c2, sign, sun);
    VelocitiesMovedAfter(c0, c1, c2, sign, sun);
    ExtendsExceptAllTrans(c0, c1, c2, {X, Y, Z}, {VX, VY, VZ});
    ReframedByRebuild(c0, c2, d, sign, sun);
  }

  /** The position components stay moved while the velocity components move. */
  lemma PositionsMovedAcross(c0: Dict, c1: Dict, c2: Dict, sign: real, sun: SunState)
    requires Moved(c0, c1, X, sign, sun) && Moved(c0, c1, Y, sign, sun) && Moved(c0, c1, Z, sign, sun)
    requires ExtendsExceptAll(c1, c2, {VX, VY, VZ})
    ensures Moved(c0, c2, X, sign, sun) && Moved(c0, c2, Y, sign, sun) && Moved(c0, c2, Z, sign, sun)
  {
    MovedAcross(c0, c1, c2, X, sign, sun, {VX, VY, VZ});
    MovedAcross(c0, c1, c2, Y, sign, sun, {VX, VY, VZ});
    MovedAcross(c0, c1, c2, Z, sign, sun, {VX, VY, VZ});
  }

  /** The velocity components, untouched while the position components move,
      are moved after them. */
  lemma VelocitiesMovedAfter(c0: Dict, c1: Dict, c2: Dict, sign: real, sun: SunState)
    requires ExtendsExceptAll(c0, c1, {X, Y, Z})
    requires Moved(c1, c2, VX, sign, sun) && Moved(c1, c2, VY, sign, sun) && Moved(c1, c2, VZ, sign, sun)
    ensures Moved(c0, c2, VX, sign, sun) && Moved(c0, c2, VY, sign, sun) && Moved(c0, c2, VZ, sign, sun)
  {
    MovedAfter(c0, c1, c2, VX, sign, sun, {X, Y, Z});
    MovedAfter(c0, c1, c2, VY, sign, sun, {X, Y, Z});
    MovedAfter(c0, c1, c2, VZ, sign, sun, {X, Y, Z});
  }

  /** A moved component, copied unchanged into a dictionary whose state
      vectors were rebuilt, is shifted relative to the start, given that the
      moves kept every state vector the start held. */
  lemma MovedKept(d0: Dict, d1: Dict, d2: Dict, k: ScalarSlot, sign: real, sun: SunState)
    requires Moved(d0, d1, k, sign, sun) && Keeps(d0.vectors, d1.vectors)
    requires k in d2.scalars && d2.scalars[k] == d1.scalars[k]
    ensures Shifted(d0, d2, k, sign, sun)
  {
  }

  /** Rebuilding the state vectors from six moved components completes a frame
      change. */
  lemma ReframedByRebuild(d0: Dict, d1: Dict, d2: Dict, sign: real, sun: SunState)
    requires Moved(d0, d1, X, sign, sun) && Moved(d0, d1, Y, sign, sun) && Moved(d0, d1, Z, sign, sun)
    requires Moved(d0, d1, VX, sign, sun) && Moved(d0, d1, VY, sign, sun) && Moved(d0, d1, VZ, sign, sun)
    requires Keeps(d0.vectors, d1.vectors)
    requires |d1.scalars[X]| == |d1.scalars[Y]| == |d1.scalars[Z]|
    requires |d1.scalars[VX]| == |d1.scalars[VY]| == |d1.scalars[VZ]|
    requires d2.scalars == CartesianPart(d1.scalars)
    requires d2.vectors == map[Position := Assemble(d1.scalars[X], d1.scalars[Y], d1.scalars[Z]),
                               Velocity := Assemble(d1.scalars[VX], d1.scalars[VY], d1.scalars[VZ])]
    ensures Reframed(d0, d2, sign, sun)
  {
    forall k | IsCartesian(k)
      ensures Shifted(d0, d2, k, sign, sun)
    {
      if k == X {
        MovedKept(d0, d1, d2, X, sign, sun);
      } else if k == Y {
        MovedKept(d0, d1, d2, Y, sign, sun);
      } else if k == Z {
        MovedKept(d0, d1, d2, Z, sign, sun);
      } else if k == VX {
        MovedKept(d0, d1, d2, VX, sign, sun);
      } else if k == VY {
        MovedKept(d0, d1, d2, VY, sign, sun);
      } else {
        MovedKept(d0, d1, d2, VZ, sign, sun);
      }
    }
  }

  /** Moving a present component out by the sun's part and back again
      restores it. */
  lemma MovedBack(d0: Dict, d1: Dict, d2: Dict, k: ScalarSlot, sun: SunState)
    requires k in d0.scalars && Shifted(d0, d1, k, 1.0, sun) && Shifted(d1, d2, k, -1.0, sun)
    ensures k in d2.scalars && d2.scalars[k] == d0.scalars[k]
  {
    OffsetsInverse(d0.scalars[k], SunOffset(k, sun));
  }

  /** `to_bary` followed by `to_helio` at the same epoch gives back the six
      Cartesian components and state vectors built from them, and nothing
      else: the Keplerian slots cleared on the way are not restored. */
  lemma RoundTrip(d0: Dict, d1: Dict, d2: Dict, sun: SunState)
    requires HasCartesian(d0) && Reframed(d0, d1, 1.0, sun) && Reframed(d1, d2, -1.0, sun)
    ensures d2.scalars == CartesianPart(d0.scalars)
    ensures d2.vectors == map[Position := Assemble(d0.scalars[X], d0.scalars[Y], d0.scalars[Z]),
                              Velocity := Assemble(d0.scalars[VX], d0.scalars[VY], d0.scalars[VZ])]
  {
    MovedBack(d0, d1, d2, X, sun);
    MovedBack(d0, d1, d2, Y, sun);
    MovedBack(d0, d1, d2, Z, sun);
    MovedBack(d0, d1, d2, VX, sun);
    MovedBack(d0, d1, d2, VY, sun);
    MovedBack(d0, d1, d2, VZ, sun);
    var p := CartesianPart(d0.scalars);
    forall k | k in p
      ensures k in d2.scalars && d2.scalars[k] == p[k]
    {
      if k == X {
      } else if k == Y {
      } else if k == Z {
      } else if k == VX {
      } else if k == VY {
      } else {
        assert k == VZ;
      }
    }
  }

  /** The in-plane vector a state vector is rotated from. */
  function PlaneSlot(k: VectorSlot): VectorSlot { if k == Position then OVec else VOVec }

  /** The hyperbolic solves of `E` (the list comprehension of `newton` calls):
      one solve per body, in order, failing on the first that does not converge. */
  method SolveBatch(m: Math, mean: seq<real>, ecc: seq<real>) returns (r: Result<seq<real>>)
    requires |mean| == |ecc|
    ensures r.Ok? <==> forall i :: 0 <= i < |mean| ==> EccFromMean(m, mean[i], ecc[i]).Some?
    ensures r.Err? ==> r.error == SolverDiverged
    ensures r.Ok? ==>
      |r.value| == |mean| &&
      forall i :: 0 <= i < |mean| ==> EccFromMean(m, mean[i], ecc[i]) == Some(r.value[i])
  {
    var out: seq<real> := [];
    var i := 0;
    while i < |mean|
      invariant 0 <= i <= |mean| && |out| == i
      invariant forall j :: 0 <= j < i ==> EccFromMean(m, mean[j], ecc[j]) == Some(out[j])
    {
      var root := EccFromMean(m, mean[i], ecc[i]);
      if root.None? {
        return Err(SolverDiverged);
      }
      out := out + [root.value];
      i := i + 1;
    }
    return Ok(out);
  }

  class OrbitFuncs {
    /** The number of bodies in the batch. */
    const size: nat
    /** The batch's epoch (Julian date, days). */
    const epoch: real
    /** The class attributes shared with every other batch. */
    const cls: FrameState
    /** The floating-point library the formulas call. */
    const math: Math
    /** The instance dictionary: which `_name` slots are materialised, and their values. */
    var cache: Dict

    /** Every slot holds one entry per body, and `_rrdot` is never stored:
        it has no setter and its getter computes without caching. */
    ghost predicate Valid()
      reads this
    {
      && RRDot !in cache.scalars
      && (forall k :: k in cache.scalars ==> |cache.scalars[k]| == size)
      && (forall k :: k in cache.vectors ==> |cache.vectors[k]| == size)
    }

    function S(k: ScalarSlot): seq<real>
      reads this
      requires k in cache.scalars
    {
      cache.scalars[k]
    }

    function V(k: VectorSlot): seq<Vec3>
      reads this
      requires k in cache.vectors
    {
      cache.vectors[k]
    }

    /** The memo discipline of a scalar getter for slot `k` that started from
        dictionary `c0`: without fuel it is a RecursionError and nothing
        changes; a slot already present is returned as stored and nothing
        changes; a successful read leaves its result in the slot. */
    ghost predicate MemoS(k: ScalarSlot, c0: Dict, fuel: nat, r: Result<seq<real>>)
      reads this
    {
      && (fuel == 0 ==> r == Err(RecursionLimit) && cache == c0)
      && (0 < fuel && k in c0.scalars ==> r == Ok(c0.scalars[k]) && cache == c0)
      && (r.Ok? ==> k in cache.scalars && cache.scalars[k] == r.value)
    }

    /** The same discipline for a getter of a vector slot. */
    ghost predicate MemoV(k: VectorSlot, c0: Dict, fuel: nat, r: Result<seq<Vec3>>)
      reads this
    {
      && (fuel == 0 ==> r == Err(RecursionLimit) && cache == c0)
      && (0 < fuel && k in c0.vectors ==> r == Ok(c0.vectors[k]) && cache == c0)
      && (r.Ok? ==> k in cache.vectors && cache.vectors[k] == r.value)
    }

    /** A batch of `size` bodies whose dictionary starts as `initial`. */
    constructor (size: nat, epoch: real, cls: FrameState, math: Math, initial: Dict)
      requires RRDot !in initial.scalars
      requires forall k :: k in initial.scalars ==> |initial.scalars[k]| == size
      requires forall k :: k in initial.vectors ==> |initial.vectors[k]| == size
      ensures Valid()
      ensures this.size == size && this.epoch == epoch && this.cls == cls && this.math == math
      ensures cache == initial
    {
      this.size, this.epoch, this.cls, this.math := size, epoch, cls, math;
      cache := initial;
    }

    // ---- setters, deleters, clear_kep ----

    /** The property setter of a scalar: store `s` in slot `k`, touching no other slot. */
    method SetScalar(k: ScalarSlot, s: seq<real>)
      requires Valid() && IsSettable(k) && |s| == size
      modifies this
      ensures Valid()
      ensures cache == old(cache).(scalars := old(cache).scalars[k := s])
    {
      cache := cache.(scalars := cache.scalars[k := s]);
    }

    /** The property setter of a vector: store `w` in slot `k`, touching no other slot. */
    method SetVector(k: VectorSlot, w: seq<Vec3>)
      requires Valid() && |w| == size
      modifies this
      ensures Valid()
      ensures cache == old(cache).(vectors := old(cache).vectors[k := w])
    {
      cache := cache.(vectors := cache.vectors[k := w]);
    }

    /** The property deleter: `del self._name`, an AttributeError when the slot is absent. */
    method Delete(n: Name) returns (r: Result<()>)
      requires Valid() && !(n.Sc? && !IsSettable(n.s))
      modifies this
      ensures Valid()
      ensures old(cache).Has(n) <==> r.Ok?
      ensures r.Err? ==> r.error == Missing(n)
      ensures cache == old(cache).Pop(n)
    {
      if !cache.Has(n) {
        return Err(Missing(n));
      }
      cache := cache.Pop(n);
      return Ok(());
    }

    /** `clear_kep`: pop every name of its list; the Cartesian components are
        the only slots that survive, with their values. */
    method ClearKep()
      requires Valid()
      modifies this
      ensures Valid()
      ensures cache == Dict(CartesianPart(old(cache).scalars), map[])
    {
      var i := 0;
      while i < |KEPLER_NAMES|
        invariant 0 <= i <= |KEPLER_NAMES|
        invariant forall n :: cache.Has(n) <==> old(cache).Has(n) && n !in KEPLER_NAMES[..i]
        invariant Keeps(cache.scalars, old(cache).scalars) && Keeps(cache.vectors, old(cache).vectors)
      {
        cache := cache.Pop(KEPLER_NAMES[i]);
        i := i + 1;
      }
      assert KEPLER_NAMES[..i] == KEPLER_NAMES;
      forall k
        ensures k in cache.scalars <==> k in old(cache).scalars && IsCartesian(k)
      {
        KeplerNamesComplement(Sc(k));
        assert cache.Has(Sc(k)) <==> old(cache).Has(Sc(k)) && Sc(k) !in KEPLER_NAMES;
      }
      forall k
        ensures k !in cache.vectors
      {
        KeplerNamesComplement(Ve(k));
        assert cache.Has(Ve(k)) <==> old(cache).Has(Ve(k)) && Ve(k) !in KEPLER_NAMES;
      }
    }

    // ---- frame changes ----

    /** `to_bary`: when the class frame is heliocentric, move this batch's
        origin from the sun to the barycentre and switch the class frame and
        `mu`; any other frame leaves everything as it is. The frame and `mu`
        are switched for every batch, since they belong to the class. */
    method ToBary(eph: Ephemeris, fuel: nat) returns (r: Result<()>)
      requires Valid()
      modifies this, cls
      ensures Valid()
      ensures old(cls.frame) != Heliocentric ==>
        r == Ok(()) && cache == old(cache) && cls.frame == old(cls.frame) && cls.mu == old(cls.mu)
      ensures old(cls.frame) == Heliocentric && r.Ok? ==>
        cls.frame == Barycentric && cls.mu == cls.muBary && Reframed(old(cache), cache, 1.0, SunAt(eph, epoch))
      ensures r.Err? ==> cls.frame == old(cls.frame) && cls.mu == old(cls.mu)
      ensures 0 < fuel && HasCartesian(old(cache)) ==> r.Ok?
    {
      if cls.frame == Heliocentric {
        r := MoveOrigin(1.0, SunAt(eph, epoch), fuel);
        if r.Ok? {
          cls.frame := Barycentric;
          cls.mu := cls.muBary;
        }
      } else {
        r := Ok(());
      }
    }

    /** `to_helio`: the inverse move, from the barycentre to the sun, when the
        class frame is barycentric. */
    method ToHelio(eph: Ephemeris, fuel: nat) returns (r: Result<()>)
      requires Valid()
      modifies this, cls
      ensures Valid()
      ensures old(cls.frame) != Barycentric ==>
        r == Ok(()) && cache == old(cache) && cls.frame == old(cls.frame) && cls.mu == old(cls.mu)
      ensures old(cls.frame) == Barycentric && r.Ok? ==>
        cls.frame == Heliocentric && cls.mu == cls.muHelio && Reframed(old(cache), cache, -1.0, SunAt(eph, epoch))
      ensures r.Err? ==> cls.frame == old(cls.frame) && cls.mu == old(cls.mu)
      ensures 0 < fuel && HasCartesian(old(cache)) ==> r.Ok?
    {
      if cls.frame == Barycentric {
        r := MoveOrigin(-1.0, SunAt(eph, epoch), fuel);
        if r.Ok? {
          cls.frame := Heliocentric;
          cls.mu := cls.muHelio;
        }
      } else {
        r := Ok(());
      }
    }

    /** The common body of the two frame changes: `self.x += x_sun` (or `-=`)
        for the six components in order, `clear_kep`, then both state vectors
        rebuilt from the components. A failed read stops the change part-way,
        as the exception would. */
    method MoveOrigin(sign: real, sun: SunState, fuel: nat) returns (r: Result<()>)
      requires Valid()
      modifies this
      ensures Valid()
      ensures r.Ok? ==> Reframed(old(cache), cache, sign, sun)
      ensures 0 < fuel && HasCartesian(old(cache)) ==> r.Ok?
    {
      ghost var c0 := cache;
      var sp := ShiftTriple(X, Y, Z, sign, sun, fuel);
      match sp {
      case Err(err) => r := Err(err);
      case Ok(_) =>
        ghost var c1 := cache;
        var sv := ShiftTriple(VX, VY, VZ, sign, sun, fuel);
        match sv {
        case Err(err) => r := Err(err);
        case Ok(_) =>
          ghost var c2 := cache;
          RebuildStateVectors();
          OriginSteps(c0, c1, c2, cache, sign, sun);
          r := Ok(());
        }
      }
    }

    /** Three of the components shifted in turn, each by its part of the sun's
        state. */
    method ShiftTriple(a: ScalarSlot, b: ScalarSlot, c: ScalarSlot, sign: real, sun: SunState, fuel: nat)
      returns (r: Result<()>)
      requires Valid() && IsCartesian(a) && IsCartesian(b) && IsCartesian(c)
      requires a != b && b != c && a != c
      modifies this
      ensures Valid() && ExtendsExceptAll(old(cache), cache, {a, b, c})
      ensures r.Ok? ==> Moved(old(cache), cache, a, sign, sun) && Moved(old(cache), cache, b, sign, sun)
                        && Moved(old(cache), cache, c, sign, sun)
      ensures (0 < fuel && a in old(cache).scalars && b in old(cache).scalars && c in old(cache).scalars) ==>
        r.Ok?
    {
      ghost var c0 := cache;
      var sa := ShiftCoordinate(a, sign, sun, fuel);
      ghost var c1 := cache;
      match sa {
      case Err(err) => r := Err(err);
      case Ok(_) =>
        r := ShiftPair(b, c, sign, sun, fuel);
        TripleSteps(c0, c1, cache, a, b, c, sign, sun, r.Ok?);
      }
    }

    /** Two of the components shifted in turn. */
    method ShiftPair(a: ScalarSlot, b: ScalarSlot, sign: real, sun: SunState, fuel: nat)
      returns (r: Result<()>)
      requires Valid() && IsCartesian(a) && IsCartesian(b) && a != b
      modifies this
      ensures Valid() && ExtendsExceptAll(old(cache), cache, {a, b})
      ensures r.Ok? ==> Moved(old(cache), cache, a, sign, sun) && Moved(old(cache), cache, b, sign, sun)
      ensures (0 < fuel && a in old(cache).scalars && b in old(cache).scalars) ==> r.Ok?
    {
      ghost var c0 := cache;
      var sa := ShiftCoordinate(a, sign, sun, fuel);
      ghost var c1 := cache;
      match sa {
      case Err(err) => r := Err(err);
      case Ok(_) =>
        r := ShiftCoordinate(b, sign, sun, fuel);
        PairSteps(c0, c1, cache, a, b, sign, sun, r.Ok?);
      }
    }

    /** One `self.k += d` for the sun's part `d`: the getter's value, moved,
        stored back. */
    method ShiftCoordinate(k: ScalarSlot, sign: real, sun: SunState, fuel: nat) returns (r: Result<()>)
      requires Valid() && IsCartesian(k)
      modifies this
      ensures Valid() && ExtendsExceptAll(old(cache), cache, {k})
      ensures r.Ok? ==> Moved(old(cache), cache, k, sign, sun)
      ensures 0 < fuel && k in old(cache).scalars ==> r.Ok?
    {
      var x := GetCoordinate(k, fuel);
      match x {
      case Err(err) => r := Err(err);
      case Ok(_) =>
        SetScalar(k, Offsets(x.value, sign * SunOffset(k, sun)));
        r := Ok(());
      }
    }

    /** The end of a frame change: `clear_kep()`, then `self.position =
        Vector(self.x, self.y, self.z)` and the same for the velocity. The six
        components are present, so their getters return them as stored. */
    method RebuildStateVectors()
      requires Valid() && HasCartesian(cache)
      modifies this
      ensures Valid()
      ensures cache.scalars == CartesianPart(old(cache).scalars)
      ensures cache.vectors == map[Position := Assemble(S(X), S(Y), S(Z)), Velocity := Assemble(S(VX), S(VY), S(VZ))]
    {
      ClearKep();
      SetVector(Position, Assemble(cache.scalars[X], cache.scalars[Y], cache.scalars[Z]));
      SetVector(Velocity, Assemble(cache.scalars[VX], cache.scalars[VY], cache.scalars[VZ]));
    }

    // ---- vector quantities ----
    //
    // Every getter has one exit: a failed read of another quantity is passed
    // on as the getter's own result (the exception propagating), with nothing
    // stored for this slot.

    /** `ovec`: the position in the orbital plane from r and the true anomaly. */
    method GetOVec(fuel: nat) returns (r: Result<seq<Vec3>>)
      requires Valid()
      modifies this
      decreases fuel, 0
      ensures Valid() && Extends(old(cache), cache) && MemoV(OVec, old(cache), fuel, r)
      ensures r.Ok? && OVec !in old(cache).vectors ==>
        R in cache.scalars && TrueAnomaly in cache.scalars &&
        forall i {:trigger PlanePosition(math, S(R)[i], S(TrueAnomaly)[i])} :: 0 <= i < size ==> r.value[i] == PlanePosition(math, S(R)[i], S(TrueAnomaly)[i])
    {
      if fuel == 0 {
        r := Err(RecursionLimit);
      } else if OVec in cache.vectors {
        r := Ok(cache.vectors[OVec]);
      } else {
        var rad := GetR(fuel - 1);
        match rad {
        case Err(err) => r := Err(err);
        case Ok(_) =>
          var nu := GetTrueAnomaly(fuel - 1);
          match nu {
          case Err(err) => r := Err(err);
          case Ok(_) =>
            var w := PlanePositions(math, rad.value, nu.value);
            SetVector(OVec, w);
            r := Ok(w);
          }
        }
      }
    }

    /** `vovec`: the velocity in the orbital plane from a, r, E and e. */
    method GetVOVec(fuel: nat) returns (r: Result<seq<Vec3>>)
      requires Valid()
      modifies this
      decreases fuel, 0
      ensures Valid() && Extends(old(cache), cache) && MemoV(VOVec, old(cache), fuel, r)
      ensures r.Ok? && VOVec !in old(cache).vectors ==>
        A in cache.scalars && R in cache.scalars && E in cache.scalars && Ecc in cache.scalars &&
        forall i {:trigger PlaneVelocity(math, cls.mu, S(A)[i], S(R)[i], S(E)[i], S(Ecc)[i])} :: 0 <= i < size ==>
          r.value[i] == PlaneVelocity(math, cls.mu, S(A)[i], S(R)[i], S(E)[i], S(Ecc)[i])
    {
      if fuel == 0 {
        r := Err(RecursionLimit);
      } else if VOVec in cache.vectors {
        r := Ok(cache.vectors[VOVec]);
      } else {
        var a := GetA(fuel - 1);
        match a {
        case Err(err) => r := Err(err);
        case Ok(_) =>
          ghost var c := cache;
          var rad := GetR(fuel - 1);
          ExtendsTrans(old(cache), c, cache);
          match rad {
          case Err(err) => r := Err(err);
          case Ok(_) =>
            ghost var c := cache;
            var ea := GetE(fuel - 1);
            ExtendsTrans(old(cache), c, cache);
            match ea {
            case Err(err) => r := Err(err);
            case Ok(_) =>
              ghost var c := cache;
              var e := GetEcc(fuel - 1);
              ExtendsTrans(old(cache), c, cache);
              match e {
              case Err(err) => r := Err(err);
              case Ok(_) =>
                var mu := cls.mu;
                var w := PlaneVelocities(math, mu, a.value, rad.value, ea.value, e.value);
                SetVector(VOVec, w);
                r := Ok(w);
              }
            }
          }
        }
      }
    }

    /** `nvec`: the node vector (-h.y, h.x, 0) of each body. */
    method GetNVec(fuel: nat) returns (r: Result<seq<Vec3>>)
      requires Valid()
      modifies this
      decreases fuel, 0
      ensures Valid() && Extends(old(cache), cache) && MemoV(NVec, old(cache), fuel, r)
      ensures r.Ok? && NVec !in old(cache).vectors ==>
        HVec in cache.vectors &&
        forall i {:trigger NodeVector(V(HVec)[i])} :: 0 <= i < size ==> r.value[i] == NodeVector(V(HVec)[i])
      ensures HasStateVectors(old(cache)) ==> r.Ok? || r.error == RecursionLimit
      ensures HasStateVectors(old(cache)) ==> cache.scalars == old(cache).scalars
    {
      if fuel == 0 {
        r := Err(RecursionLimit);
      } else if NVec in cache.vectors {
        r := Ok(cache.vectors[NVec]);
      } else {
        var h := GetHVec(fuel - 1);
        match h {
        case Err(err) => r := Err(err);
        case Ok(_) =>
          var w := NodeVectors(h.value);
          SetVector(NVec, w);
          r := Ok(w);
        }
      }
    }

    /** `evec`: the eccentricity vector v x h / mu - r / |r|. */
    method GetEVec(fuel: nat) returns (r: Result<seq<Vec3>>)
      requires Valid()
      modifies this
      decreases fuel, 0
      ensures Valid() && Extends(old(cache), cache) && MemoV(EVec, old(cache), fuel, r)
      ensures r.Ok? && EVec !in old(cache).vectors ==>
        HasStateVectors(cache) && HVec in cache.vectors &&
        forall i {:trigger EccentricityVector(math, cls.mu, V(Position)[i], V(Velocity)[i], V(HVec)[i])} :: 0 <= i < size ==>
          r.value[i] == EccentricityVector(math, cls.mu, V(Position)[i], V(Velocity)[i], V(HVec)[i])
    {
      if fuel == 0 {
        r := Err(RecursionLimit);
      } else if EVec in cache.vectors {
        r := Ok(cache.vectors[EVec]);
      } else {
        var v := GetVelocity(fuel - 1);
        match v {
        case Err(err) => r := Err(err);
        case Ok(_) =>
          var h := GetHVec(fuel - 1);
          match h {
          case Err(err) => r := Err(err);
          case Ok(_) =>
            var p := GetPosition(fuel - 1);
            match p {
            case Err(err) => r := Err(err);
            case Ok(_) =>
              var mu := cls.mu;
              var w := EccentricityVectors(math, mu, p.value, v.value, h.value);
              SetVector(EVec, w);
              r := Ok(w);
            }
          }
        }
      }
    }

    /** `hvec`: the specific angular momentum r x v. */
    method GetHVec(fuel: nat) returns (r: Result<seq<Vec3>>)
      requires Valid()
      modifies this
      decreases fuel, 0
      ensures Valid() && Extends(old(cache), cache) && MemoV(HVec, old(cache), fuel, r)
      ensures r.Ok? && HVec !in old(cache).vectors ==>
        HasStateVectors(cache) &&
        forall i {:trigger Cross(V(Position)[i], V(Velocity)[i])} :: 0 <= i < size ==> r.value[i] == Cross(V(Position)[i], V(Velocity)[i])
      ensures HasStateVectors(old(cache)) ==> r.Ok? || r.error == RecursionLimit
      ensures HasStateVectors(old(cache)) ==> cache.scalars == old(cache).scalars
    {
      if fuel == 0 {
        r := Err(RecursionLimit);
      } else if HVec in cache.vectors {
        r := Ok(cache.vectors[HVec]);
      } else {
        var p := GetPosition(fuel - 1);
        match p {
        case Err(err) => r := Err(err);
        case Ok(_) =>
          var v := GetVelocity(fuel - 1);
          match v {
          case Err(err) => r := Err(err);
          case Ok(_) =>
            var w := CrossProducts(p.value, v.value);
            SetVector(HVec, w);
            r := Ok(w);
          }
        }
      }
    }

    /** Both components of a state vector are given by three scalar slots. */
    static predicate HasComponents(c: Dict, k: VectorSlot) {
      if k == Position then X in c.scalars && Y in c.scalars && Z in c.scalars
      else VX in c.scalars && VY in c.scalars && VZ in c.scalars
    }

    /** `position`: from x, y, z when all three slots are present, otherwise
        `ovec` rotated by (arg, inc, node). */
    method GetPosition(fuel: nat) returns (r: Result<seq<Vec3>>)
      requires Valid()
      modifies this
      decreases fuel, 0
      ensures Valid() && Extends(old(cache), cache) && MemoV(Position, old(cache), fuel, r)
      ensures r.Ok? && Position !in old(cache).vectors && HasComponents(old(cache), Position) ==>
        forall i {:trigger Vec3(S(X)[i], S(Y)[i], S(Z)[i])} :: 0 <= i < size ==> r.value[i] == Vec3(S(X)[i], S(Y)[i], S(Z)[i])
      ensures r.Ok? && Position !in old(cache).vectors && !HasComponents(old(cache), Position) ==>
        OVec in cache.vectors && Arg in cache.scalars && Inc in cache.scalars && Node in cache.scalars &&
        forall i {:trigger Rotate(math, V(OVec)[i], S(Arg)[i], S(Inc)[i], S(Node)[i])} :: 0 <= i < size ==> r.value[i] == Rotate(math, V(OVec)[i], S(Arg)[i], S(Inc)[i], S(Node)[i])
    {
      if fuel == 0 {
        r := Err(RecursionLimit);
      } else if Position in cache.vectors {
        r := Ok(cache.vectors[Position]);
      } else if HasComponents(cache, Position) {
        r := PositionFromComponents(fuel - 1);
      } else {
        r := StateFromOrbit(Position, fuel - 1);
      }
    }

    /** `velocity`: from vx, vy, vz when all three slots are present, otherwise
        `vovec` rotated by (arg, inc, node). */
    method GetVelocity(fuel: nat) returns (r: Result<seq<Vec3>>)
      requires Valid()
      modifies this
      decreases fuel, 0
      ensures Valid() && Extends(old(cache), cache) && MemoV(Velocity, old(cache), fuel, r)
      ensures r.Ok? && Velocity !in old(cache).vectors && HasComponents(old(cache), Velocity) ==>
        forall i {:trigger Vec3(S(VX)[i], S(VY)[i], S(VZ)[i])} :: 0 <= i < size ==> r.value[i] == Vec3(S(VX)[i], S(VY)[i], S(VZ)[i])
      ensures r.Ok? && Velocity !in old(cache).vectors && !HasComponents(old(cache), Velocity) ==>
        VOVec in cache.vectors && Arg in cache.scalars && Inc in cache.scalars && Node in cache.scalars &&
        forall i {:trigger Rotate(math, V(VOVec)[i], S(Arg)[i], S(Inc)[i], S(Node)[i])} :: 0 <= i < size ==> r.value[i] == Rotate(math, V(VOVec)[i], S(Arg)[i], S(Inc)[i], S(Node)[i])
    {
      if fuel == 0 {
        r := Err(RecursionLimit);
      } else if Velocity in cache.vectors {
        r := Ok(cache.vectors[Velocity]);
      } else if HasComponents(cache, Velocity) {
        r := VelocityFromComponents(fuel - 1);
      } else {
        r := StateFromOrbit(Velocity, fuel - 1);
      }
    }

    /** The first rule of `position`: `Vector(self.x, self.y, self.z)`, stored. */
    method PositionFromComponents(fuel: nat) returns (r: Result<seq<Vec3>>)
      requires Valid() && Position !in cache.vectors && HasComponents(cache, Position)
      modifies this
      decreases fuel, 1
      ensures Valid() && Extends(old(cache), cache)
      ensures r.Ok? ==>
        Position in cache.vectors && cache.vectors[Position] == r.value &&
        forall i {:trigger Vec3(S(X)[i], S(Y)[i], S(Z)[i])} :: 0 <= i < size ==> r.value[i] == Vec3(S(X)[i], S(Y)[i], S(Z)[i])
    {
      var x := GetCoordinate(X, fuel);
      match x {
      case Err(err) => r := Err(err);
      case Ok(_) =>
        var y := GetCoordinate(Y, fuel);
        match y {
        case Err(err) => r := Err(err);
        case Ok(_) =>
          var z := GetCoordinate(Z, fuel);
          match z {
          case Err(err) => r := Err(err);
          case Ok(_) =>
            var w := Assemble(x.value, y.value, z.value);
            SetVector(Position, w);
            r := Ok(w);
          }
        }
      }
    }

    /** The first rule of `velocity`: `Vector(self.vx, self.vy, self.vz)`, stored. */
    method VelocityFromComponents(fuel: nat) returns (r: Result<seq<Vec3>>)
      requires Valid() && Velocity !in cache.vectors && HasComponents(cache, Velocity)
      modifies this
      decreases fuel, 1
      ensures Valid() && Extends(old(cache), cache)
      ensures r.Ok? ==>
        Velocity in cache.vectors && cache.vectors[Velocity] == r.value &&
        forall i {:trigger Vec3(S(VX)[i], S(VY)[i], S(VZ)[i])} :: 0 <= i < size ==> r.value[i] == Vec3(S(VX)[i], S(VY)[i], S(VZ)[i])
    {
      var x := GetCoordinate(VX, fuel);
      match x {
      case Err(err) => r := Err(err);
      case Ok(_) =>
        var y := GetCoordinate(VY, fuel);
        match y {
        case Err(err) => r := Err(err);
        case Ok(_) =>
          var z := GetCoordinate(VZ, fuel);
          match z {
          case Err(err) => r := Err(err);
          case Ok(_) =>
            var w := Assemble(x.value, y.value, z.value);
            SetVector(Velocity, w);
            r := Ok(w);
          }
        }
      }
    }

    /** The second rule of `position` and `velocity`: the in-plane vector
        (`ovec` or `vovec`) rotated by (arg, inc, node), stored in slot `k`. */
    method StateFromOrbit(k: VectorSlot, fuel: nat) returns (r: Result<seq<Vec3>>)
      requires Valid() && (k == Position || k == Velocity) && k !in cache.vectors
      modifies this
      decreases fuel, 2
      ensures Valid() && Extends(old(cache), cache)
      ensures r.Ok? ==>
        k in cache.vectors && cache.vectors[k] == r.value &&
        PlaneSlot(k) in cache.vectors && Arg in cache.scalars && Inc in cache.scalars && Node in cache.scalars &&
        forall i {:trigger Rotate(math, V(PlaneSlot(k))[i], S(Arg)[i], S(Inc)[i], S(Node)[i])} :: 0 <= i < size ==>
          r.value[i] == Rotate(math, V(PlaneSlot(k))[i], S(Arg)[i], S(Inc)[i], S(Node)[i])
    {
      var o;
      if k == Position {
        o := GetOVec(fuel);
      } else {
        o := GetVOVec(fuel);
      }
      match o {
      case Err(err) => r := Err(err);
      case Ok(_) =>
        var arg := GetArg(fuel);
        match arg {
        case Err(err) => r := Err(err);
        case Ok(_) =>
          ghost var c1 := cache;
          r := RotatePlaneVector(k, fuel);
          ExtendsThroughExceptVector(old(cache), c1, cache, k);
        }
      }
    }

    /** The rest of that rule once the in-plane vector and `arg` have been
        read: read `inc` and `node`, rotate, store in slot `k`. */
    method RotatePlaneVector(k: VectorSlot, fuel: nat) returns (r: Result<seq<Vec3>>)
      requires Valid() && (k == Position || k == Velocity) && PlaneSlot(k) in cache.vectors && Arg in cache.scalars
      modifies this
      decreases fuel, 1
      ensures Valid() && ExtendsExceptVector(old(cache), cache, k)
      ensures r.Ok? ==>
        k in cache.vectors && cache.vectors[k] == r.value && Inc in cache.scalars && Node in cache.scalars &&
        forall i {:trigger Rotate(math, V(PlaneSlot(k))[i], S(Arg)[i], S(Inc)[i], S(Node)[i])} :: 0 <= i < size ==>
          r.value[i] == Rotate(math, V(PlaneSlot(k))[i], S(Arg)[i], S(Inc)[i], S(Node)[i])
    {
      var o := cache.vectors[PlaneSlot(k)];
      var arg := cache.scalars[Arg];
      var inc := GetInc(fuel);
      match inc {
      case Err(err) => r := Err(err);
      case Ok(_) =>
        var node := GetNode(fuel);
        match node {
        case Err(err) => r := Err(err);
        case Ok(_) =>
          var w := Rotations(math, o, arg, inc.value, node.value);
          SetVector(k, w);
          r := Ok(w);
        }
      }
    }

    // ---- Cartesian elements ----

    /** `x`, `y`, `z`, `vx`, `vy`, `vz`: the component of position or velocity. */
    method GetCoordinate(k: ScalarSlot, fuel: nat) returns (r: Result<seq<real>>)
      requires Valid() && IsCartesian(k)
      modifies this
      decreases fuel, 0
      ensures Valid() && ExtendsExceptAll(old(cache), cache, {k}) && MemoS(k, old(cache), fuel, r)
      ensures r.Ok? && k !in old(cache).scalars ==>
        StateSlot(k) in cache.vectors && r.value == Components(k, V(StateSlot(k)))
    {
      if fuel == 0 {
        r := Err(RecursionLimit);
      } else if k in cache.scalars {
        r := Ok(cache.scalars[k]);
      } else {
        var w;
        if StateSlot(k) == Position {
          w := GetPosition(fuel - 1);
        } else {
          w := GetVelocity(fuel - 1);
        }
        match w {
        case Err(err) => r := Err(err);
        case Ok(_) =>
          var c := Components(k, w.value);
          SetScalar(k, c);
          r := Ok(c);
        }
      }
    }

    // ---- required Keplerian elements ----

    /** `a` by the vis-viva equation. */
    method GetA(fuel: nat) returns (r: Result<seq<real>>)
      requires Valid()
      modifies this
      decreases fuel, 0
      ensures Valid() && Extends(old(cache), cache) && MemoS(A, old(cache), fuel, r)
      ensures r.Ok? && A !in old(cache).scalars ==>
        HasStateVectors(cache) &&
        forall i {:trigger VisViva(math, cls.mu, V(Position)[i], V(Velocity)[i])} :: 0 <= i < size ==> r.value[i] == VisViva(math, cls.mu, V(Position)[i], V(Velocity)[i])
    {
      if fuel == 0 {
        r := Err(RecursionLimit);
      } else if A in cache.scalars {
        r := Ok(cache.scalars[A]);
      } else {
        var p := GetPosition(fuel - 1);
        match p {
        case Err(err) => r := Err(err);
        case Ok(_) =>
          var v := GetVelocity(fuel - 1);
          match v {
          case Err(err) => r := Err(err);
          case Ok(_) =>
            var mu := cls.mu;
            var a := VisVivas(math, mu, p.value, v.value);
            SetScalar(A, a);
            r := Ok(a);
          }
        }
      }
    }

    /** `e`: the length of the eccentricity vector. */
    method GetEcc(fuel: nat) returns (r: Result<seq<real>>)
      requires Valid()
      modifies this
      decreases fuel, 0
      ensures Valid() && Extends(old(cache), cache) && MemoS(Ecc, old(cache), fuel, r)
      ensures r.Ok? && Ecc !in old(cache).scalars ==>
        EVec in cache.vectors &&
        forall i {:trigger Norm(math, V(EVec)[i])} :: 0 <= i < size ==> r.value[i] == Norm(math, V(EVec)[i])
    {
      if fuel == 0 {
        r := Err(RecursionLimit);
      } else if Ecc in cache.scalars {
        r := Ok(cache.scalars[Ecc]);
      } else {
        var ev := GetEVec(fuel - 1);
        match ev {
        case Err(err) => r := Err(err);
        case Ok(_) =>
          var e := Norms(math, ev.value);
          SetScalar(Ecc, e);
          r := Ok(e);
        }
      }
    }

    /** `inc`: arccos(h.z / |h|). */
    method GetInc(fuel: nat) returns (r: Result<seq<real>>)
      requires Valid()
      modifies this
      decreases fuel, 0
      ensures Valid() && Extends(old(cache), cache) && MemoS(Inc, old(cache), fuel, r)
      ensures r.Ok? && Inc !in old(cache).scalars ==>
        HVec in cache.vectors &&
        forall i {:trigger Inclination(math, V(HVec)[i])} :: 0 <= i < size ==> r.value[i] == Inclination(math, V(HVec)[i])
      ensures HasStateVectors(old(cache)) ==> r.Ok? || r.error == RecursionLimit
      ensures HasStateVectors(old(cache)) ==> cache.scalars.Keys <= old(cache).scalars.Keys + {Inc}
    {
      if fuel == 0 {
        r := Err(RecursionLimit);
      } else if Inc in cache.scalars {
        r := Ok(cache.scalars[Inc]);
      } else {
        var h := GetHVec(fuel - 1);
        match h {
        case Err(err) => r := Err(err);
        case Ok(_) =>
          var inc := Inclinations(math, h.value);
          SetScalar(Inc, inc);
          r := Ok(inc);
        }
      }
    }

    // ---- the node / arg / varpi choice ----

    /** `node`: (varpi - arg) mod 2*pi when both are present, else from the node
        vector when both state vectors are present, else an AttributeError. */
    method GetNode(fuel: nat) returns (r: Result<seq<real>>)
      requires Valid()
      modifies this
      decreases fuel, 0
      ensures Valid() && Extends(old(cache), cache) && MemoS(Node, old(cache), fuel, r)
      ensures r.Ok? && Node !in old(cache).scalars && Varpi in old(cache).scalars && Arg in old(cache).scalars ==>
        forall i {:trigger AngleDifference(S(Varpi)[i], S(Arg)[i])} :: 0 <= i < size ==> r.value[i] == AngleDifference(S(Varpi)[i], S(Arg)[i])
      ensures r.Ok? && Node !in old(cache).scalars && !(Varpi in old(cache).scalars && Arg in old(cache).scalars) ==>
        HasStateVectors(old(cache)) && Inc in cache.scalars && NVec in cache.vectors &&
        forall i {:trigger NodeFromNodeVector(math, S(Inc)[i], V(NVec)[i])} :: 0 <= i < size ==> r.value[i] == NodeFromNodeVector(math, S(Inc)[i], V(NVec)[i])
      ensures (0 < fuel && Node !in old(cache).scalars && !(Varpi in old(cache).scalars && Arg in old(cache).scalars) &&
               !HasStateVectors(old(cache))) ==>
        r == Err(Missing(Sc(Node))) && cache == old(cache)
      ensures HasStateVectors(old(cache)) ==> r.Ok? || r.error == RecursionLimit
      ensures Arg !in old(cache).scalars ==> Arg !in cache.scalars
    {
      if fuel == 0 {
        r := Err(RecursionLimit);
      } else if Node in cache.scalars {
        r := Ok(cache.scalars[Node]);
      } else if Varpi in cache.scalars && Arg in cache.scalars {
        var varpi := GetVarpi(fuel - 1);
        match varpi {
        case Err(err) => r := Err(err);
        case Ok(_) =>
          var arg := GetArg(fuel - 1);
          match arg {
          case Err(err) => r := Err(err);
          case Ok(_) =>
            var node := AngleDifferences(varpi.value, arg.value);
            SetScalar(Node, node);
            r := Ok(node);
          }
        }
      } else if HasStateVectors(cache) {
        var inc := GetInc(fuel - 1);
        match inc {
        case Err(err) => r := Err(err);
        case Ok(_) =>
          var nv := GetNVec(fuel - 1);
          match nv {
          case Err(err) => r := Err(err);
          case Ok(_) =>
            var node := NodesFromNodeVectors(math, inc.value, nv.value);
            SetScalar(Node, node);
            r := Ok(node);
          }
        }
      } else {
        r := Err(Missing(Sc(Node)));
      }
    }

    /** `arg`: (varpi - node) mod 2*pi when varpi is present and the node getter
        succeeds (`hasattr(self, 'node')` runs it and reads an AttributeError as
        false), else from the node and eccentricity vectors when both state
        vectors are present, else an AttributeError. */
    method GetArg(fuel: nat) returns (r: Result<seq<real>>)
      requires Valid()
      modifies this
      decreases fuel, 0
      ensures Valid() && Extends(old(cache), cache) && MemoS(Arg, old(cache), fuel, r)
      ensures (r.Ok? && Arg !in old(cache).scalars && Varpi in old(cache).scalars &&
               (Node in old(cache).scalars || HasStateVectors(old(cache)))) ==>
        Node in cache.scalars &&
        forall i {:trigger AngleDifference(S(Varpi)[i], S(Node)[i])} :: 0 <= i < size ==> r.value[i] == AngleDifference(S(Varpi)[i], S(Node)[i])
      ensures r.Ok? && Arg !in old(cache).scalars && Varpi !in old(cache).scalars ==>
        HasStateVectors(old(cache)) && NVec in cache.vectors && Ecc in cache.scalars && EVec in cache.vectors &&
        forall i {:trigger ArgFromVectors(math, S(Ecc)[i], V(NVec)[i], V(EVec)[i])} :: 0 <= i < size ==> r.value[i] == ArgFromVectors(math, S(Ecc)[i], V(NVec)[i], V(EVec)[i])
      ensures 1 < fuel && Arg !in old(cache).scalars && !HasStateVectors(old(cache)) &&
              !(Varpi in old(cache).scalars && Node in old(cache).scalars) ==>
        r == Err(Missing(Sc(Arg))) && cache == old(cache)
    {
      if fuel == 0 {
        r := Err(RecursionLimit);
      } else if Arg in cache.scalars {
        r := Ok(cache.scalars[Arg]);
      } else {
        var probe: Result<seq<real>> := Err(Missing(Sc(Node)));
        if Varpi in cache.scalars {
          probe := GetNode(fuel - 1);
        }
        if probe.Err? && !probe.error.Missing? {
          r := Err(probe.error);
        } else if probe.Ok? {
          r := ArgFromNode(fuel - 1);
        } else if HasStateVectors(cache) {
          r := ArgFromStateVectors(fuel - 1);
        } else {
          r := Err(Missing(Sc(Arg)));
        }
      }
    }

    /** The first rule of `arg`, once `hasattr(self, 'node')` has succeeded. */
    method ArgFromNode(fuel: nat) returns (r: Result<seq<real>>)
      requires Valid() && Arg !in cache.scalars && Varpi in cache.scalars && Node in cache.scalars
      modifies this
      decreases fuel, 1
      ensures Valid() && Extends(old(cache), cache)
      ensures r.Ok? ==>
        Arg in cache.scalars && cache.scalars[Arg] == r.value &&
        forall i {:trigger AngleDifference(S(Varpi)[i], S(Node)[i])} :: 0 <= i < size ==> r.value[i] == AngleDifference(S(Varpi)[i], S(Node)[i])
    {
      var varpi := GetVarpi(fuel);
      match varpi {
      case Err(err) => r := Err(err);
      case Ok(_) =>
        var node := GetNode(fuel);
        match node {
        case Err(err) => r := Err(err);
        case Ok(_) =>
          var arg := AngleDifferences(varpi.value, node.value);
          SetScalar(Arg, arg);
          r := Ok(arg);
        }
      }
    }

    /** The second rule of `arg`: from the node and eccentricity vectors. */
    method ArgFromStateVectors(fuel: nat) returns (r: Result<seq<real>>)
      requires Valid() && Arg !in cache.scalars && HasStateVectors(cache)
      modifies this
      decreases fuel, 1
      ensures Valid() && Extends(old(cache), cache)
      ensures r.Ok? ==>
        Arg in cache.scalars && cache.scalars[Arg] == r.value &&
        NVec in cache.vectors && Ecc in cache.scalars && EVec in cache.vectors &&
        forall i {:trigger ArgFromVectors(math, S(Ecc)[i], V(NVec)[i], V(EVec)[i])} :: 0 <= i < size ==> r.value[i] == ArgFromVectors(math, S(Ecc)[i], V(NVec)[i], V(EVec)[i])
    {
      var nv := GetNVec(fuel);
      match nv {
      case Err(err) => r := Err(err);
      case Ok(_) =>
        var e := GetEcc(fuel);
        match e {
        case Err(err) => r := Err(err);
        case Ok(_) =>
          var ev := GetEVec(fuel);
          match ev {
          case Err(err) => r := Err(err);
          case Ok(_) =>
            var arg := ArgsFromVectors(math, e.value, nv.value, ev.value);
            SetScalar(Arg, arg);
            r := Ok(arg);
          }
        }
      }
    }

    /** `varpi`: (node + arg) mod 2*pi. */
    method GetVarpi(fuel: nat) returns (r: Result<seq<real>>)
      requires Valid()
      modifies this
      decreases fuel, 0
      ensures Valid() && Extends(old(cache), cache) && MemoS(Varpi, old(cache), fuel, r)
      ensures r.Ok? && Varpi !in old(cache).scalars ==>
        Node in cache.scalars && Arg in cache.scalars &&
        forall i {:trigger AngleSum(S(Node)[i], S(Arg)[i])} :: 0 <= i < size ==> r.value[i] == AngleSum(S(Node)[i], S(Arg)[i])
    {
      if fuel == 0 {
        r := Err(RecursionLimit);
      } else if Varpi in cache.scalars {
        r := Ok(cache.scalars[Varpi]);
      } else {
        var node := GetNode(fuel - 1);
        match node {
        case Err(err) => r := Err(err);
        case Ok(_) =>
          var arg := GetArg(fuel - 1);
          match arg {
          case Err(err) => r := Err(err);
          case Ok(_) =>
            var varpi := AngleSums(node.value, arg.value);
            SetScalar(Varpi, varpi);
            r := Ok(varpi);
          }
        }
      }
    }

    // ---- the anomaly / longitude / time-of-pericentre choice ----

    /** The slots whose presence selects the Kepler-equation rule of `M`. */
    static predicate AnomalySource(c: Dict) {
      TrueAnomaly in c.scalars || TrueLongitude in c.scalars || E in c.scalars || HasStateVectors(c)
    }

    /** `M`: from the mean longitude, else by Kepler's equation from E when an
        anomaly, the true longitude or both state vectors are present, else from
        the time of pericentre, else an AttributeError. Every derived value is
        reduced to [0, 2*pi). */
    method GetM(fuel: nat) returns (r: Result<seq<real>>)
      requires Valid()
      modifies this
      decreases fuel, 0
      ensures Valid() && Extends(old(cache), cache) && MemoS(M, old(cache), fuel, r)
      ensures r.Ok? && M !in old(cache).scalars && MeanLongitude in old(cache).scalars ==>
        Varpi in cache.scalars &&
        forall i {:trigger AngleDifference(S(MeanLongitude)[i], S(Varpi)[i])} :: 0 <= i < size ==> r.value[i] == AngleDifference(S(MeanLongitude)[i], S(Varpi)[i])
      ensures r.Ok? && M !in old(cache).scalars && MeanLongitude !in old(cache).scalars && AnomalySource(old(cache)) ==>
        Ecc in cache.scalars && E in cache.scalars &&
        forall i {:trigger MeanFromEcc(math, S(Ecc)[i], S(E)[i])} :: 0 <= i < size ==> r.value[i] == MeanFromEcc(math, S(Ecc)[i], S(E)[i])
      ensures r.Ok? && M !in old(cache).scalars && MeanLongitude !in old(cache).scalars && !AnomalySource(old(cache)) ==>
        TPeri in old(cache).scalars && N in cache.scalars &&
        forall i {:trigger MeanFromPericentreTime(S(N)[i], epoch, S(TPeri)[i])} :: 0 <= i < size ==> r.value[i] == MeanFromPericentreTime(S(N)[i], epoch, S(TPeri)[i])
      ensures (0 < fuel && M !in old(cache).scalars && MeanLongitude !in old(cache).scalars && !AnomalySource(old(cache)) &&
               TPeri !in old(cache).scalars) ==>
        r == Err(Missing(Sc(M))) && cache == old(cache)
      ensures r.Ok? && M !in old(cache).scalars ==> forall i :: 0 <= i < size ==> 0.0 <= r.value[i] < TWO_PI
    {
      if fuel == 0 {
        r := Err(RecursionLimit);
      } else if M in cache.scalars {
        r := Ok(cache.scalars[M]);
      } else if MeanLongitude in cache.scalars {
        r := MeanAnomalyFromLongitude(fuel - 1);
      } else if AnomalySource(cache) {
        r := MeanAnomalyFromEccentric(fuel - 1);
      } else if TPeri in cache.scalars {
        r := MeanAnomalyFromPericentreTime(fuel - 1);
      } else {
        r := Err(Missing(Sc(M)));
      }
    }

    /** The first rule of `M`: mean longitude minus varpi. */
    method MeanAnomalyFromLongitude(fuel: nat) returns (r: Result<seq<real>>)
      requires Valid() && M !in cache.scalars
      modifies this
      decreases fuel, 1
      ensures Valid() && Extends(old(cache), cache)
      ensures r.Ok? ==>
        M in cache.scalars && cache.scalars[M] == r.value && MeanLongitude in cache.scalars && Varpi in cache.scalars &&
        forall i {:trigger AngleDifference(S(MeanLongitude)[i], S(Varpi)[i])} :: 0 <= i < size ==>
          r.value[i] == AngleDifference(S(MeanLongitude)[i], S(Varpi)[i])
      ensures r.Ok? ==> forall i :: 0 <= i < size ==> 0.0 <= r.value[i] < TWO_PI
    {
      var ml := GetMeanLongitude(fuel);
      match ml {
      case Err(err) => r := Err(err);
      case Ok(_) =>
        var varpi := GetVarpi(fuel);
        match varpi {
        case Err(err) => r := Err(err);
        case Ok(_) =>
          var mean := AngleDifferences(ml.value, varpi.value);
          SetScalar(M, mean);
          r := Ok(mean);
        }
      }
    }

    /** The second rule of `M`: Kepler's equation from E and e. */
    method MeanAnomalyFromEccentric(fuel: nat) returns (r: Result<seq<real>>)
      requires Valid() && M !in cache.scalars
      modifies this
      decreases fuel, 1
      ensures Valid() && Extends(old(cache), cache)
      ensures r.Ok? ==>
        M in cache.scalars && cache.scalars[M] == r.value && Ecc in cache.scalars && E in cache.scalars &&
        forall i {:trigger MeanFromEcc(math, S(Ecc)[i], S(E)[i])} :: 0 <= i < size ==> r.value[i] == MeanFromEcc(math, S(Ecc)[i], S(E)[i])
      ensures r.Ok? ==> forall i :: 0 <= i < size ==> 0.0 <= r.value[i] < TWO_PI
    {
      var ea := GetE(fuel);
      match ea {
      case Err(err) => r := Err(err);
      case Ok(_) =>
        var e := GetEcc(fuel);
        match e {
        case Err(err) => r := Err(err);
        case Ok(_) =>
          var mean := MeansFromEcc(math, e.value, ea.value);
          SetScalar(M, mean);
          r := Ok(mean);
        }
      }
    }

    /** The third rule of `M`: n (epoch - t_peri). */
    method MeanAnomalyFromPericentreTime(fuel: nat) returns (r: Result<seq<real>>)
      requires Valid() && M !in cache.scalars
      modifies this
      decreases fuel, 1
      ensures Valid() && Extends(old(cache), cache)
      ensures r.Ok? ==>
        M in cache.scalars && cache.scalars[M] == r.value && N in cache.scalars && TPeri in cache.scalars &&
        forall i {:trigger MeanFromPericentreTime(S(N)[i], epoch, S(TPeri)[i])} :: 0 <= i < size ==>
          r.value[i] == MeanFromPericentreTime(S(N)[i], epoch, S(TPeri)[i])
      ensures r.Ok? ==> forall i :: 0 <= i < size ==> 0.0 <= r.value[i] < TWO_PI
    {
      var n := GetN(fuel);
      match n {
      case Err(err) => r := Err(err);
      case Ok(_) =>
        var tp := GetTPeri(fuel);
        match tp {
        case Err(err) => r := Err(err);
        case Ok(_) =>
          var mean := MeansFromPericentreTime(n.value, epoch, tp.value);
          SetScalar(M, mean);
          r := Ok(mean);
        }
      }
    }

    /** The slots whose presence selects the true-anomaly rule of `E`. */
    static predicate TrueAnomalySource(c: Dict) {
      TrueAnomaly in c.scalars || TrueLongitude in c.scalars || HasStateVectors(c)
    }

    /** `E`: from the true anomaly when it, the true longitude or both state
        vectors are present, else by solving Kepler's equation body by body when
        M, the mean longitude or the time of pericentre is present, else an
        AttributeError. A hyperbolic solve that does not converge fails the read. */
    method GetE(fuel: nat) returns (r: Result<seq<real>>)
      requires Valid()
      modifies this
      decreases fuel, 0
      ensures Valid() && Extends(old(cache), cache) && MemoS(E, old(cache), fuel, r)
      ensures r.Ok? && E !in old(cache).scalars && TrueAnomalySource(old(cache)) ==>
        Ecc in cache.scalars && TrueAnomaly in cache.scalars &&
        forall i {:trigger EccFromTrue(math, S(Ecc)[i], S(TrueAnomaly)[i])} :: 0 <= i < size ==> r.value[i] == EccFromTrue(math, S(Ecc)[i], S(TrueAnomaly)[i])
      ensures r.Ok? && E !in old(cache).scalars && !TrueAnomalySource(old(cache)) ==>
        M in cache.scalars && Ecc in cache.scalars &&
        forall i {:trigger EccFromMean(math, S(M)[i], S(Ecc)[i])} :: 0 <= i < size ==> EccFromMean(math, S(M)[i], S(Ecc)[i]) == Some(r.value[i])
      ensures (1 < fuel && E !in old(cache).scalars && !TrueAnomalySource(old(cache)) &&
               M in old(cache).scalars && Ecc in old(cache).scalars) ==>
        (r.Ok? <==> forall i :: 0 <= i < size ==> EccFromMean(math, S(M)[i], S(Ecc)[i]).Some?) &&
        (r.Err? ==> r.error == SolverDiverged)
      ensures (0 < fuel && E !in old(cache).scalars && !TrueAnomalySource(old(cache)) &&
               !(M in old(cache).scalars || MeanLongitude in old(cache).scalars || TPeri in old(cache).scalars)) ==>
        r == Err(Missing(Sc(E))) && cache == old(cache)
    {
      if fuel == 0 {
        r := Err(RecursionLimit);
      } else if E in cache.scalars {
        r := Ok(cache.scalars[E]);
      } else if TrueAnomalySource(cache) {
        var e := GetEcc(fuel - 1);
        match e {
        case Err(err) => r := Err(err);
        case Ok(_) =>
          var nu := GetTrueAnomaly(fuel - 1);
          match nu {
          case Err(err) => r := Err(err);
          case Ok(_) =>
            var ea := EccsFromTrue(math, e.value, nu.value);
            SetScalar(E, ea);
            r := Ok(ea);
          }
        }
      } else if M in cache.scalars || MeanLongitude in cache.scalars || TPeri in cache.scalars {
        r := EccentricFromMean(fuel - 1);
      } else {
        r := Err(Missing(Sc(E)));
      }
    }

    /** The second rule of `E`: M and e are read, then Kepler's equation is
        solved body by body; nothing is stored when a solve diverges. */
    method EccentricFromMean(fuel: nat) returns (r: Result<seq<real>>)
      requires Valid() && E !in cache.scalars
      modifies this
      decreases fuel, 1
      ensures Valid() && Extends(old(cache), cache)
      ensures r.Ok? ==>
        E in cache.scalars && cache.scalars[E] == r.value && M in cache.scalars && Ecc in cache.scalars &&
        forall i {:trigger EccFromMean(math, S(M)[i], S(Ecc)[i])} :: 0 <= i < size ==>
          EccFromMean(math, S(M)[i], S(Ecc)[i]) == Some(r.value[i])
      ensures 0 < fuel && M in old(cache).scalars && Ecc in old(cache).scalars ==>
        cache.scalars[M] == old(cache).scalars[M] && cache.scalars[Ecc] == old(cache).scalars[Ecc] &&
        (r.Ok? <==> forall i :: 0 <= i < size ==> EccFromMean(math, S(M)[i], S(Ecc)[i]).Some?) &&
        (r.Err? ==> r.error == SolverDiverged)
    {
      var mean := GetM(fuel);
      match mean {
      case Err(err) => r := Err(err);
      case Ok(_) =>
        var e := GetEcc(fuel);
        match e {
        case Err(err) => r := Err(err);
        case Ok(_) =>
          var ea := SolveBatch(math, mean.value, e.value);
          if ea.Ok? {
            SetScalar(E, ea.value);
          }
          r := ea;
          assert mean.value == S(M) && e.value == S(Ecc);

        }
      }
    }

    /** The state in which `true_anomaly` and `true_longitude` call each other
        until the recursion limit: no true anomaly, a true longitude, and both
        state vectors cached. */
    static predicate AnomalyLoop(c: Dict) {
      TrueAnomaly !in c.scalars && TrueLongitude in c.scalars && HasStateVectors(c)
    }

    /** The slots whose presence selects the eccentric-anomaly rule of `true_anomaly`. */
    static predicate EccentricSource(c: Dict) {
      E in c.scalars || M in c.scalars || MeanLongitude in c.scalars || TPeri in c.scalars
    }

    /** `true_anomaly`: true longitude minus varpi (not reduced) when the true
        longitude is present, else from E when E, M, the mean longitude or the
        time of pericentre is present, else from the state vectors, else an
        AttributeError. */
    method GetTrueAnomaly(fuel: nat) returns (r: Result<seq<real>>)
      requires Valid()
      modifies this
      decreases fuel, 0
      ensures Valid() && Extends(old(cache), cache) && MemoS(TrueAnomaly, old(cache), fuel, r)
      ensures AnomalyLoop(old(cache)) ==> r == Err(RecursionLimit) && cache == old(cache)
      ensures r.Ok? && TrueAnomaly !in old(cache).scalars && TrueLongitude in old(cache).scalars ==>
        Varpi in cache.scalars &&
        forall i {:trigger TrueFromLongitude(S(TrueLongitude)[i], S(Varpi)[i])} :: 0 <= i < size ==> r.value[i] == TrueFromLongitude(S(TrueLongitude)[i], S(Varpi)[i])
      ensures r.Ok? && TrueAnomaly !in old(cache).scalars && TrueLongitude !in old(cache).scalars && EccentricSource(old(cache)) ==>
        Ecc in cache.scalars && E in cache.scalars &&
        forall i {:trigger TrueFromEcc(math, S(Ecc)[i], S(E)[i])} :: 0 <= i < size ==> r.value[i] == TrueFromEcc(math, S(Ecc)[i], S(E)[i])
      ensures r.Ok? && TrueAnomaly !in old(cache).scalars && TrueLongitude !in old(cache).scalars && !EccentricSource(old(cache)) ==>
        HasStateVectors(old(cache)) && Ecc in cache.scalars && EVec in cache.vectors &&
        forall i {:trigger TrueFromVectors(math, S(Ecc)[i], V(Position)[i], V(Velocity)[i], V(EVec)[i])} :: 0 <= i < size ==>
          r.value[i] == TrueFromVectors(math, S(Ecc)[i], V(Position)[i], V(Velocity)[i], V(EVec)[i])
      ensures (0 < fuel && TrueAnomaly !in old(cache).scalars && TrueLongitude !in old(cache).scalars &&
               !EccentricSource(old(cache)) && !HasStateVectors(old(cache))) ==>
        r == Err(Missing(Sc(TrueAnomaly))) && cache == old(cache)
    {
      if fuel == 0 {
        r := Err(RecursionLimit);
      } else if TrueAnomaly in cache.scalars {
        r := Ok(cache.scalars[TrueAnomaly]);
      } else if TrueLongitude in cache.scalars {
        r := TrueAnomalyFromLongitude(fuel - 1);
      } else if EccentricSource(cache) {
        r := TrueAnomalyFromEccentric(fuel - 1);
      } else if HasStateVectors(cache) {
        r := TrueAnomalyFromVectors(fuel - 1);
      } else {
        r := Err(Missing(Sc(TrueAnomaly)));
      }
    }

    /** The first rule of `true_anomaly`: true longitude minus varpi. */
    method TrueAnomalyFromLongitude(fuel: nat) returns (r: Result<seq<real>>)
      requires Valid() && TrueAnomaly !in cache.scalars && TrueLongitude in cache.scalars
      modifies this
      decreases fuel, 2
      ensures Valid() && Extends(old(cache), cache)
      ensures AnomalyLoop(old(cache)) ==> r == Err(RecursionLimit) && cache == old(cache)
      ensures r.Ok? ==>
        TrueAnomaly in cache.scalars && cache.scalars[TrueAnomaly] == r.value && Varpi in cache.scalars &&
        forall i {:trigger TrueFromLongitude(S(TrueLongitude)[i], S(Varpi)[i])} :: 0 <= i < size ==>
          r.value[i] == TrueFromLongitude(S(TrueLongitude)[i], S(Varpi)[i])
    {
      var tl := GetTrueLongitude(fuel);
      assert cache == old(cache);
      match tl {
      case Err(err) => r := Err(err);
      case Ok(_) =>
        r := SubtractVarpi(tl.value, fuel);
      }
    }

    /** The rest of the first rule, once the true longitude `tl` has been read. */
    method SubtractVarpi(tl: seq<real>, fuel: nat) returns (r: Result<seq<real>>)
      requires Valid() && TrueAnomaly !in cache.scalars && |tl| == size
      modifies this
      decreases fuel, 1
      ensures Valid() && Extends(old(cache), cache)
      ensures r.Ok? ==>
        TrueAnomaly in cache.scalars && cache.scalars[TrueAnomaly] == r.value && Varpi in cache.scalars &&
        forall i {:trigger TrueFromLongitude(tl[i], S(Varpi)[i])} :: 0 <= i < size ==>
          r.value[i] == TrueFromLongitude(tl[i], S(Varpi)[i])
    {
      var varpi := GetVarpi(fuel);
      match varpi {
      case Err(err) => r := Err(err);
      case Ok(_) =>
        var nu := TruesFromLongitude(tl, varpi.value);
        SetScalar(TrueAnomaly, nu);
        r := Ok(nu);
      }
    }

    /** The second rule of `true_anomaly`: from e and E. */
    method TrueAnomalyFromEccentric(fuel: nat) returns (r: Result<seq<real>>)
      requires Valid() && TrueAnomaly !in cache.scalars
      modifies this
      decreases fuel, 1
      ensures Valid() && Extends(old(cache), cache)
      ensures r.Ok? ==>
        TrueAnomaly in cache.scalars && cache.scalars[TrueAnomaly] == r.value &&
        Ecc in cache.scalars && E in cache.scalars &&
        forall i {:trigger TrueFromEcc(math, S(Ecc)[i], S(E)[i])} :: 0 <= i < size ==> r.value[i] == TrueFromEcc(math, S(Ecc)[i], S(E)[i])
    {
      var e := GetEcc(fuel);
      match e {
      case Err(err) => r := Err(err);
      case Ok(_) =>
        var ea := GetE(fuel);
        match ea {
        case Err(err) => r := Err(err);
        case Ok(_) =>
          var nu := TruesFromEcc(math, e.value, ea.value);
          SetScalar(TrueAnomaly, nu);
          r := Ok(nu);
        }
      }
    }

    /** The third rule of `true_anomaly`: from e, position, evec and velocity. */
    method TrueAnomalyFromVectors(fuel: nat) returns (r: Result<seq<real>>)
      requires Valid() && TrueAnomaly !in cache.scalars && HasStateVectors(cache)
      modifies this
      decreases fuel, 1
      ensures Valid() && Extends(old(cache), cache)
      ensures r.Ok? ==>
        TrueAnomaly in cache.scalars && cache.scalars[TrueAnomaly] == r.value &&
        Ecc in cache.scalars && EVec in cache.vectors &&
        forall i {:trigger TrueFromVectors(math, S(Ecc)[i], V(Position)[i], V(Velocity)[i], V(EVec)[i])} :: 0 <= i < size ==>
          r.value[i] == TrueFromVectors(math, S(Ecc)[i], V(Position)[i], V(Velocity)[i], V(EVec)[i])
    {
      var e := GetEcc(fuel);
      match e {
      case Err(err) => r := Err(err);
      case Ok(_) =>
        var p := GetPosition(fuel);
        match p {
        case Err(err) => r := Err(err);
        case Ok(_) =>
          var ev := GetEVec(fuel);
          match ev {
          case Err(err) => r := Err(err);
          case Ok(_) =>
            var v := GetVelocity(fuel);
            match v {
            case Err(err) => r := Err(err);
            case Ok(_) =>
              var nu := TruesFromVectors(math, e.value, p.value, v.value, ev.value);
              SetScalar(TrueAnomaly, nu);
              r := Ok(nu);
            }
          }
        }
      }
    }

    /** `true_longitude`: (true anomaly + varpi) mod 2*pi, computed when the slot
        is absent and recomputed whenever both state vectors are cached; the only
        getter that may overwrite a slot, and only its own. */
    method GetTrueLongitude(fuel: nat) returns (r: Result<seq<real>>)
      requires Valid()
      modifies this
      decreases fuel, 0
      ensures Valid() && ExtendsExcept(old(cache), cache, TrueLongitude)
      ensures fuel == 0 ==> r == Err(RecursionLimit) && cache == old(cache)
      ensures 0 < fuel && TrueLongitude in old(cache).scalars && !HasStateVectors(old(cache)) ==>
        r == Ok(old(S(TrueLongitude))) && cache == old(cache)
      ensures AnomalyLoop(old(cache)) ==> r == Err(RecursionLimit) && cache == old(cache)
      ensures r.Ok? ==> TrueLongitude in cache.scalars && cache.scalars[TrueLongitude] == r.value
      ensures r.Ok? && (TrueLongitude !in old(cache).scalars || HasStateVectors(cache)) ==>
        TrueAnomaly in cache.scalars && Varpi in cache.scalars &&
        forall i {:trigger AngleSum(S(TrueAnomaly)[i], S(Varpi)[i])} :: 0 <= i < size ==> r.value[i] == AngleSum(S(TrueAnomaly)[i], S(Varpi)[i])
    {
      if fuel == 0 {
        r := Err(RecursionLimit);
      } else if TrueLongitude in cache.scalars && !HasStateVectors(cache) {
        r := Ok(cache.scalars[TrueLongitude]);
      } else {
        var nu := GetTrueAnomaly(fuel - 1);
        match nu {
        case Err(err) => r := Err(err);
        case Ok(_) =>
          var varpi := GetVarpi(fuel - 1);
          match varpi {
          case Err(err) => r := Err(err);
          case Ok(_) =>
            var tl := AngleSums(nu.value, varpi.value);
            SetScalar(TrueLongitude, tl);
            r := Ok(tl);
          }
        }
      }
    }

    /** `mean_longitude`: (M + varpi) mod 2*pi. */
    method GetMeanLongitude(fuel: nat) returns (r: Result<seq<real>>)
      requires Valid()
      modifies this
      decreases fuel, 0
      ensures Valid() && Extends(old(cache), cache) && MemoS(MeanLongitude, old(cache), fuel, r)
      ensures r.Ok? && MeanLongitude !in old(cache).scalars ==>
        M in cache.scalars && Varpi in cache.scalars &&
        forall i {:trigger AngleSum(S(M)[i], S(Varpi)[i])} :: 0 <= i < size ==> r.value[i] == AngleSum(S(M)[i], S(Varpi)[i])
    {
      if fuel == 0 {
        r := Err(RecursionLimit);
      } else if MeanLongitude in cache.scalars {
        r := Ok(cache.scalars[MeanLongitude]);
      } else {
        var mean := GetM(fuel - 1);
        match mean {
        case Err(err) => r := Err(err);
        case Ok(_) =>
          var varpi := GetVarpi(fuel - 1);
          match varpi {
          case Err(err) => r := Err(err);
          case Ok(_) =>
            var ml := AngleSums(mean.value, varpi.value);
            SetScalar(MeanLongitude, ml);
            r := Ok(ml);
          }
        }
      }
    }

    /** `t_peri`: the epoch minus M / n. */
    method GetTPeri(fuel: nat) returns (r: Result<seq<real>>)
      requires Valid()
      modifies this
      decreases fuel, 0
      ensures Valid() && Extends(old(cache), cache) && MemoS(TPeri, old(cache), fuel, r)
      ensures r.Ok? && TPeri !in old(cache).scalars ==>
        M in cache.scalars && N in cache.scalars &&
        forall i {:trigger PericentreTime(epoch, S(M)[i], S(N)[i])} :: 0 <= i < size ==> r.value[i] == PericentreTime(epoch, S(M)[i], S(N)[i])
    {
      if fuel == 0 {
        r := Err(RecursionLimit);
      } else if TPeri in cache.scalars {
        r := Ok(cache.scalars[TPeri]);
      } else {
        var mean := GetM(fuel - 1);
        match mean {
        case Err(err) => r := Err(err);
        case Ok(_) =>
          var n := GetN(fuel - 1);
          match n {
          case Err(err) => r := Err(err);
          case Ok(_) =>
            var tp := PericentreTimes(epoch, mean.value, n.value);
            SetScalar(TPeri, tp);
            r := Ok(tp);
          }
        }
      }
    }

    // ---- derived quantities ----

    /** `b`, `p`, `q` and `Q`, each from a and e. */
    method GetShape(k: ScalarSlot, fuel: nat) returns (r: Result<seq<real>>)
      requires Valid() && IsShapeSlot(k)
      modifies this
      decreases fuel, 0
      ensures Valid() && ExtendsExceptAll(old(cache), cache, {k}) && MemoS(k, old(cache), fuel, r)
      ensures r.Ok? && k !in old(cache).scalars ==>
        A in cache.scalars && Ecc in cache.scalars &&
        forall i {:trigger Shape(math, k, S(A)[i], S(Ecc)[i])} :: 0 <= i < size ==> r.value[i] == Shape(math, k, S(A)[i], S(Ecc)[i])
    {
      if fuel == 0 {
        r := Err(RecursionLimit);
      } else if k in cache.scalars {
        r := Ok(cache.scalars[k]);
      } else {
        var a := GetA(fuel - 1);
        match a {
        case Err(err) => r := Err(err);
        case Ok(_) =>
          var e := GetEcc(fuel - 1);
          match e {
          case Err(err) => r := Err(err);
          case Ok(_) =>
            var s := Shapes(math, k, a.value, e.value);
            SetScalar(k, s);
            r := Ok(s);
          }
        }
      }
    }

    /** `n`: sqrt(mu / |a|^3). */
    method GetN(fuel: nat) returns (r: Result<seq<real>>)
      requires Valid()
      modifies this
      decreases fuel, 0
      ensures Valid() && Extends(old(cache), cache) && MemoS(N, old(cache), fuel, r)
      ensures r.Ok? && N !in old(cache).scalars ==>
        A in cache.scalars &&
        forall i {:trigger MeanMotion(math, cls.mu, S(A)[i])} :: 0 <= i < size ==> r.value[i] == MeanMotion(math, cls.mu, S(A)[i])
    {
      if fuel == 0 {
        r := Err(RecursionLimit);
      } else if N in cache.scalars {
        r := Ok(cache.scalars[N]);
      } else {
        var a := GetA(fuel - 1);
        match a {
        case Err(err) => r := Err(err);
        case Ok(_) =>
          var mu := cls.mu;
          var n := MeanMotions(math, mu, a.value);
          SetScalar(N, n);
          r := Ok(n);
        }
      }
    }

    /** `r`: |position| when the position slot is present, else a (1 - e cos E). */
    method GetR(fuel: nat) returns (r: Result<seq<real>>)
      requires Valid()
      modifies this
      decreases fuel, 0
      ensures Valid() && Extends(old(cache), cache) && MemoS(R, old(cache), fuel, r)
      ensures r.Ok? && R !in old(cache).scalars && Position in old(cache).vectors ==>
        forall i {:trigger Norm(math, V(Position)[i])} :: 0 <= i < size ==> r.value[i] == Norm(math, V(Position)[i])
      ensures r.Ok? && R !in old(cache).scalars && Position !in old(cache).vectors ==>
        A in cache.scalars && Ecc in cache.scalars && E in cache.scalars &&
        forall i {:trigger RadiusFromAnomaly(math, S(A)[i], S(Ecc)[i], S(E)[i])} :: 0 <= i < size ==> r.value[i] == RadiusFromAnomaly(math, S(A)[i], S(Ecc)[i], S(E)[i])
    {
      if fuel == 0 {
        r := Err(RecursionLimit);
      } else if R in cache.scalars {
        r := Ok(cache.scalars[R]);
      } else if Position in cache.vectors {
        var p := GetPosition(fuel - 1);
        match p {
        case Err(err) => r := Err(err);
        case Ok(_) =>
          var rad := Norms(math, p.value);
          SetScalar(R, rad);
          r := Ok(rad);
        }
      } else {
        r := RadiusFromElements(fuel - 1);
      }
    }

    /** The second rule of `r`: a (1 - e cos E). */
    method RadiusFromElements(fuel: nat) returns (r: Result<seq<real>>)
      requires Valid() && R !in cache.scalars
      modifies this
      decreases fuel, 2
      ensures Valid() && Extends(old(cache), cache)
      ensures r.Ok? ==>
        R in cache.scalars && cache.scalars[R] == r.value &&
        A in cache.scalars && Ecc in cache.scalars && E in cache.scalars &&
        forall i {:trigger RadiusFromAnomaly(math, S(A)[i], S(Ecc)[i], S(E)[i])} :: 0 <= i < size ==>
          r.value[i] == RadiusFromAnomaly(math, S(A)[i], S(Ecc)[i], S(E)[i])
    {
      var a := GetA(fuel);
      match a {
      case Err(err) => r := Err(err);
      case Ok(_) =>
        var e := GetEcc(fuel);
        match e {
        case Err(err) => r := Err(err);
        case Ok(_) =>
          ghost var c1 := cache;
          r := RadiusAtAnomaly(fuel);
          ExtendsThroughExcept(old(cache), c1, cache, R);
        }
      }
    }

    /** The rest of that rule once a and e have been read: read E, compute, store. */
    method RadiusAtAnomaly(fuel: nat) returns (r: Result<seq<real>>)
      requires Valid() && A in cache.scalars && Ecc in cache.scalars
      modifies this
      decreases fuel, 1
      ensures Valid() && ExtendsExcept(old(cache), cache, R)
      ensures r.Ok? ==>
        R in cache.scalars && cache.scalars[R] == r.value && E in cache.scalars &&
        forall i {:trigger RadiusFromAnomaly(math, S(A)[i], S(Ecc)[i], S(E)[i])} :: 0 <= i < size ==>
          r.value[i] == RadiusFromAnomaly(math, S(A)[i], S(Ecc)[i], S(E)[i])
    {
      var a := cache.scalars[A];
      var e := cache.scalars[Ecc];
      var ea := GetE(fuel);
      match ea {
      case Err(err) => r := Err(err);
      case Ok(_) =>
        var rad := RadiiFromAnomaly(math, a, e, ea.value);
        SetScalar(R, rad);
        r := Ok(rad);
      }
    }

    /** `rrdot`: r . v body by body; never stored. */
    method GetRRDot(fuel: nat) returns (r: Result<seq<real>>)
      requires Valid()
      modifies this
      decreases fuel, 0
      ensures Valid() && Extends(old(cache), cache)
      ensures RRDot !in cache.scalars
      ensures fuel == 0 ==> r == Err(RecursionLimit) && cache == old(cache)
      ensures r.Ok? ==>
        HasStateVectors(cache) && |r.value| == size &&
        forall i {:trigger Dot(V(Position)[i], V(Velocity)[i])} :: 0 <= i < size ==> r.value[i] == Dot(V(Position)[i], V(Velocity)[i])
    {
      if fuel == 0 {
        r := Err(RecursionLimit);
      } else {
        var p := GetPosition(fuel - 1);
        match p {
        case Err(err) => r := Err(err);
        case Ok(_) =>
          var v := GetVelocity(fuel - 1);
          match v {
          case Err(err) => r := Err(err);
          case Ok(_) =>
            r := Ok(DotProducts(p.value, v.value));
          }
        }
      }
    }
  }

  /** A conversion to the barycentre and back, on one batch whose six
      components are present, while the class frame is heliocentric: the
      frame is heliocentric again, `mu` is the heliocentric one, and the
      components are those it started with. */
  method BaryThenHelio(o: OrbitFuncs, eph: Ephemeris, fuel: nat)
    requires o.Valid() && HasCartesian(o.cache) && o.cls.frame == Heliocentric && 0 < fuel
    modifies o, o.cls
    ensures o.Valid() && o.cls.frame == Heliocentric && o.cls.mu == o.cls.muHelio
    ensures o.cache.scalars == CartesianPart(old(o.cache).scalars)
    ensures o.cache.vectors == map[Position := Assemble(old(o.cache).scalars[X], old(o.cache).scalars[Y], old(o.cache).scalars[Z]),
                                   Velocity := Assemble(old(o.cache).scalars[VX], old(o.cache).scalars[VY], old(o.cache).scalars[VZ])]
  {
    ghost var d0 := o.cache;
    var r1 := o.ToBary(eph, fuel);
    ghost var d1 := o.cache;
    var r2 := o.ToHelio(eph, fuel);
    RoundTrip(d0, d1, o.cache, SunAt(eph, o.epoch));
  }

  /** The frame flag belongs to the class: after one batch has moved to the
      barycentre, `to_bary` on another batch does nothing, even though that
      batch's components are still heliocentric. */
  method SharedFrame(a: OrbitFuncs, b: OrbitFuncs, eph: Ephemeris, fuel: nat)
    requires a != b && a.cls == b.cls && a.cls.frame == Heliocentric
    requires a.Valid() && b.Valid() && HasCartesian(a.cache) && 0 < fuel
    modifies a, b, a.cls
    ensures a.cls.frame == Barycentric && Reframed(old(a.cache), a.cache, 1.0, SunAt(eph, a.epoch))
    ensures b.cache == old(b.cache)
  {
    var ra := a.ToBary(eph, fuel);
    var rb := b.ToBary(eph, fuel);
  }
}
