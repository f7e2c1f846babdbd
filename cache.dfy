/** The attribute dictionary of an `OrbitFuncs` batch: one slot per private
    `_name` attribute, each holding a whole batch (one entry per body), and the
    outcomes a getter can have. Scalar arrays and `Vector` batches are kept in
    two maps, so the kind of every slot is fixed by its type. */
module Cache {
  import opened Vectors

  /** The private attributes holding one number per body: `_x` .. `_vz`, `_a`,
      `_e` (Ecc), `_inc`, `_node`, `_arg`, `_varpi`, `_M`, `_E`,
      `_true_anomaly`, `_true_longitude`, `_mean_longitude`, `_t_peri`, `_b`,
      `_p`, `_q` (SmallQ), `_Q` (BigQ), `_n`, `_r`, and the two names only
      `clear_kep` mentions, `_hill_radius` and `_rrdot`. */
  datatype ScalarSlot =
    | X | Y | Z | VX | VY | VZ
    | A | Ecc | Inc | Node | Arg | Varpi
    | M | E | TrueAnomaly | TrueLongitude | MeanLongitude | TPeri
    | B | P | SmallQ | BigQ | N | R
    | HillRadius | RRDot

  /** The private attributes holding one vector per body. */
  datatype VectorSlot = OVec | VOVec | NVec | HVec | EVec | Position | Velocity

  /** Any attribute name. */
  datatype Name = Sc(s: ScalarSlot) | Ve(v: VectorSlot)

  /** The six Cartesian components, the only slots a frame change keeps. */
  predicate IsCartesian(k: ScalarSlot) {
    k.X? || k.Y? || k.Z? || k.VX? || k.VY? || k.VZ?
  }

  /** The slots that have a property setter (`hill_radius` is commented out and
      `rrdot` is never stored). */
  predicate IsSettable(k: ScalarSlot) { !k.HillRadius? && !k.RRDot? }

  /** The instance dictionary, split by kind. */
  datatype Dict = Dict(scalars: map<ScalarSlot, seq<real>>, vectors: map<VectorSlot, seq<Vec3>>) {
    predicate Has(n: Name) {
      match n
      case Sc(k) => k in scalars
      case Ve(k) => k in vectors
    }

    /** `self.__dict__.pop(name, None)`. */
    function Pop(n: Name): (d: Dict)
      ensures forall m :: d.Has(m) <==> Has(m) && m != n
      ensures forall k :: k in d.scalars ==> k in scalars && d.scalars[k] == scalars[k]
      ensures forall k :: k in d.vectors ==> k in vectors && d.vectors[k] == vectors[k]
    {
      match n
      case Sc(k) => this.(scalars := scalars - {k})
      case Ve(k) => this.(vectors := vectors - {k})
    }
  }

  /** Why a read fails: `AttributeError` for an absent private attribute,
      `RecursionError` when the getters recurse past the interpreter's limit,
      and the `RuntimeError` of a hyperbolic Newton solve that does not converge. */
  datatype Error = Missing(name: Name) | RecursionLimit | SolverDiverged

  datatype Result<T> = Ok(value: T) | Err(error: Error) {
    predicate IsFailure() { Err? }
    function PropagateFailure<U>(): Result<U> requires Err? { Err(error) }
    function Extract(): T requires Ok? { value }
  }

  /** `m1` keeps every entry of `m0`. */
  ghost predicate Keeps<K, T>(m0: map<K, T>, m1: map<K, T>) {
    forall k :: k in m0 ==> k in m1 && m1[k] == m0[k]
  }

  /** No Cartesian component outside `js` appears: the getters other than
      those of `x` … `vz` never store a component. */
  ghost predicate NoNewComponent(d0: Dict, d1: Dict, js: set<ScalarSlot>) {
    forall k :: k in d1.scalars && IsCartesian(k) && k !in js ==> k in d0.scalars
  }

  /** The dictionary only grows: every slot present in `d0` is present in `d1`
      with the same value, and no Cartesian component appears. */
  ghost predicate Extends(d0: Dict, d1: Dict) {
    Keeps(d0.scalars, d1.scalars) && Keeps(d0.vectors, d1.vectors) && NoNewComponent(d0, d1, {})
  }

  /** The dictionary only grows, except that scalar slot `j` may take a new value. */
  ghost predicate ExtendsExcept(d0: Dict, d1: Dict, j: ScalarSlot) {
    && (forall k :: k in d0.scalars ==> k in d1.scalars && (k != j ==> d1.scalars[k] == d0.scalars[k]))
    && Keeps(d0.vectors, d1.vectors)
    && NoNewComponent(d0, d1, {})
  }

  /** The same, except that vector slot `j` may take a new value. */
  ghost predicate ExtendsExceptVector(d0: Dict, d1: Dict, j: VectorSlot) {
    && Keeps(d0.scalars, d1.scalars)
    && (forall k :: k in d0.vectors ==> k in d1.vectors && (k != j ==> d1.vectors[k] == d0.vectors[k]))
    && NoNewComponent(d0, d1, {})
  }

  /** Growing is transitive. */
  lemma ExtendsTrans(d0: Dict, d1: Dict, d2: Dict)
    requires Extends(d0, d1) && Extends(d1, d2)
    ensures Extends(d0, d2)
  {
  }

  /** Growing and then changing only a slot that was absent at the start is growing. */
  lemma ExtendsThroughExcept(d0: Dict, d1: Dict, d2: Dict, j: ScalarSlot)
    requires Extends(d0, d1) && ExtendsExcept(d1, d2, j) && j !in d0.scalars
    ensures Extends(d0, d2)
  {
  }

  /** The same for a vector slot. */
  lemma ExtendsThroughExceptVector(d0: Dict, d1: Dict, d2: Dict, j: VectorSlot)
    requires Extends(d0, d1) && ExtendsExceptVector(d1, d2, j) && j !in d0.vectors
    ensures Extends(d0, d2)
  {
  }

  /** The dictionary only grows, except that the scalar slots in `js` may take
      new values, and only the components in `js` may appear. */
  ghost predicate ExtendsExceptAll(d0: Dict, d1: Dict, js: set<ScalarSlot>) {
    && (forall k :: k in d0.scalars ==> k in d1.scalars && (k !in js ==> d1.scalars[k] == d0.scalars[k]))
    && Keeps(d0.vectors, d1.vectors)
    && NoNewComponent(d0, d1, js)
  }

  /** Two steps that each change only their own slots change only the union. */
  lemma ExtendsExceptAllTrans(d0: Dict, d1: Dict, d2: Dict, js1: set<ScalarSlot>, js2: set<ScalarSlot>)
    requires ExtendsExceptAll(d0, d1, js1) && ExtendsExceptAll(d1, d2, js2)
    ensures ExtendsExceptAll(d0, d2, js1 + js2)
  {
  }

  /** All six Cartesian components are present. */
  predicate HasCartesian(d: Dict) {
    X in d.scalars && Y in d.scalars && Z in d.scalars && VX in d.scalars && VY in d.scalars && VZ in d.scalars
  }

  /** The six Cartesian components of a scalar map, and nothing else. */
  function CartesianPart(m: map<ScalarSlot, seq<real>>): (p: map<ScalarSlot, seq<real>>)
    ensures forall k :: k in p <==> k in m && IsCartesian(k)
    ensures forall k :: k in p ==> p[k] == m[k]
  {
    map k | k in m && IsCartesian(k) :: m[k]
  }

  /** The names `clear_kep` pops, in its order. */
  const KEPLER_NAMES: seq<Name> :=
    [Sc(A), Sc(Ecc), Sc(Inc), Sc(Arg), Sc(Node), Sc(Varpi), Sc(M), Sc(E), Sc(TrueAnomaly),
     Sc(TrueLongitude), Sc(MeanLongitude), Sc(SmallQ), Sc(TPeri), Sc(B), Sc(P), Sc(N),
     Sc(BigQ), Sc(HillRadius), Sc(R), Ve(OVec), Ve(VOVec), Ve(NVec), Ve(HVec), Ve(EVec),
     Ve(Position), Ve(Velocity), Sc(RRDot)]

  /** The list names exactly the 27 attributes that are not Cartesian components. */
  lemma KeplerNamesComplement(n: Name)
    ensures n in KEPLER_NAMES <==> !(n.Sc? && IsCartesian(n.s))
  {
    if n.Sc? && IsCartesian(n.s) {
      assert forall j :: 0 <= j < |KEPLER_NAMES| ==> KEPLER_NAMES[j] != n;
    } else {
      assert KEPLER_NAMES[KeplerIndex(n)] == n;
    }
  }

  /** Where a non-Cartesian name stands in `KEPLER_NAMES`. */
  function KeplerIndex(n: Name): (j: nat)
    requires !(n.Sc? && IsCartesian(n.s))
    ensures j < |KEPLER_NAMES| && KEPLER_NAMES[j] == n
  {
    match n
    case Sc(k) => (
      match k
      case A => 0 case Ecc => 1 case Inc => 2 case Arg => 3 case Node => 4 case Varpi => 5
      case M => 6 case E => 7 case TrueAnomaly => 8 case TrueLongitude => 9 case MeanLongitude => 10
      case SmallQ => 11 case TPeri => 12 case B => 13 case P => 14 case N => 15 case BigQ => 16
      case HillRadius => 17 case R => 18 case RRDot => 26)
    case Ve(v) => (
      match v
      case OVec => 19 case VOVec => 20 case NVec => 21 case HVec => 22 case EVec => 23
      case Position => 24 case Velocity => 25)
  }
}
