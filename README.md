# spacerocks `OrbitFuncs` in Dafny

This project models the orbital-state cache of spacerocks, the mix-in class
`OrbitFuncs` in `spacerocks/orbitfuncs.py`, and proves properties of it.

A batch of `size` bodies keeps every quantity in a private `_name`
attribute, as one array with one entry per body. The quantities are:

- `position` and `velocity`, and their components `x` … `vz`;
- the Keplerian elements and the anomalies;
- `b`, `p`, `q`, `Q`, `n` and `r`;
- the vectors `hvec`, `nvec`, `evec`, `ovec` and `vovec`.

Each quantity is a property getter. It returns the attribute when it is
present. Otherwise it derives the value from other getters by the first rule
whose inputs are present, stores it, and returns it.

`to_bary` and `to_helio` move the Cartesian state between the heliocentric and
barycentric origins, clear the Keplerian attributes and rebuild the state
vectors. The frame flag and `mu` they switch are class attributes, so they are
shared by every batch.

## Structure

- `numerics.dfy` (module `Numerics`):
  - `pi` as a double;
  - Python's floor modulo by `2*pi`;
  - the `M[M > pi] -= 2*pi` wrap;
  - the guarded division used where numpy would return inf or nan;
  - the angle arithmetic lemmas.
- `vectors.dfy` (module `Vectors`): the part of the `Vector` class the core uses (difference, scaling, dot and cross product), over reals.
- `elementary.dfy` (module `Elementary`): the floating-point library calls as uninterpreted tables in one value, `Math`. These are sin, cos, sinh, tanh, arccos, arctan2, sqrt, the vector norm, the Euler rotation, and the elliptic and hyperbolic Kepler solvers. It also holds the idealised laws some lemmas assume.
- `twobody.dfy` (module `TwoBody`): one per-body function per derivation rule, and the algebraic identities between them.
- `batch.dfy` (module `Batch`): the same rules applied body by body to whole arrays, as numpy does.
- `cache.dfy` (module `Cache`): the attribute dictionary (`Dict`, split into scalar and vector slots), the names `clear_kep` pops, and the three ways a read fails:
  - `AttributeError` becomes `Missing`;
  - `RecursionError` becomes `RecursionLimit`;
  - the `RuntimeError` of a hyperbolic Newton solve that does not converge becomes `SolverDiverged`.
- `orbitfuncs.dfy` (module `OrbitFuncs`):
  - the class `OrbitFuncs`, whose field `cache` is the attribute dictionary, with one method per getter;
  - the class `FrameState`, which holds the class-wide `frame` and `mu`;
  - the frame changes;
  - two client methods: a conversion there and back, and two batches sharing the class frame.

Every getter takes a `fuel` argument, which stands for the interpreter's recursion limit. Each getter except `true_longitude` and `rrdot` states the same memo discipline, `MemoS` or `MemoV`:

- Without fuel it fails with `RecursionLimit` and changes nothing.
- A slot that is already present is returned as stored, and nothing changes.
- A successful read leaves its result in the slot, so a second read returns the same value.

`true_longitude` states its own variant: it returns the stored value unless both state vectors are present, and then it recomputes and overwrites its slot. `rrdot` stores nothing.

Every getter except `true_longitude` and the component getters `x` … `vz` only adds slots, and never adds a Cartesian component (`Extends`). `true_longitude` may also overwrite its own slot, and a component getter adds only its own component. For a slot that was absent, each getter except `a`, `ovec`, `vovec`, `evec` and the shape getters states which rule produced the value and from which stored inputs; those five state it through the rule helper they call or their per-body formula. The getters of `node`, `arg`, `M`, `E` and `true_anomaly` also state the input conditions under which the read must fail with `Missing`. The getters of `nvec`, `hvec`, `inc`, `node` and `E`, and every getter for a present slot, also state when the read must succeed.

The dictionary never holds `_rrdot`: the attribute has no setter and its getter does not store. This is part of the invariant `Valid`.

Behaviour of the code worth noting:

- The property setters store only their own attribute. They do not invalidate other cached quantities.
- A hyperbolic Newton solve that does not converge raises an error. It does not silently return the last iterate. The model returns `SolverDiverged`.
- `to_bary` followed by `to_helio` restores the Cartesian components and the state vectors. The Keplerian attributes are not restored: they are cleared and are re-derived only on the next read.
- The frame flag is class-wide. After one batch has been converted, converting another batch does nothing, even though its components were never moved.
- `true_anomaly` derived from `true_longitude` is not reduced modulo `2*pi`.

## Model

| member | source | states |
|---|---|---|
| Numerics.Mod2Pi | spacerocks/orbitfuncs.py:374 | Python's `x % (2*pi)` lands in [0, 2*pi) |
| Numerics.WrapPi | spacerocks/orbitfuncs.py:495 | `M[M > pi] -= 2*pi` leaves M unchanged up to pi and takes a turn off above it, so [0, 2*pi) maps into (-pi, pi] |
| Numerics.Mod2PiShift | spacerocks/orbitfuncs.py:374 | adding whole turns does not change the reduced angle |
| Numerics.Mod2PiOfReduced | spacerocks/orbitfuncs.py:374 | an angle in [0, 2*pi) is its own reduction |
| Numerics.Mod2PiOfSum | spacerocks/orbitfuncs.py:421 | reducing an operand first does not change the reduced sum |
| Numerics.SumThenDifference | spacerocks/orbitfuncs.py:397 | an angle in [0, 2*pi) is recovered by adding y and then subtracting y, reducing each time |
| Numerics.DifferenceThenSum | spacerocks/orbitfuncs.py:421 | an angle in [0, 2*pi) is recovered by subtracting y and then adding y, reducing each time |
| Vectors.CrossOrthogonal | spacerocks/orbitfuncs.py:187 | the cross product is orthogonal to both factors |
| TwoBody.NodeVectorInPlane | spacerocks/orbitfuncs.py:159 | nvec = (-h.y, h.x, 0) has z = 0 and is orthogonal to h |
| TwoBody.AngularMomentumGeometry | spacerocks/orbitfuncs.py:156-160 | h = r x v is orthogonal to r and to v, and the node vector built from it lies in the reference plane, orthogonal to h |
| TwoBody.ShapeRelations | spacerocks/orbitfuncs.py:662-696 | q + Q = 2a and p = a(1 - e^2) = q(1 + e) |
| TwoBody.SemiMinorSquared | spacerocks/orbitfuncs.py:647-666 | on a bound orbit, with an exact sqrt, b^2 = a p |
| TwoBody.NodeFromNodeVectorRange | spacerocks/orbitfuncs.py:375-380 | with arccos in [0, pi], the node from the node vector lies in [0, 2*pi] |
| TwoBody.ArgFromVectorsRange | spacerocks/orbitfuncs.py:399-406 | with arccos in [0, pi], arg from the vectors lies in [0, 2*pi]; it is 0 when e = 0 and evec.z >= 0 |
| TwoBody.EquatorialNode | spacerocks/orbitfuncs.py:376-379 | inc = 0 and nvec.y >= 0 give node 0 |
| TwoBody.EllipticKeplerMeanShift | spacerocks/orbitfuncs.py:460 | shifting E by a turn where sin repeats shifts E - e sin E by the same turn |
| TwoBody.EllipticInverse | spacerocks/orbitfuncs.py:491-509 | a root of Kepler's equation for the wrapped mean anomaly, reduced to [0, 2*pi), gives back the original mean anomaly |
| TwoBody.MeanEccRoundTrip | spacerocks/orbitfuncs.py:458-518 | M -> E (solver) -> M is the identity on [0, 2*pi), on elliptic and converged hyperbolic bodies alike, when the solvers are exact and sin is periodic |
| TwoBody.SumDifferenceInverse | spacerocks/orbitfuncs.py:455 | mean_longitude = M + varpi and M = mean_longitude - varpi (both reduced) are inverse on [0, 2*pi) |
| TwoBody.NodeArgVarpi | spacerocks/orbitfuncs.py:374 | varpi = node + arg gives back node as varpi - arg and arg as varpi - node, on [0, 2*pi) |
| TwoBody.TrueLongitudeRoundTrip | spacerocks/orbitfuncs.py:536 | a true longitude in [0, 2*pi), turned into the unreduced true anomaly tl - varpi and back, is unchanged |
| TwoBody.PericentreTimeRoundTrip | spacerocks/orbitfuncs.py:594-598 | t_peri = epoch - M/n and M = n (epoch - t_peri) mod 2*pi (lines 464-467) are inverse for M in [0, 2*pi) and n nonzero |
| TwoBody.PericentreRadius | spacerocks/orbitfuncs.py:733 | at E = 0, a(1 - e cos E) is q |
| Batch.AngleSumsInverse | spacerocks/orbitfuncs.py:582 | body by body, mean_longitude = (M + varpi) mod 2*pi gives back M as (mean_longitude - varpi) mod 2*pi (line 454), for M in [0, 2*pi) |
| Batch.PericentreTimesRoundTrip | spacerocks/orbitfuncs.py:597 | body by body, t_peri from M gives back M by the rule at lines 464-467, for M in [0, 2*pi) and nonzero n |
| Batch.OffsetsInverse | spacerocks/orbitfuncs.py:33-38 | adding an offset to every body and then subtracting it restores the array |
| Cache.Dict.Pop | spacerocks/orbitfuncs.py:95 | `__dict__.pop(name, None)` removes exactly that name, whether or not it was present, and every other entry keeps its value |
| Cache.KeplerNamesComplement | spacerocks/orbitfuncs.py:89-92 | the popped list names exactly the attributes other than `_x` … `_vz` |
| OrbitFuncs.SolveBatch | spacerocks/orbitfuncs.py:511-516 | the per-body hyperbolic solves succeed exactly when every body converges, and then give each body its root; otherwise the error is `SolverDiverged` |
| OrbitFuncs.ReframedByRebuild | spacerocks/orbitfuncs.py:41-45 | six moved components followed by `clear_kep` and the rebuilt state vectors make a completed frame change |
| OrbitFuncs.MovedBack | spacerocks/orbitfuncs.py:33-38 | a component moved by +sun and then by -sun is restored |
| OrbitFuncs.RoundTrip | spacerocks/orbitfuncs.py:21-85 | `to_bary` then `to_helio` at one epoch leaves exactly the original six components and the state vectors built from them; the Keplerian slots are not restored |
| OrbitFuncs.BaryThenHelio | spacerocks/orbitfuncs.py:21-85 | from the heliocentric frame with all six components present, the round trip succeeds, ends heliocentric with `mu_helio`, and restores the components and state vectors |
| OrbitFuncs.SharedFrame | spacerocks/orbitfuncs.py:25 | after one batch moves to the barycentre, `to_bary` on a second batch that shares the class leaves that batch unchanged |
| OrbitFuncs.FrameState.constructor | spacerocks/orbitfuncs.py:47-48 | the class attributes start with the given frame and `mu`, and the two constants |
| OrbitFuncs.OrbitFuncs.SetScalar | spacerocks/orbitfuncs.py:328-330 | a setter stores its own slot and changes no other |
| OrbitFuncs.OrbitFuncs.SetVector | spacerocks/orbitfuncs.py:133-135 | a vector setter stores its own slot and changes no other |
| OrbitFuncs.OrbitFuncs.Delete | spacerocks/orbitfuncs.py:137-139 | a deleter removes its slot; it fails with `Missing` exactly when the slot was absent |
| OrbitFuncs.OrbitFuncs.ClearKep | spacerocks/orbitfuncs.py:87-95 | afterwards the dictionary holds exactly the Cartesian components that were present, with unchanged values, and no vector slot |
| OrbitFuncs.OrbitFuncs.ToBary | spacerocks/orbitfuncs.py:21-50 | outside the heliocentric frame nothing changes (so a second call is a no-op). Otherwise, on success, the frame is barycentric, `mu` is `mu_bary` and the batch is moved by +sun at its epoch. A failed read leaves the frame and `mu`. With fuel and all six components present it succeeds |
| OrbitFuncs.OrbitFuncs.ToHelio | spacerocks/orbitfuncs.py:53-85 | the same in reverse: only from the barycentric frame, moving by -sun, ending heliocentric with `mu_helio` |
| OrbitFuncs.OrbitFuncs.MoveOrigin | spacerocks/orbitfuncs.py:33-45 | on success: exactly the six components and two state vectors remain; each component present before is moved by sign times the sun's part; a component absent before whose state vector was cached is that vector's component, moved; position = (x, y, z) and velocity = (vx, vy, vz) |
| OrbitFuncs.OrbitFuncs.ShiftTriple | spacerocks/orbitfuncs.py:33-35 | three `+=` in order: each component is its getter's value moved (the stored value, or the component of the state vector now held); no other slot changes value and no other component appears |
| OrbitFuncs.OrbitFuncs.ShiftPair | spacerocks/orbitfuncs.py:34-35 | two `+=` in order, with the same result for each component as ShiftTriple |
| OrbitFuncs.OrbitFuncs.ShiftCoordinate | spacerocks/orbitfuncs.py:33 | one `self.x += x_sun`: x is stored as its getter's value moved, which is the stored x when present and otherwise the matching component of the state vector now held; a present component always succeeds |
| OrbitFuncs.OrbitFuncs.RebuildStateVectors | spacerocks/orbitfuncs.py:41-45 | after `clear_kep`, position and velocity are rebuilt from the stored components and nothing else is left |
| OrbitFuncs.OrbitFuncs.GetOVec | spacerocks/orbitfuncs.py:127-131 | memoised; a computed ovec is (r cos nu, r sin nu, 0) body by body |
| OrbitFuncs.OrbitFuncs.GetVOVec | spacerocks/orbitfuncs.py:141-146 | memoised; a computed vovec is the in-plane velocity from mu, a, r, E and e |
| OrbitFuncs.OrbitFuncs.GetNVec | spacerocks/orbitfuncs.py:156-160 | memoised; a computed nvec is (-h.y, h.x, 0); with both state vectors present it succeeds given fuel and adds no scalar slot |
| OrbitFuncs.OrbitFuncs.GetEVec | spacerocks/orbitfuncs.py:170-174 | memoised; a computed evec is v x h / mu - r / abs(r) |
| OrbitFuncs.OrbitFuncs.GetHVec | spacerocks/orbitfuncs.py:184-188 | memoised; a computed hvec is position x velocity; with both state vectors present it succeeds given fuel |
| OrbitFuncs.OrbitFuncs.GetPosition | spacerocks/orbitfuncs.py:198-205 | memoised; from (x, y, z) when all three are present, else the Euler rotation of ovec by (arg, inc, node) |
| OrbitFuncs.OrbitFuncs.GetVelocity | spacerocks/orbitfuncs.py:215-222 | memoised; from (vx, vy, vz) when all three are present, else the Euler rotation of vovec |
| OrbitFuncs.OrbitFuncs.PositionFromComponents | spacerocks/orbitfuncs.py:201-202 | position stored as (x, y, z) body by body |
| OrbitFuncs.OrbitFuncs.VelocityFromComponents | spacerocks/orbitfuncs.py:218-219 | velocity stored as (vx, vy, vz) body by body |
| OrbitFuncs.OrbitFuncs.StateFromOrbit | spacerocks/orbitfuncs.py:203-204 | the state vector stored as the rotation of the in-plane vector by the stored arg, inc and node |
| OrbitFuncs.OrbitFuncs.RotatePlaneVector | spacerocks/orbitfuncs.py:204 | the rotation step of that rule, reading inc and node after ovec and arg |
| OrbitFuncs.OrbitFuncs.GetCoordinate | spacerocks/orbitfuncs.py:234-308 | memoised; a computed x … vz is the matching component of the position or velocity now held; no other component appears |
| OrbitFuncs.OrbitFuncs.GetA | spacerocks/orbitfuncs.py:322-326 | memoised; a computed a is vis-viva, 1 / (2/abs(r) - v.v/mu) |
| OrbitFuncs.OrbitFuncs.GetEcc | spacerocks/orbitfuncs.py:337-341 | memoised; a computed e is the norm of evec |
| OrbitFuncs.OrbitFuncs.GetInc | spacerocks/orbitfuncs.py:352-356 | memoised; a computed inc is arccos(h.z / abs(h)); with both state vectors present it succeeds given fuel |
| OrbitFuncs.OrbitFuncs.GetNode | spacerocks/orbitfuncs.py:370-381 | memoised; from (varpi - arg) mod 2*pi when both are present, else from nvec and inc when both state vectors are present, else `Missing` with nothing changed; it never stores arg |
| OrbitFuncs.OrbitFuncs.GetArg | spacerocks/orbitfuncs.py:392-407 | memoised; the `hasattr(self, 'node')` test runs the node getter; (varpi - node) mod 2*pi when varpi is present and the node can be had, else from nvec, e and evec; `Missing` with nothing changed when the state vectors are absent and varpi and node are not both stored |
| OrbitFuncs.OrbitFuncs.ArgFromNode | spacerocks/orbitfuncs.py:396-397 | arg stored as (varpi - node) mod 2*pi |
| OrbitFuncs.OrbitFuncs.ArgFromStateVectors | spacerocks/orbitfuncs.py:399-405 | arg stored from nvec, e and evec with the per-body zero and mirror rules |
| OrbitFuncs.OrbitFuncs.GetVarpi | spacerocks/orbitfuncs.py:418-422 | memoised; a computed varpi is (node + arg) mod 2*pi |
| OrbitFuncs.OrbitFuncs.GetM | spacerocks/orbitfuncs.py:450-469 | memoised; priority mean_longitude, then the E-based rule (any of true_anomaly, true_longitude, E, or both state vectors), then t_peri, else `Missing`; a computed M lies in [0, 2*pi) |
| OrbitFuncs.OrbitFuncs.MeanAnomalyFromLongitude | spacerocks/orbitfuncs.py:454-456 | M stored as (mean_longitude - varpi) mod 2*pi |
| OrbitFuncs.OrbitFuncs.MeanAnomalyFromEccentric | spacerocks/orbitfuncs.py:458-462 | M stored from E by Kepler's equation, per body by its regime |
| OrbitFuncs.OrbitFuncs.MeanAnomalyFromPericentreTime | spacerocks/orbitfuncs.py:464-467 | M stored as n (epoch - t_peri) mod 2*pi |
| OrbitFuncs.OrbitFuncs.GetE | spacerocks/orbitfuncs.py:481-520 | memoised; from the true anomaly when true_anomaly, true_longitude or both state vectors are present, else by the solvers from M; with M and e stored it succeeds exactly when every hyperbolic solve converges; with no source, `Missing` |
| OrbitFuncs.OrbitFuncs.EccentricFromMean | spacerocks/orbitfuncs.py:489-518 | E stored as the solvers' roots for the stored M and e, per body by its regime; it fails with `SolverDiverged` exactly when some hyperbolic solve does not converge |
| OrbitFuncs.OrbitFuncs.GetTrueAnomaly | spacerocks/orbitfuncs.py:531-554 | memoised; priority true_longitude (unreduced tl - varpi), then E and its sources, then the state vectors, else `Missing`; the true_longitude / true_anomaly cycle is a `RecursionLimit` |
| OrbitFuncs.OrbitFuncs.TrueAnomalyFromLongitude | spacerocks/orbitfuncs.py:535-536 | true_anomaly stored as true_longitude - varpi; the true_longitude / true_anomaly cycle is a `RecursionLimit` with nothing changed |
| OrbitFuncs.OrbitFuncs.SubtractVarpi | spacerocks/orbitfuncs.py:536 | the varpi step of that rule: true_anomaly stored as the true longitude already read minus the varpi read now |
| OrbitFuncs.OrbitFuncs.TrueAnomalyFromEccentric | spacerocks/orbitfuncs.py:538-544 | true_anomaly stored from E by the elliptic or hyperbolic half-angle relation, per body |
| OrbitFuncs.OrbitFuncs.TrueAnomalyFromVectors | spacerocks/orbitfuncs.py:546-551 | true_anomaly stored from position, velocity, e and evec with the per-body rules |
| OrbitFuncs.OrbitFuncs.GetTrueLongitude | spacerocks/orbitfuncs.py:565-569 | stored and returned as stored unless both state vectors are present, in which case it is recomputed as (true_anomaly + varpi) mod 2*pi and overwrites its slot; no other slot changes value |
| OrbitFuncs.OrbitFuncs.GetMeanLongitude | spacerocks/orbitfuncs.py:579-583 | memoised; a computed mean_longitude is (M + varpi) mod 2*pi |
| OrbitFuncs.OrbitFuncs.GetTPeri | spacerocks/orbitfuncs.py:594-598 | memoised; a computed t_peri is epoch - M/n |
| OrbitFuncs.OrbitFuncs.GetShape | spacerocks/orbitfuncs.py:647-696 | memoised; a computed b, p, q or Q is its formula in a and e |
| OrbitFuncs.OrbitFuncs.GetN | spacerocks/orbitfuncs.py:707-711 | memoised; a computed n is sqrt(mu / abs(a)^3) |
| OrbitFuncs.OrbitFuncs.GetR | spacerocks/orbitfuncs.py:726-734 | memoised; abs(position) when position is stored, else a(1 - e cos E) |
| OrbitFuncs.OrbitFuncs.RadiusFromElements | spacerocks/orbitfuncs.py:732-733 | r stored as a(1 - e cos E) from the stored a, e and E |
| OrbitFuncs.OrbitFuncs.RadiusAtAnomaly | spacerocks/orbitfuncs.py:733 | the E step of that rule, read after a and e |
| OrbitFuncs.OrbitFuncs.GetRRDot | spacerocks/orbitfuncs.py:721-724 | not cached: `_rrdot` stays absent; r . v body by body |

## Left out

- Floating-point library calls are uninterpreted tables. This covers sin, cos, sinh, tanh, arccos, arctan2, sqrt, `Vector.norm`, `Vector.euler_rotation` and both Kepler solvers. An argument a table leaves out reads as 0. `spacerocks/vector.py` is not part of this model.
- The solvers are abstracted: the elliptic starter with its correction passes and `scipy.optimize.newton`. Lemmas that need exact roots or a periodic sine take these as explicit hypotheses (`KeplerExact`, `Periodic`, `SqrtExact`, `ArccosInRange`).
- Arithmetic is over exact reals, not doubles. `Div` by zero gives 0 where numpy gives inf or nan. `Sqrt` of a negative number is whatever the table says.
- The ephemeris is a table from epoch to the sun's barycentric state (`Ephemeris`). The skyfield and astropy loading, the time scales, the units and the `Angle`, `Distance` and `Time` wrappers are left out.
- `TisserandJ` is not modelled. It is a floating-point formula over `a`, `inc` and `p` with no cache behaviour.
- `hill_radius` is commented out in the source, so only its slot name (for `clear_kep`) is modelled.
- `mass`, `radius` and `density` are commented out and not modelled.
- Setters require an array of the batch's length. The source accepts anything; the model keeps the batch shape as an invariant.
- The recursion limit is a `fuel` count: each nested getter call costs one. The real limit depends on the interpreter's stack, not on a count the model can know.
- One epoch per batch: `epoch` is a single value.
- `spacerocks/simulation.py`, `spacerocks/__init__.py` and `setup.py` are not part of this model.
- MoveOrigin: for a Cartesian component that was absent before the call and whose state vector was also absent, the state vector is derived during the call from the orbital elements. The moved value of that component is not stated, because the derived state vector is replaced when the state vectors are rebuilt.
- ToBary: the same gap as MoveOrigin.
- ToHelio: the same gap as MoveOrigin.
- OrbitFuncs.OrbitFuncs.constructor: requires an initial dictionary without `_rrdot`. No code of the class stores that attribute.
- Periodic: the period is the double `2*pi`, 6.283185307179586, which is not the period of the real sine, and the floating-point sine has no exact period. `MeanEccRoundTrip` takes this idealisation as a hypothesis, and `EllipticInverse` takes the single instance it needs.
- The `Batch` functions apply a per-body formula to each body. Their contracts only say this; the properties of the formulas are the `TwoBody` lemmas and the `Batch` round-trip lemmas.
