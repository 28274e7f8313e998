/**
 * The newer integrator of space_simulation.rs: `take_step_smooth` splits the
 * requested interval into `percision` equal passes; each pass fills a packed
 * upper-triangular force table, then updates every velocity from it, then
 * moves every position with the new velocities. The rayon parallel loops are
 * modelled by their sequential meaning.
 */
module NBody {
  import opened Vectors
  import opened Pairs
  import opened BodyStore

  /**
   * The first slot of row `i` in the packed triangle of a `size × size`
   * matrix: rows `0 .. i-1` come first, and row `k` holds `size - k` slots.
   */
  function RowStart(i: nat, size: nat): int {
    if i == 0 then 0 else RowStart(i - 1, size) + size - (i - 1)
  }

  /**
   * `from_matrix_to_vector`, over unbounded integers. For `i = 0` the source's
   * `(i - 1)` wraps around in a `usize` without overflow checks, but the
   * product with `i` is still 0, so integer arithmetic gives the same slot.
   */
  function FromMatrixToVector(i: nat, j: nat, size: nat): int {
    if i <= j then i * size - (i - 1) * i / 2 + j - i
    else j * size - (j - 1) * j / 2 + i - j
  }

  /** Length of the force buffer: one slot per unordered pair, diagonal included. */
  function ForcesSize(n: nat): nat {
    n * (n + 1) / 2
  }

  /** The closed form of the row start that `from_matrix_to_vector` uses: `i·size − (i−1)·i/2`. */
  lemma {:induction false} RowStartClosedForm(i: nat, size: nat)
    ensures RowStart(i, size) == i * size - (i - 1) * i / 2
  {
    if i > 0 {
      RowStartClosedForm(i - 1, size);
      var p := (i - 2) * (i - 1);
      assert (i - 1) * i == p + 2 * (i - 1);
      assert (p + 2 * (i - 1)) / 2 == p / 2 + (i - 1);
      assert i * size == (i - 1) * size + size;
    }
  }

  /** The slot of a pair is its offset from the start of the row of its smaller index. */
  lemma SlotIsRowOffset(i: nat, j: nat, size: nat)
    ensures i <= j ==> FromMatrixToVector(i, j, size) == RowStart(i, size) + j - i
    ensures j < i ==> FromMatrixToVector(i, j, size) == RowStart(j, size) + i - j
  {
    RowStartClosedForm(i, size);
    RowStartClosedForm(j, size);
  }

  lemma {:induction false} RowStartMonotone(a: nat, b: nat, size: nat)
    requires a <= b <= size
    ensures RowStart(a, size) + (if a < b then size - a else 0) <= RowStart(b, size)
    decreases b - a
  {
    if a + 1 < b {
      RowStartMonotone(a + 1, b, size);
    }
  }

  lemma {:induction false} ProductOfConsecutiveIsEven(i: nat)
    ensures ((i - 1) * i) % 2 == 0
  {
    if i > 0 {
      ProductOfConsecutiveIsEven(i - 1);
      assert (i - 1) * i == (i - 2) * (i - 1) + 2 * (i - 1);
    }
  }

  lemma RowStartEnd(size: nat)
    ensures RowStart(size, size) == ForcesSize(size)
  {
    RowStartClosedForm(size, size);
    var p := (size - 1) * size;
    ProductOfConsecutiveIsEven(size);
    assert p == 2 * (p / 2);
    assert size * size == p + size;
    assert size * (size + 1) == p + 2 * size;
  }

  /** Row `i` of the triangle holds exactly the slots `RowStart(i) .. RowStart(i+1)`. */
  lemma SlotInRow(i: nat, j: nat, size: nat)
    requires i <= j < size
    ensures RowStart(i, size) <= FromMatrixToVector(i, j, size) < RowStart(i + 1, size)
  {
    SlotIsRowOffset(i, j, size);
  }

  /** The slot does not depend on the order of the pair. */
  lemma FromMatrixToVectorSymmetric(i: nat, j: nat, size: nat)
    ensures FromMatrixToVector(i, j, size) == FromMatrixToVector(j, i, size)
  {
  }

  /** Every pair of bodies lands inside the force buffer of line 181. */
  lemma FromMatrixToVectorBounds(i: nat, j: nat, size: nat)
    requires i < size && j < size
    ensures 0 <= FromMatrixToVector(i, j, size) < ForcesSize(size)
  {
    var lo, hi := if i <= j then i else j, if i <= j then j else i;
    FromMatrixToVectorSymmetric(i, j, size);
    SlotInRow(lo, hi, size);
    RowStartMonotone(0, lo, size);
    RowStartMonotone(lo + 1, size, size);
    RowStartEnd(size);
  }

  /**
   * Distinct unordered pairs get distinct slots: the fact the `SAFETY` comment
   * of line 205 relies on for the unsynchronised writes.
   */
  lemma FromMatrixToVectorInjective(i: nat, j: nat, i': nat, j': nat, size: nat)
    requires i < size && j < size && i' < size && j' < size
    requires FromMatrixToVector(i, j, size) == FromMatrixToVector(i', j', size)
    ensures (i == i' && j == j') || (i == j' && j == i')
  {
    var lo, hi := if i <= j then i else j, if i <= j then j else i;
    var lo', hi' := if i' <= j' then i' else j', if i' <= j' then j' else i';
    FromMatrixToVectorSymmetric(i, j, size);
    FromMatrixToVectorSymmetric(i', j', size);
    SlotInRow(lo, hi, size);
    SlotInRow(lo', hi', size);
    SlotIsRowOffset(lo, hi, size);
    SlotIsRowOffset(lo', hi', size);
    if lo < lo' {
      RowStartMonotone(lo + 1, lo', size);
    } else if lo' < lo {
      RowStartMonotone(lo' + 1, lo, size);
    }
  }

  /**
   * The slots the pairs of `(0..n).combinations(2)` write: one per pair, all
   * inside the force buffer and no two alike.
   */
  lemma PairSlots(n: nat) returns (slots: seq<nat>)
    ensures |slots| == |Combinations2(n)|
    ensures forall u :: 0 <= u < |slots| ==>
      slots[u] == FromMatrixToVector(Combinations2(n)[u].0, Combinations2(n)[u].1, n) && slots[u] < ForcesSize(n)
    ensures forall u, v :: 0 <= u < v < |slots| ==> slots[u] != slots[v]
    ensures forall i: nat, j: nat :: i < j < n ==> exists u :: 0 <= u < |slots| && Combinations2(n)[u] == (i, j)
  {
    var pairs := Combinations2(n);
    Combinations2Spec(n);
    forall u | 0 <= u < |pairs|
      ensures 0 <= FromMatrixToVector(pairs[u].0, pairs[u].1, n) < ForcesSize(n)
    {
      FromMatrixToVectorBounds(pairs[u].0, pairs[u].1, n);
    }
    slots := seq(|pairs|, u requires 0 <= u < |pairs| => FromMatrixToVector(pairs[u].0, pairs[u].1, n) as nat);
    forall u, v | 0 <= u < v < |slots|
      ensures slots[u] != slots[v]
    {
      assert LexLess(pairs[u], pairs[v]);
      if slots[u] == slots[v] {
        FromMatrixToVectorInjective(pairs[u].0, pairs[u].1, pairs[v].0, pairs[v].1, n);
      }
    }
    forall i: nat, j: nat | i < j < n
      ensures exists u :: 0 <= u < |slots| && pairs[u] == (i, j)
    {
      assert (i, j) in pairs;
    }
  }

  function Min(a: nat, b: nat): nat { if a <= b then a else b }
  function Max(a: nat, b: nat): nat { if a <= b then b else a }

  /** Positions and velocities of all bodies. */
  datatype Kinematics = Kinematics(positions: seq<Vec3>, velocities: seq<Vec3>)

  /** The gravitational force between bodies `i` and `j` (line 200). */
  function PairForce(ops: FloatOps, g: real, p: seq<Vec3>, m: seq<real>, i: nat, j: nat): real
    requires i < |p| && j < |p| && |m| == |p|
  {
    ops.divide(g * m[i] * m[j], DistanceSquared(p[i], p[j]))
  }

  /**
   * What body `j` contributes to the acceleration of body `i` (lines 222-237):
   * nothing for itself, otherwise the force of the pair divided by `i`'s mass,
   * pointing from `i` towards `j`. Both bodies of a pair use the force computed
   * once for the pair in increasing order.
   */
  function Pull(ops: FloatOps, g: real, p: seq<Vec3>, m: seq<real>, i: nat, j: nat): Vec3
    requires i < |p| && j < |p| && |m| == |p|
  {
    if i == j then Zero
    else
      var a := ops.divide(PairForce(ops, g, p, m, Min(i, j), Max(i, j)), m[i]);
      Scale(ops.normalize(Sub(p[i], p[j])), -a)
  }

  /** The sum of the pulls of bodies `0..k` on body `i`. */
  function AccelerationUpTo(ops: FloatOps, g: real, p: seq<Vec3>, m: seq<real>, i: nat, k: nat): Vec3
    requires i < |p| && k <= |p| && |m| == |p|
  {
    if k == 0 then Zero
    else Add(AccelerationUpTo(ops, g, p, m, i, k - 1), Pull(ops, g, p, m, i, k - 1))
  }

  function Acceleration(ops: FloatOps, g: real, p: seq<Vec3>, m: seq<real>, i: nat): Vec3
    requires i < |p| && |m| == |p|
  {
    AccelerationUpTo(ops, g, p, m, i, |p|)
  }

  /** Every velocity after gaining its acceleration for `dt`. */
  function Kicked(ops: FloatOps, g: real, m: seq<real>, dt: real, p: seq<Vec3>, v: seq<Vec3>): (r: seq<Vec3>)
    requires |v| == |p| == |m|
    ensures |r| == |v|
  {
    seq(|p|, i requires 0 <= i < |p| => Add(v[i], Scale(Acceleration(ops, g, p, m, i), dt)))
  }

  /**
   * One pass: every velocity is updated from accelerations computed on the
   * positions at the start of the pass; only then is every position moved, by
   * the new velocity.
   */
  function Pass(ops: FloatOps, g: real, m: seq<real>, dt: real, s: Kinematics): (r: Kinematics)
    requires |s.velocities| == |s.positions| == |m|
    ensures |r.positions| == |r.velocities| == |s.positions|
  {
    var v := Kicked(ops, g, m, dt, s.positions, s.velocities);
    Kinematics(Advance(s.positions, v, dt), v)
  }

  /** `k` passes in a row. */
  function Passes(ops: FloatOps, g: real, m: seq<real>, dt: real, k: nat, s: Kinematics): (r: Kinematics)
    requires |s.velocities| == |s.positions| == |m|
    ensures |r.positions| == |r.velocities| == |s.positions|
  {
    if k == 0 then s else Pass(ops, g, m, dt, Passes(ops, g, m, dt, k - 1, s))
  }

  /**
   * Each pass is semi-implicit (symplectic) Euler: the velocity gains
   * `a·dt` and the position moves by the NEW velocity, i.e. by
   * `v·dt + a·dt²`, where `a` is computed from the positions before the pass.
   */
  lemma PassIsSemiImplicitEuler(ops: FloatOps, g: real, m: seq<real>, dt: real, s: Kinematics, i: nat)
    requires |s.velocities| == |s.positions| == |m|
    requires i < |s.positions|
    ensures var a := Acceleration(ops, g, s.positions, m, i);
      && Pass(ops, g, m, dt, s).velocities[i] == Add(s.velocities[i], Scale(a, dt))
      && Pass(ops, g, m, dt, s).positions[i] ==
           Add(Add(s.positions[i], Scale(s.velocities[i], dt)), Scale(a, dt * dt))
  {
    var a := Acceleration(ops, g, s.positions, m, i);
    var r := Pass(ops, g, m, dt, s);
    var v := Add(s.velocities[i], Scale(a, dt));
    assert r.velocities[i] == v;
    MovedBy(r.positions[i], s.positions[i], Scale(v, dt));
    DriftAfterKick(s.positions[i], s.velocities[i], a, dt);
  }

  /** A point whose difference from `p` is `d` is `p + d`. */
  lemma MovedBy(r: Vec3, p: Vec3, d: Vec3)
    requires Sub(r, p) == d
    ensures r == Add(p, d)
  {
  }

  /** Moving by the kicked velocity is moving by the old one plus `a·dt²`. */
  lemma DriftAfterKick(p: Vec3, v: Vec3, a: Vec3, dt: real)
    ensures Add(p, Scale(Add(v, Scale(a, dt)), dt)) == Add(Add(p, Scale(v, dt)), Scale(a, dt * dt))
  {
    assert (v.x + a.x * dt) * dt == v.x * dt + a.x * (dt * dt);
    assert (v.y + a.y * dt) * dt == v.y * dt + a.y * (dt * dt);
    assert (v.z + a.z * dt) * dt == v.z * dt + a.z * (dt * dt);
  }

  /** `pass` is one pass of `dt` over bodies of masses `m`, wherever a pass is defined. */
  ghost predicate IsPass(ops: FloatOps, g: real, m: seq<real>, dt: real, pass: Kinematics -> Kinematics) {
    forall s: Kinematics {:trigger Pass(ops, g, m, dt, s)} ::
      |s.velocities| == |s.positions| == |m| ==> pass(s) == Pass(ops, g, m, dt, s)
  }

  /** One pass as a value; it leaves states of the wrong shape alone. */
  function PassOf(ops: FloatOps, g: real, m: seq<real>, dt: real): (pass: Kinematics -> Kinematics) {
    (s: Kinematics) => if |s.velocities| == |s.positions| == |m| then Pass(ops, g, m, dt, s) else s
  }

  lemma PassOfIsPass(ops: FloatOps, g: real, m: seq<real>, dt: real)
    ensures IsPass(ops, g, m, dt, PassOf(ops, g, m, dt))
  {
  }

  /** `pass` applied `k` times. */
  function Iterate(pass: Kinematics -> Kinematics, k: nat, s: Kinematics): Kinematics {
    if k == 0 then s else pass(Iterate(pass, k - 1, s))
  }

  /** Iterating a pass is `Passes`. */
  lemma {:induction false} IterateIsPasses(ops: FloatOps, g: real, m: seq<real>, dt: real,
                                           pass: Kinematics -> Kinematics, k: nat, s: Kinematics)
    requires IsPass(ops, g, m, dt, pass) && |s.velocities| == |s.positions| == |m|
    ensures Iterate(pass, k, s) == Passes(ops, g, m, dt, k, s)
  {
    if k > 0 {
      IterateIsPasses(ops, g, m, dt, pass, k - 1, s);
      var before := Passes(ops, g, m, dt, k - 1, s);
      assert pass(before) == Pass(ops, g, m, dt, before);
    }
  }

  /** The pass structure composes: `k + 1` passes are `k` passes followed by one more. */
  lemma {:induction false} PassesSplit(ops: FloatOps, g: real, m: seq<real>, dt: real, k: nat, s: Kinematics)
    requires |s.velocities| == |s.positions| == |m|
    ensures Passes(ops, g, m, dt, k + 1, s) == Passes(ops, g, m, dt, k, Pass(ops, g, m, dt, s))
  {
    if k > 0 {
      PassesSplit(ops, g, m, dt, k - 1, s);
    }
  }

  class SpaceSimulation {
    var bodies: SpaceBodies
    var g: real

    constructor (bodies: SpaceBodies, g: real)
      ensures this.bodies == bodies && this.g == g
    {
      this.bodies := bodies;
      this.g := g;
    }

    /**
     * Fill the force table for the current positions (lines 190-210): each
     * pair `i < j` writes its force at its packed slot.
     */
    method FillForces(ops: FloatOps, forces: array<real>)
      requires bodies.Valid()
      requires forces.Length == ForcesSize(|bodies.positions|)
      modifies forces
      ensures forall i: nat, j: nat :: i < j < |bodies.positions| ==>
        0 <= FromMatrixToVector(i, j, |bodies.positions|) < forces.Length &&
        forces[FromMatrixToVector(i, j, |bodies.positions|)] == PairForce(ops, g, bodies.positions, bodies.masses, i, j)
    {
      var n := |bodies.positions|;
      var pairs := Combinations2(n);
      ghost var slots := PairSlots(n);
      Combinations2Spec(n);
      for t := 0 to |pairs|
        invariant forall u :: 0 <= u < t ==>
          forces[slots[u]] == PairForce(ops, g, bodies.positions, bodies.masses, pairs[u].0, pairs[u].1)
      {
        var (i, j) := pairs[t];
        var force := PairForce(ops, g, bodies.positions, bodies.masses, i, j);
        var index := FromMatrixToVector(i, j, n);
        assert index == slots[t];
        forces[index] := force;
      }
      forall i: nat, j: nat | i < j < n
        ensures 0 <= FromMatrixToVector(i, j, n) < forces.Length &&
          forces[FromMatrixToVector(i, j, n)] == PairForce(ops, g, bodies.positions, bodies.masses, i, j)
      {
        var u :| 0 <= u < |pairs| && pairs[u] == (i, j);
      }
    }

    /**
     * The acceleration of body `i`, read from the force table (lines 219-239).
     * The pair is looked up in whichever order it comes, which the table's
     * symmetry makes the same slot.
     */
    method AccelerationOf(ops: FloatOps, forces: array<real>, i: nat) returns (a: Vec3)
      requires bodies.Valid() && i < |bodies.positions|
      requires forces.Length == ForcesSize(|bodies.positions|)
      requires forall x: nat, y: nat :: x < y < |bodies.positions| ==>
        0 <= FromMatrixToVector(x, y, |bodies.positions|) < forces.Length &&
        forces[FromMatrixToVector(x, y, |bodies.positions|)] == PairForce(ops, g, bodies.positions, bodies.masses, x, y)
      ensures a == Acceleration(ops, g, bodies.positions, bodies.masses, i)
    {
      var n := |bodies.positions|;
      var p, m := bodies.positions, bodies.masses;
      a := Zero;
      for j := 0 to n
        invariant a == AccelerationUpTo(ops, g, p, m, i, j)
      {
        var pull := Zero;
        if i != j {
          var index := FromMatrixToVector(i, j, n);
          FromMatrixToVectorSymmetric(i, j, n);
          var force := forces[index];
          assert force == PairForce(ops, g, p, m, Min(i, j), Max(i, j));
          var direction := ops.normalize(Sub(p[i], p[j]));
          var acc := ops.divide(force, m[i]);
          pull := Scale(direction, -acc);
        }
        a := Add(a, pull);
      }
    }

    /** Every velocity gains its acceleration times `dt` (lines 214-242). */
    method UpdateVelocities(ops: FloatOps, forces: array<real>, dt: real)
      requires bodies.Valid()
      requires forces.Length == ForcesSize(|bodies.positions|)
      requires forall x: nat, y: nat :: x < y < |bodies.positions| ==>
        0 <= FromMatrixToVector(x, y, |bodies.positions|) < forces.Length &&
        forces[FromMatrixToVector(x, y, |bodies.positions|)] == PairForce(ops, g, bodies.positions, bodies.masses, x, y)
      modifies bodies`velocities
      ensures bodies.Valid()
      ensures bodies.velocities == Kicked(ops, g, bodies.masses, dt, bodies.positions, old(bodies.velocities))
    {
      var n := bodies.Len();
      var p, v0 := bodies.positions, bodies.velocities;
      ghost var kicked := Kicked(ops, g, bodies.masses, dt, p, v0);
      var velocities := v0;
      for i := 0 to n
        invariant bodies.velocities == v0
        invariant |velocities| == n
        invariant forall k :: 0 <= k < i ==> velocities[k] == kicked[k]
        invariant forall k :: i <= k < n ==> velocities[k] == v0[k]
      {
        var a := AccelerationOf(ops, forces, i);
        velocities := velocities[i := Add(velocities[i], Scale(a, dt))];
      }
      bodies.velocities := velocities;
    }

    /** Every position moves by its (new) velocity times `dt` (lines 244-250). */
    method UpdatePositions(dt: real)
      requires bodies.Valid()
      modifies bodies`positions
      ensures bodies.Valid()
      ensures bodies.positions == Advance(old(bodies.positions), bodies.velocities, dt)
    {
      var n := bodies.Len();
      var p0, v := bodies.positions, bodies.velocities;
      var positions := p0;
      for i := 0 to n
        invariant bodies.positions == p0
        invariant |positions| == n
        invariant forall k :: 0 <= k < i ==> positions[k] == Advance(p0, v, dt)[k]
        invariant forall k :: i <= k < n ==> positions[k] == p0[k]
      {
        positions := positions[i := Add(positions[i], Scale(v[i], dt))];
      }
      bodies.positions := positions;
    }

    /** One pass of the `while iteration > 0` loop (lines 189-252). */
    method OnePass(ops: FloatOps, forces: array<real>, dt: real, ghost pass: Kinematics -> Kinematics)
      requires bodies.Valid() && IsPass(ops, g, bodies.masses, dt, pass)
      requires forces.Length == ForcesSize(|bodies.positions|)
      modifies bodies`positions, bodies`velocities, forces
      ensures bodies.Valid()
      ensures Kinematics(bodies.positions, bodies.velocities) == pass(Kinematics(old(bodies.positions), old(bodies.velocities)))
    {
      FillForces(ops, forces);
      UpdateVelocities(ops, forces, dt);
      UpdatePositions(dt);
      assert Kinematics(bodies.positions, bodies.velocities) ==
        Pass(ops, g, bodies.masses, dt, Kinematics(old(bodies.positions), old(bodies.velocities)));
    }

    /**
     * The `while iteration > 0` loop of `take_step_smooth` (lines 189-253):
     * `count` passes of `dt`, where `pass` is one pass as a value.
     */
    method RunPasses(ops: FloatOps, forces: array<real>, dt: real, count: nat, ghost pass: Kinematics -> Kinematics)
      requires bodies.Valid() && IsPass(ops, g, bodies.masses, dt, pass)
      requires forces.Length == ForcesSize(|bodies.positions|)
      modifies bodies`positions, bodies`velocities, forces
      ensures bodies.Valid()
      ensures Kinematics(bodies.positions, bodies.velocities) ==
        Passes(ops, g, bodies.masses, dt, count, Kinematics(old(bodies.positions), old(bodies.velocities)))
    {
      var iteration: nat := count;
      ghost var start := Kinematics(bodies.positions, bodies.velocities);
      ghost var done: nat := 0;
      while iteration > 0
        invariant bodies.Valid() && forces.Length == ForcesSize(|bodies.positions|)
        invariant done + iteration == count
        invariant Kinematics(bodies.positions, bodies.velocities) == Iterate(pass, done, start)
      {
        OnePass(ops, forces, dt, pass);
        iteration := iteration - 1;
        done := done + 1;
      }
      IterateIsPasses(ops, g, bodies.masses, dt, pass, count, start);
    }

    /**
     * `take_step_smooth` (lines 178-254): exactly `percision` passes of
     * `delta / percision` each. The millisecond clock update is not modelled.
     */
    method TakeStepSmooth(ops: FloatOps, percision: nat, deltaSeconds: real)
      requires bodies.Valid()
      modifies bodies
      ensures bodies.Valid()
      ensures bodies.masses == old(bodies.masses) && bodies.names == old(bodies.names)
      ensures bodies.radiuses == old(bodies.radiuses) && bodies.rotations == old(bodies.rotations)
      ensures Kinematics(bodies.positions, bodies.velocities) ==
        Passes(ops, g, bodies.masses, ops.divide(deltaSeconds, percision as real), percision,
               Kinematics(old(bodies.positions), old(bodies.velocities)))
    {
      var n := bodies.Len();
      var dt := ops.divide(deltaSeconds, percision as real);
      var forces := new real[ForcesSize(n)](_ => 0.0);
      PassOfIsPass(ops, g, bodies.masses, dt);
      RunPasses(ops, forces, dt, percision, PassOf(ops, g, bodies.masses, dt));
    }
  }
}
