/**
 * The older integrator of src/space/simulation.rs: a step drifts every
 * position, then kicks every pair `i < j` in turn, checking a per-pair
 * precision table first; `take_step_smooth` retries with half the step and
 * twice the step count whenever a pair raises a precision issue, rolling
 * positions and velocities (but not the table) back to a snapshot.
 */
module AdaptiveNBody {
  import opened Vectors
  import opened Pairs

  /** The number of tries `take_step_smooth` starts with (line 37). */
  const MAX_TRIES: nat := 20

  /** Indices and keys are 64-bit `usize` values. */
  const USIZE_LIMIT: nat := 0x1_0000_0000_0000_0000

  function Pow2(k: nat): (r: nat)
    ensures r >= 1
  {
    if k == 0 then 1 else 2 * Pow2(k - 1)
  }

  lemma {:induction false} Pow2Add(a: nat, b: nat)
    ensures Pow2(a + b) == Pow2(a) * Pow2(b)
  {
    if a > 0 {
      Pow2Add(a - 1, b);
    }
  }

  lemma Pow2At32()
    ensures Pow2(32) == 0x1_0000_0000
  {
    assert Pow2(2) == 4;
    Pow2Add(2, 2);
    Pow2Add(4, 4);
    Pow2Add(8, 8);
    Pow2Add(16, 16);
  }

  /** Bitwise `|` on unsigned integers, bit by bit from the least significant. */
  function BitOr(a: nat, b: nat): nat
    decreases a + b
  {
    if a == 0 then b
    else if b == 0 then a
    else 2 * BitOr(a / 2, b / 2) + (if a % 2 == 1 || b % 2 == 1 then 1 else 0)
  }

  /**
   * `i << 32` on a 64-bit `usize`: the bits of `i` above bit 31 are shifted
   * past bit 63 and lost.
   */
  function ShiftLeft32(i: nat): (r: nat)
    ensures r < USIZE_LIMIT
  {
    (i % 0x1_0000_0000) * 0x1_0000_0000
  }

  /** `make_percision_key`: `(i << 32) | j`. */
  function MakePercisionKey(i: nat, j: nat): nat {
    BitOr(ShiftLeft32(i), j)
  }

  /** Or-ing a number below `2^k` into a multiple of `2^k` adds it. */
  lemma {:induction false} BitOrDisjoint(x: nat, j: nat, k: nat)
    requires j < Pow2(k)
    ensures BitOr(x * Pow2(k), j) == x * Pow2(k) + j
  {
    if k > 0 && x != 0 && j != 0 {
      var a := x * Pow2(k);
      assert a == 2 * (x * Pow2(k - 1));
      assert a / 2 == x * Pow2(k - 1) && a % 2 == 0;
      BitOrDisjoint(x, j / 2, k - 1);
    }
  }

  /** For indices below 2^32 the key packs `i` into the high half and `j` into the low half. */
  lemma PercisionKeyIsSum(i: nat, j: nat)
    requires i < 0x1_0000_0000 && j < 0x1_0000_0000
    ensures MakePercisionKey(i, j) == i * 0x1_0000_0000 + j
  {
    Pow2At32();
    BitOrDisjoint(i, j, 32);
  }

  /** Different index pairs below 2^32 get different keys. */
  lemma PercisionKeyInjective(i: nat, j: nat, i': nat, j': nat)
    requires i < 0x1_0000_0000 && j < 0x1_0000_0000
    requires i' < 0x1_0000_0000 && j' < 0x1_0000_0000
    requires MakePercisionKey(i, j) == MakePercisionKey(i', j')
    ensures i == i' && j == j'
  {
    PercisionKeyIsSum(i, j);
    PercisionKeyIsSum(i', j');
    assert (i - i') * 0x1_0000_0000 == j' - j;
  }

  /** The key depends on the order of the pair. */
  lemma PercisionKeyOrdered(i: nat, j: nat)
    requires i < 0x1_0000_0000 && j < 0x1_0000_0000 && i != j
    ensures MakePercisionKey(i, j) != MakePercisionKey(j, i)
  {
    if MakePercisionKey(i, j) == MakePercisionKey(j, i) {
      PercisionKeyInjective(i, j, j, i);
    }
  }

  /** From 2^32 on the halves overlap and keys collide. */
  lemma PercisionKeyCollidesBeyond32Bits()
    ensures MakePercisionKey(0, 0x1_0000_0000) == MakePercisionKey(1, 0)
  {
  }

  datatype StepResult = Success | PercisionIssue

  /** What the pair loop of `take_step` updates: velocities and the precision table. */
  datatype Kinetics = Kinetics(velocities: seq<Vec3>, table: map<nat, real>)

  datatype PairOutcome = PairOutcome(result: StepResult, after: Kinetics)

  /** `percision_table.get(key).unwrap_or(0.0) * delta` (lines 83-87). */
  function Threshold(table: map<nat, real>, key: nat, delta: real): real {
    (if key in table then table[key] else 0.0) * delta
  }

  /** The velocity change per unit of the other body's mass: `direction / distance²`. */
  function Pull(ops: FloatOps, p1: Vec3, p2: Vec3): Vec3 {
    var distance := Distance(ops, p1, p2);
    DivideVec(ops, ops.normalize(Sub(p1, p2)), distance * distance)
  }

  /**
   * One iteration of the pair loop (lines 79-109): the precision check, then
   * equal-and-opposite kicks, then a table update when the two velocities
   * pointed against each other before the kick.
   */
  function PairStep(ops: FloatOps, g: real, p: seq<Vec3>, m: seq<real>, delta: real, k: Kinetics, i: nat, j: nat): (o: PairOutcome)
    requires i < j < |p| && |m| == |p| == |k.velocities|
    ensures |o.after.velocities| == |k.velocities|
  {
    var key := MakePercisionKey(i, j);
    if Distance(ops, p[i], p[j]) < Threshold(k.table, key, delta) then PairOutcome(PercisionIssue, k)
    else
      var u := Pull(ops, p[i], p[j]);
      var v1, v2 := k.velocities[i], k.velocities[j];
      var vi := Sub(v1, Scale(Scale(Scale(u, m[j]), delta), g));
      var vj := Add(v2, Scale(Scale(Scale(u, m[i]), delta), g));
      var table := if Dot(v1, v2) < 0.0 then k.table[key := ops.length(vi) + ops.length(vj)] else k.table;
      PairOutcome(Success, Kinetics(k.velocities[i := vi][j := vj], table))
  }

  ghost predicate OrderedPairs(ps: seq<(nat, nat)>, n: nat) {
    forall t :: 0 <= t < |ps| ==> ps[t].0 < ps[t].1 < n
  }

  /** The pairs `ps` processed in order, stopping at the first precision issue. */
  function KickPairs(ops: FloatOps, g: real, p: seq<Vec3>, m: seq<real>, delta: real, k: Kinetics, ps: seq<(nat, nat)>): (o: PairOutcome)
    requires |m| == |p| == |k.velocities|
    requires OrderedPairs(ps, |p|)
    ensures |o.after.velocities| == |k.velocities|
    decreases |ps|
  {
    if ps == [] then PairOutcome(Success, k)
    else
      var o := KickPairs(ops, g, p, m, delta, k, ps[..|ps| - 1]);
      if o.result == PercisionIssue then o
      else PairStep(ops, g, p, m, delta, o.after, ps[|ps| - 1].0, ps[|ps| - 1].1)
  }

  /**
   * The state `take_step` works on: positions, velocities and masses of the
   * bodies (parallel sequences) and the precision table.
   */
  datatype World = World(positions: seq<Vec3>, velocities: seq<Vec3>, masses: seq<real>, table: map<nat, real>)

  /** A world whose per-body sequences are parallel. */
  type Bodies = w: World | |w.positions| == |w.velocities| == |w.masses|
    witness World([], [], [], map[])

  datatype Step = Step(result: StepResult, world: Bodies)

  /** The pairs `take_step` visits: `(0..n).combinations(2)`. */
  function StepPairs(n: nat): (ps: seq<(nat, nat)>)
    ensures OrderedPairs(ps, n)
  {
    Combinations2Spec(n);
    Combinations2(n)
  }

  /** `take_step`: every position drifts first, then the pairs are kicked in lexicographic order. */
  function TakeStepSpec(ops: FloatOps, g: real, delta: real, w: Bodies): (s: Step)
    ensures s.world.masses == w.masses
  {
    var p := Advance(w.positions, w.velocities, delta);
    var o := KickPairs(ops, g, p, w.masses, delta, Kinetics(w.velocities, w.table), StepPairs(|p|));
    Step(o.result, World(p, o.after.velocities, w.masses, o.after.table))
  }

  /** `take_step` of a simulation with gravitational constant `g`, as a value. */
  function StepOf(ops: FloatOps, g: real): (real, Bodies) -> Step {
    (delta: real, w: Bodies) => TakeStepSpec(ops, g, delta, w)
  }

  /** `step` is `take_step` of a simulation with gravitational constant `g`. */
  ghost predicate IsTakeStep(ops: FloatOps, g: real, step: (real, Bodies) -> Step) {
    forall delta: real, w: Bodies {:trigger TakeStepSpec(ops, g, delta, w)} :: step(delta, w) == TakeStepSpec(ops, g, delta, w)
  }

  /** `for _ in 0..steps { take_step }`, stopping at the first precision issue. */
  function Attempt(step: (real, Bodies) -> Step, delta: real, steps: nat, w: Bodies): Step {
    if steps == 0 then Step(Success, w)
    else
      var s := Attempt(step, delta, steps - 1, w);
      if s.result == PercisionIssue then s else step(delta, s.world)
  }

  /** The loop variables of `take_step_smooth` when its main loop ends. */
  datatype Settled = Settled(world: Bodies, delta: real, tries: nat, steps: nat)

  /**
   * The retry loop of `take_step_smooth` (lines 43-58). After a precision
   * issue the positions and velocities go back to the snapshot `snap`, but the
   * table the failed attempt wrote is kept.
   */
  function Smooth(step: (real, Bodies) -> Step, snap: Bodies, delta: real, tries: nat, steps: nat, w: Bodies): Settled
    decreases tries
  {
    if tries == 0 then Settled(w, delta, tries, steps)
    else
      var s := Attempt(step, delta, steps, w);
      if s.result == Success then Settled(s.world, delta, tries, steps)
      else Smooth(step, snap, delta / 2.0, tries - 1, steps * 2, snap.(table := s.world.table))
  }


  // ---------------------------------------------------------------------------
  // Properties of the pair loop

  /** Once a prefix of the pairs raised an issue, later pairs change nothing. */
  lemma {:induction false} KickPairsIssueSticks(ops: FloatOps, g: real, p: seq<Vec3>, m: seq<real>, delta: real,
                                                k: Kinetics, ps: seq<(nat, nat)>, t: nat)
    requires |m| == |p| == |k.velocities|
    requires OrderedPairs(ps, |p|) && t <= |ps|
    requires KickPairs(ops, g, p, m, delta, k, ps[..t]).result == PercisionIssue
    ensures KickPairs(ops, g, p, m, delta, k, ps) == KickPairs(ops, g, p, m, delta, k, ps[..t])
    decreases |ps|
  {
    if t < |ps| {
      var init := ps[..|ps| - 1];
      assert init[..t] == ps[..t];
      KickPairsIssueSticks(ops, g, p, m, delta, k, init, t);
    } else {
      assert ps[..t] == ps;
    }
  }

  /**
   * Pairs `ps[..t]` all succeed, pair `t` raises the issue, and the whole run
   * ends in the state after `ps[..t]`.
   */
  ghost predicate FirstIssueAt(ops: FloatOps, g: real, p: seq<Vec3>, m: seq<real>, delta: real,
                               k: Kinetics, ps: seq<(nat, nat)>, t: nat)
    requires |m| == |p| == |k.velocities|
    requires OrderedPairs(ps, |p|) && t < |ps|
  {
    var before := KickPairs(ops, g, p, m, delta, k, ps[..t]);
    && before.result == Success
    && PairStep(ops, g, p, m, delta, before.after, ps[t].0, ps[t].1).result == PercisionIssue
    && KickPairs(ops, g, p, m, delta, k, ps) == PairOutcome(PercisionIssue, before.after)
  }

  /**
   * A precision issue leaves exactly the kicks of the pairs before the
   * offending one applied: the result is the state after the first `t` pairs,
   * all of which succeeded, and pair `t` is the one that failed.
   */
  lemma {:induction false} KickPairsStopsAtFirstIssue(ops: FloatOps, g: real, p: seq<Vec3>, m: seq<real>, delta: real,
                                                      k: Kinetics, ps: seq<(nat, nat)>)
    requires |m| == |p| == |k.velocities|
    requires OrderedPairs(ps, |p|)
    requires KickPairs(ops, g, p, m, delta, k, ps).result == PercisionIssue
    ensures exists t :: 0 <= t < |ps| && FirstIssueAt(ops, g, p, m, delta, k, ps, t)
    decreases |ps|
  {
    var init := ps[..|ps| - 1];
    var o := KickPairs(ops, g, p, m, delta, k, init);
    if o.result == PercisionIssue {
      KickPairsStopsAtFirstIssue(ops, g, p, m, delta, k, init);
      var t :| 0 <= t < |init| && FirstIssueAt(ops, g, p, m, delta, k, init, t);
      assert init[..t] == ps[..t];
      assert init[t] == ps[t];
      assert FirstIssueAt(ops, g, p, m, delta, k, ps, t);
    } else {
      assert ps[..|ps| - 1] == init;
      assert FirstIssueAt(ops, g, p, m, delta, k, ps, |ps| - 1);
    }
  }

  /**
   * A pair without a table entry never raises a precision issue: its
   * threshold is 0 and a distance is never negative.
   */
  lemma NoEntryNoIssue(ops: FloatOps, g: real, p: seq<Vec3>, m: seq<real>, delta: real, k: Kinetics, i: nat, j: nat)
    requires Sound(ops)
    requires i < j < |p| && |m| == |p| == |k.velocities|
    requires MakePercisionKey(i, j) !in k.table
    ensures PairStep(ops, g, p, m, delta, k, i, j).result == Success
  {
    assert Distance(ops, p[i], p[j]) >= 0.0;
  }

  lemma MulLeft(a: real, b: real, c: real)
    requires a == b
    ensures a * c == b * c
  {
  }

  /** The kick `j` receives, `+ u·m_i·delta·G`, is `u·delta·G` scaled by `m_i`. */
  lemma KickUp(v: Vec3, u: Vec3, m: real, delta: real, g: real)
    ensures Sub(Add(v, Scale(Scale(Scale(u, m), delta), g)), v) == Scale(Scale(Scale(u, delta), g), m)
  {
  }

  /** The kick `i` receives, `− u·m_j·delta·G`, is `u·delta·G` scaled by `−m_j`. */
  lemma KickDown(v: Vec3, u: Vec3, m: real, delta: real, g: real)
    ensures Sub(Sub(v, Scale(Scale(Scale(u, m), delta), g)), v) == Scale(Scale(Scale(u, delta), g), -m)
  {
  }

  /** Scaling by two factors does not depend on their order. */
  lemma ScaleCommutes(p: Vec3, a: real, b: real)
    ensures Scale(Scale(p, a), b) == Scale(Scale(p, b), a)
  {
  }

  /** The two kicks of a pair cancel once weighted by mass. */
  lemma KicksCancel(u: Vec3, vi: Vec3, vj: Vec3, mi: real, mj: real, delta: real, g: real)
    ensures Scale(Sub(Sub(vi, Scale(Scale(Scale(u, mj), delta), g)), vi), mi) ==
            Scale(Sub(Add(vj, Scale(Scale(Scale(u, mi), delta), g)), vj), -mj)
  {
    KickDown(vi, u, mj, delta, g);
    KickUp(vj, u, mi, delta, g);
    ScaleCommutes(Scale(Scale(u, delta), g), -mj, mi);
  }

  /**
   * A successful pair step changes only the velocities of `i` and `j`, and
   * their mass-weighted changes cancel.
   */
  lemma PairKick(ops: FloatOps, g: real, p: seq<Vec3>, m: seq<real>, delta: real, k: Kinetics, i: nat, j: nat)
    requires i < j < |p| && |m| == |p| == |k.velocities|
    requires PairStep(ops, g, p, m, delta, k, i, j).result == Success
    ensures var after := PairStep(ops, g, p, m, delta, k, i, j).after;
      && Scale(Sub(after.velocities[i], k.velocities[i]), m[i]) ==
         Scale(Sub(after.velocities[j], k.velocities[j]), -m[j])
      && (forall t :: 0 <= t < |k.velocities| && t != i && t != j ==> after.velocities[t] == k.velocities[t])
  {
    KicksCancel(Pull(ops, p[i], p[j]), k.velocities[i], k.velocities[j], m[i], m[j], delta, g);
  }

  /**
   * The table rule of a pair step: it changes at most at the key of `(i, j)`,
   * only after a successful kick of two velocities that pointed against each
   * other, and then records the sum of the two new speeds.
   */
  lemma PairTableRule(ops: FloatOps, g: real, p: seq<Vec3>, m: seq<real>, delta: real, k: Kinetics, i: nat, j: nat)
    requires i < j < |p| && |m| == |p| == |k.velocities|
    ensures var o := PairStep(ops, g, p, m, delta, k, i, j);
      && (forall key :: key != MakePercisionKey(i, j) ==> (key in o.after.table <==> key in k.table))
      && (forall key :: key != MakePercisionKey(i, j) && key in k.table ==> o.after.table[key] == k.table[key])
      && (o.after.table != k.table ==> o.result == Success && Dot(k.velocities[i], k.velocities[j]) < 0.0)
      && (o.result == Success && Dot(k.velocities[i], k.velocities[j]) < 0.0 ==>
            MakePercisionKey(i, j) in o.after.table &&
            o.after.table[MakePercisionKey(i, j)] == ops.length(o.after.velocities[i]) + ops.length(o.after.velocities[j]))
  {
  }

  // ---------------------------------------------------------------------------
  // Momentum

  function MomentumUpTo(m: seq<real>, v: seq<Vec3>, k: nat): Vec3
    requires k <= |v| == |m|
  {
    if k == 0 then Zero else Add(MomentumUpTo(m, v, k - 1), Scale(v[k - 1], m[k - 1]))
  }

  /** Total momentum `Σ m_k·v_k`. */
  function Momentum(m: seq<real>, v: seq<Vec3>): Vec3
    requires |v| == |m|
  {
    MomentumUpTo(m, v, |v|)
  }

  lemma {:induction false} MomentumUpdate(m: seq<real>, v: seq<Vec3>, i: nat, x: Vec3, k: nat)
    requires i < |v| == |m| && k <= |v|
    ensures MomentumUpTo(m, v[i := x], k) ==
      if i < k then Add(MomentumUpTo(m, v, k), Scale(Sub(x, v[i]), m[i])) else MomentumUpTo(m, v, k)
  {
    if k > 0 {
      MomentumUpdate(m, v, i, x, k - 1);
      if i == k - 1 {
        var a := MomentumUpTo(m, v, k - 1);
        assert x.x * m[i] == v[i].x * m[i] + (x.x - v[i].x) * m[i];
        assert x.y * m[i] == v[i].y * m[i] + (x.y - v[i].y) * m[i];
        assert x.z * m[i] == v[i].z * m[i] + (x.z - v[i].z) * m[i];
      }
    }
  }

  lemma ScaleOpposite(d: Vec3, k: real)
    ensures Add(Scale(d, -k), Scale(d, k)) == Zero
  {
    MulLeft(-k, 0.0 - k, d.x);
    MulLeft(-k, 0.0 - k, d.y);
    MulLeft(-k, 0.0 - k, d.z);
  }

  /** A pair step, successful or not, keeps the total momentum and never drops a table key. */
  lemma PairStepConserves(ops: FloatOps, g: real, p: seq<Vec3>, m: seq<real>, delta: real, k: Kinetics, i: nat, j: nat)
    requires i < j < |p| && |m| == |p| == |k.velocities|
    ensures var o := PairStep(ops, g, p, m, delta, k, i, j);
      Momentum(m, o.after.velocities) == Momentum(m, k.velocities) && k.table.Keys <= o.after.table.Keys
  {
    var o := PairStep(ops, g, p, m, delta, k, i, j);
    if o.result == Success {
      PairKick(ops, g, p, m, delta, k, i, j);
      var v := k.velocities;
      var vi, vj := o.after.velocities[i], o.after.velocities[j];
      assert o.after.velocities == v[i := vi][j := vj];
      var total := Momentum(m, v);
      var di, dj := Scale(Sub(vi, v[i]), m[i]), Scale(Sub(vj, v[j]), m[j]);
      MomentumUpdate(m, v, i, vi, |v|);
      assert Momentum(m, v[i := vi]) == Add(total, di);
      MomentumUpdate(m, v[i := vi], j, vj, |v|);
      assert Momentum(m, o.after.velocities) == Add(Add(total, di), dj);
      ScaleOpposite(Sub(vj, v[j]), m[j]);
      assert Add(di, dj) == Zero;
    }
  }

  lemma {:induction false} KickPairsConserves(ops: FloatOps, g: real, p: seq<Vec3>, m: seq<real>, delta: real,
                                              k: Kinetics, ps: seq<(nat, nat)>)
    requires |m| == |p| == |k.velocities|
    requires OrderedPairs(ps, |p|)
    ensures var o := KickPairs(ops, g, p, m, delta, k, ps);
      Momentum(m, o.after.velocities) == Momentum(m, k.velocities) && k.table.Keys <= o.after.table.Keys
    decreases |ps|
  {
    if ps != [] {
      var init := ps[..|ps| - 1];
      KickPairsConserves(ops, g, p, m, delta, k, init);
      var o := KickPairs(ops, g, p, m, delta, k, init);
      if o.result == Success {
        PairStepConserves(ops, g, p, m, delta, o.after, ps[|ps| - 1].0, ps[|ps| - 1].1);
      }
    }
  }

  /** What `take_step` keeps from `w` to `w'`: the masses, the total momentum and every key of the table. */
  ghost predicate Keeps(w: Bodies, w': Bodies) {
    w'.masses == w.masses &&
    Momentum(w.masses, w'.velocities) == Momentum(w.masses, w.velocities) &&
    w.table.Keys <= w'.table.Keys
  }

  /** Every step of `step` keeps the masses, the momentum and the table's keys. */
  ghost predicate Conserving(step: (real, Bodies) -> Step) {
    forall delta: real, w: Bodies :: Keeps(w, step(delta, w).world)
  }

  /** `take_step` keeps the total momentum and never drops a table key, whether or not it succeeds. */
  lemma TakeStepConserves(ops: FloatOps, g: real, delta: real, w: Bodies)
    ensures Keeps(w, TakeStepSpec(ops, g, delta, w).world)
  {
    var p := Advance(w.positions, w.velocities, delta);
    KickPairsConserves(ops, g, p, w.masses, delta, Kinetics(w.velocities, w.table), StepPairs(|p|));
  }

  lemma StepOfConserving(ops: FloatOps, g: real)
    ensures Conserving(StepOf(ops, g))
  {
    forall delta: real, w: Bodies
      ensures Keeps(w, StepOf(ops, g)(delta, w).world)
    {
      TakeStepConserves(ops, g, delta, w);
    }
  }

  lemma StepOfIsTakeStep(ops: FloatOps, g: real)
    ensures IsTakeStep(ops, g, StepOf(ops, g))
  {
  }

  lemma {:induction false} AttemptConserves(step: (real, Bodies) -> Step, delta: real, steps: nat, w: Bodies)
    requires Conserving(step)
    ensures Keeps(w, Attempt(step, delta, steps, w).world)
  {
    if steps > 0 {
      AttemptConserves(step, delta, steps - 1, w);
    }
  }

  /**
   * The retry loop keeps the total momentum of the snapshot (in exact
   * arithmetic), and the precision table only grows: failed attempts are
   * rolled back in positions and velocities but not in the table.
   */
  lemma {:induction false} SmoothConserves(step: (real, Bodies) -> Step, snap: Bodies,
                                           delta: real, tries: nat, steps: nat, w: Bodies)
    requires Conserving(step) && Keeps(snap, w)
    ensures Keeps(snap, Smooth(step, snap, delta, tries, steps, w).world)
    decreases tries
  {
    if tries > 0 {
      AttemptConserves(step, delta, steps, w);
      var s := Attempt(step, delta, steps, w);
      if s.result == PercisionIssue {
        SmoothConserves(step, snap, delta / 2.0, tries - 1, steps * 2, snap.(table := s.world.table));
      }
    }
  }

  /** `take_step_smooth` keeps the masses and the total momentum, and never drops a table key. */
  lemma TakeStepSmoothConserves(ops: FloatOps, g: real, requested: real, w: Bodies)
    ensures Keeps(w, Smooth(StepOf(ops, g), w, requested, MAX_TRIES, 1, w).world)
  {
    StepOfConserving(ops, g);
    SmoothConserves(StepOf(ops, g), w, requested, MAX_TRIES, 1, w);
  }

  // ---------------------------------------------------------------------------
  // The retry schedule

  /** The loop invariant of lines 37-57: `step_count == 2^(20 - try_count)` and `delta · step_count` is the requested interval. */
  ghost predicate OnSchedule(requested: real, delta: real, tries: nat, steps: nat) {
    tries <= MAX_TRIES && steps == Pow2(MAX_TRIES - tries) && delta * steps as real == requested
  }

  /** A retry halves the step and doubles the count, staying on schedule. */
  lemma RetryKeepsSchedule(requested: real, delta: real, tries: nat, steps: nat)
    requires OnSchedule(requested, delta, tries, steps) && tries > 0
    ensures OnSchedule(requested, delta / 2.0, tries - 1, steps * 2)
  {
    assert Pow2(MAX_TRIES - (tries - 1)) == 2 * Pow2(MAX_TRIES - tries);
    assert (delta / 2.0) * (steps * 2) as real == delta * steps as real;
  }

  /** Once an issue has occurred, further steps of the same attempt change nothing. */
  lemma {:induction false} AttemptIssueSticks(step: (real, Bodies) -> Step, delta: real, s: nat, steps: nat, w: Bodies)
    requires s <= steps
    requires Attempt(step, delta, s, w).result == PercisionIssue
    ensures Attempt(step, delta, steps, w) == Attempt(step, delta, s, w)
    decreases steps
  {
    if s < steps {
      AttemptIssueSticks(step, delta, s, steps - 1, w);
    }
  }

  /**
   * The retry loop stays on schedule: it ends with `delta · steps` still equal
   * to the requested interval and `steps = 2^(20 - tries)`.
   */
  lemma {:induction false} SmoothStaysOnSchedule(step: (real, Bodies) -> Step, snap: Bodies,
                                                 requested: real, delta: real, tries: nat, steps: nat, w: Bodies)
    requires OnSchedule(requested, delta, tries, steps)
    ensures var r := Smooth(step, snap, delta, tries, steps, w);
      OnSchedule(requested, r.delta, r.tries, r.steps) && r.tries <= tries
    decreases tries
  {
    if tries > 0 {
      var s := Attempt(step, delta, steps, w);
      if s.result == PercisionIssue {
        RetryKeepsSchedule(requested, delta, tries, steps);
        SmoothStaysOnSchedule(step, snap, requested, delta / 2.0, tries - 1, steps * 2, snap.(table := s.world.table));
      }
    }
  }

  /**
   * How the retry loop settles, starting from its snapshot: if all tries
   * were used up the bodies are back at the snapshot; otherwise the result is
   * a clean attempt of `steps` steps of the final `delta` from the snapshot
   * (with the table as it was then).
   */
  lemma {:induction false} SmoothSettles(step: (real, Bodies) -> Step, snap: Bodies,
                                         delta: real, tries: nat, steps: nat, w: Bodies)
    requires w.positions == snap.positions && w.velocities == snap.velocities && w.masses == snap.masses
    ensures var r := Smooth(step, snap, delta, tries, steps, w);
      && (r.tries == 0 ==> r.world.positions == snap.positions && r.world.velocities == snap.velocities)
      && (r.tries > 0 ==> exists table :: Attempt(step, r.delta, r.steps, snap.(table := table)) == Step(Success, r.world))
    decreases tries
  {
    if tries > 0 {
      var s := Attempt(step, delta, steps, w);
      if s.result == Success {
        assert w == snap.(table := w.table);
      } else {
        SmoothSettles(step, snap, delta / 2.0, tries - 1, steps * 2, snap.(table := s.world.table));
      }
    }
  }

  lemma DivideBack(d: real, s: real, r: real)
    requires s >= 1.0 && d * s == r
    ensures d == r / s
  {
  }

  lemma ScaledFixedPoint(r: real, s: real)
    requires s >= 2.0 && r * s == r
    ensures r == 0.0
  {
    assert r * (s - 1.0) == 0.0;
  }

  /**
   * The clock advances by the final step size, which equals the requested
   * interval when no retry happened, and differs from it (for a nonzero
   * interval) after any retry: it is then `requested / 2^retries`.
   */
  lemma FinalDelta(requested: real, delta: real, tries: nat, steps: nat)
    requires OnSchedule(requested, delta, tries, steps)
    ensures tries == MAX_TRIES ==> delta == requested
    ensures tries < MAX_TRIES && requested != 0.0 ==> delta != requested
    ensures delta == requested / Pow2(MAX_TRIES - tries) as real
  {
    DivideBack(delta, steps as real, requested);
    if tries < MAX_TRIES {
      assert Pow2(MAX_TRIES - tries) == 2 * Pow2(MAX_TRIES - tries - 1);
      if delta == requested {
        ScaledFixedPoint(requested, steps as real);
      }
    }
  }

  /**
   * A failed attempt sends the retry loop to its next try: half the step,
   * twice the steps, from the snapshot and with the table the failed attempt
   * left.
   */
  lemma RetryAfterIssue(step: (real, Bodies) -> Step, snap: Bodies, delta: real, tries: nat, steps: nat, w: Bodies,
                        delta': real, tries': nat, steps': nat, retry: Bodies)
    requires tries > 0 && Attempt(step, delta, steps, w).result == PercisionIssue
    requires delta' == delta / 2.0 && tries' == tries - 1 && steps' == steps * 2
    requires retry == snap.(table := Attempt(step, delta, steps, w).world.table)
    ensures Smooth(step, snap, delta, tries, steps, w) == Smooth(step, snap, delta', tries', steps', retry)
  {
  }

  /** `KickPairs` over one more pair. */
  lemma KickPairsNext(ops: FloatOps, g: real, p: seq<Vec3>, m: seq<real>, delta: real,
                      k: Kinetics, ps: seq<(nat, nat)>, t: nat)
    requires |m| == |p| == |k.velocities|
    requires OrderedPairs(ps, |p|) && t < |ps|
    ensures KickPairs(ops, g, p, m, delta, k, ps[..t + 1]) ==
      var o := KickPairs(ops, g, p, m, delta, k, ps[..t]);
      if o.result == PercisionIssue then o else PairStep(ops, g, p, m, delta, o.after, ps[t].0, ps[t].1)
  {
    assert ps[..t + 1][..t] == ps[..t];
  }

  class SpaceSimulation {
    var positions: seq<Vec3>
    var velocities: seq<Vec3>
    var masses: seq<real>
    var time: real
    var trails: seq<seq<Vec3>>
    var percisionTable: map<nat, real>
    var g: real

    /** Parallel sequences, and a trail for every body (`trails[i]` panics otherwise);
        the setup system pushes one trail per body it spawns, which keeps this. */
    ghost predicate Valid()
      reads this
    {
      |velocities| == |positions| && |masses| == |positions| &&
      |trails| >= |positions|
    }

    /** The fields `take_step` reads and writes, as a value. */
    function State(): (w: Bodies)
      reads this
      requires Valid()
    {
      World(positions, velocities, masses, percisionTable)
    }

    /** One iteration of the pair loop of `take_step` (lines 79-109). */
    method KickPair(ops: FloatOps, delta: real, i: nat, j: nat) returns (r: StepResult)
      requires Valid() && i < j < |positions|
      modifies this`velocities, this`percisionTable
      ensures Valid()
      ensures PairOutcome(r, Kinetics(velocities, percisionTable)) ==
        PairStep(ops, g, positions, masses, delta, old(Kinetics(velocities, percisionTable)), i, j)
    {
      var (p1, p2) := (positions[i], positions[j]);
      var distance := Distance(ops, p1, p2);
      var key := MakePercisionKey(i, j);
      var percisionEntry := Threshold(percisionTable, key, delta);

      if distance < percisionEntry {
        return PercisionIssue;
      }

      var pull := Pull(ops, p1, p2);
      var v1 := velocities[i];
      var v2 := velocities[j];
      var vDot := Dot(v1, v2);

      velocities := velocities[i := Sub(velocities[i], Scale(Scale(Scale(pull, masses[j]), delta), g))];
      velocities := velocities[j := Add(velocities[j], Scale(Scale(Scale(pull, masses[i]), delta), g))];

      if vDot < 0.0 {
        var vSum := ops.length(velocities[i]) + ops.length(velocities[j]);
        percisionTable := percisionTable[key := vSum];
      }
      return Success;
    }

    /** The drift loop of `take_step` (lines 73-76): every position moves by its velocity times `delta`. */
    method Drift(delta: real)
      requires Valid()
      modifies this`positions
      ensures Valid()
      ensures positions == Advance(old(positions), velocities, delta)
    {
      var n := |positions|;
      for i := 0 to n
        invariant |positions| == n
        invariant forall k :: 0 <= k < i ==> positions[k] == Add(old(positions)[k], Scale(velocities[k], delta))
        invariant forall k :: i <= k < n ==> positions[k] == old(positions)[k]
      {
        positions := positions[i := Add(positions[i], Scale(velocities[i], delta))];
      }
    }

    /** The pair loop of `take_step` (lines 79-110): every pair in order, stopping at the first precision issue. */
    method KickAll(ops: FloatOps, delta: real) returns (r: StepResult)
      requires Valid()
      modifies this`velocities, this`percisionTable
      ensures Valid()
      ensures PairOutcome(r, Kinetics(velocities, percisionTable)) ==
        KickPairs(ops, g, positions, masses, delta, old(Kinetics(velocities, percisionTable)), StepPairs(|positions|))
    {
      var pairs := StepPairs(|positions|);
      ghost var k0 := Kinetics(velocities, percisionTable);
      for t := 0 to |pairs|
        invariant Valid()
        invariant KickPairs(ops, g, positions, masses, delta, k0, pairs[..t]) ==
          PairOutcome(Success, Kinetics(velocities, percisionTable))
      {
        KickPairsNext(ops, g, positions, masses, delta, k0, pairs, t);
        var (i, j) := pairs[t];
        var result := KickPair(ops, delta, i, j);
        if result == PercisionIssue {
          KickPairsIssueSticks(ops, g, positions, masses, delta, k0, pairs, t + 1);
          return PercisionIssue;
        }
      }
      assert pairs[..|pairs|] == pairs;
      return Success;
    }

    /** `take_step` (lines 69-113), where `step` is this simulation's `take_step` as a value. */
    method TakeStep(ops: FloatOps, delta: real, ghost step: (real, Bodies) -> Step) returns (r: StepResult)
      requires Valid() && IsTakeStep(ops, g, step)
      modifies this`positions, this`velocities, this`percisionTable
      ensures Valid()
      ensures Step(r, State()) == step(delta, old(State()))
    {
      Drift(delta);
      r := KickAll(ops, delta);
      assert Step(r, State()) == TakeStepSpec(ops, g, delta, old(State()));
    }

    /**
     * One try of `take_step_smooth` (lines 45-56): `steps` steps of `delta`,
     * stopping at the first precision issue.
     */
    method RunAttempt(ops: FloatOps, delta: real, steps: nat, ghost step: (real, Bodies) -> Step) returns (r: StepResult)
      requires Valid() && IsTakeStep(ops, g, step)
      modifies this`positions, this`velocities, this`percisionTable
      ensures Valid()
      ensures Step(r, State()) == Attempt(step, delta, steps, old(State()))
    {
      for s := 0 to steps
        invariant Valid()
        invariant Attempt(step, delta, s, old(State())) == Step(Success, State())
      {
        r := TakeStep(ops, delta, step);
        if r == PercisionIssue {
          AttemptIssueSticks(step, delta, s + 1, steps, old(State()));
          return;
        }
      }
      return Success;
    }

    /**
     * The retry loop of `take_step_smooth` (lines 37-58), where `step` is this
     * simulation's `take_step`: returns the step size of the attempt that
     * stuck, or of the last one when all tries failed.
     */
    method Settle(ops: FloatOps, requested: real, ghost step: (real, Bodies) -> Step) returns (delta: real)
      requires Valid() && IsTakeStep(ops, g, step)
      modifies this`positions, this`velocities, this`percisionTable
      ensures Valid()
      ensures var r := Smooth(step, old(State()), requested, MAX_TRIES, 1, old(State()));
        State() == r.world && delta == r.delta
    {
      delta := requested;
      var tryCount: nat := MAX_TRIES;
      var stepCount: nat := 1;

      var originalPositions := positions;
      var originalVelocities := velocities;
      ghost var snap := State();

      while tryCount > 0
        invariant Valid() && snap == old(State())
        invariant originalPositions == snap.positions && originalVelocities == snap.velocities && masses == snap.masses
        invariant Smooth(step, snap, delta, tryCount, stepCount, State()) == Smooth(step, snap, requested, MAX_TRIES, 1, snap)
        decreases tryCount
      {
        ghost var start := State();
        var result := RunAttempt(ops, delta, stepCount, step);
        if result == Success {
          return;
        }
        ghost var (delta0, tries0, steps0) := (delta, tryCount, stepCount);
        delta := delta / 2.0;
        tryCount := tryCount - 1;
        stepCount := stepCount * 2;
        positions := originalPositions;
        velocities := originalVelocities;
        RetryAfterIssue(step, snap, delta0, tries0, steps0, start, delta, tryCount, stepCount, State());
      }
    }

    /** Lines 59-63: every body's trail gets its new position. */
    method ExtendTrails()
      requires Valid()
      modifies this`trails
      ensures Valid()
      ensures |trails| == |old(trails)|
      ensures forall i :: 0 <= i < |positions| ==> trails[i] == old(trails[i]) + [positions[i]]
      ensures forall i :: |positions| <= i < |trails| ==> trails[i] == old(trails[i])
    {
      for i := 0 to |positions|
        invariant |trails| == |old(trails)|
        invariant forall k :: 0 <= k < i ==> trails[k] == old(trails[k]) + [positions[k]]
        invariant forall k :: i <= k < |trails| ==> trails[k] == old(trails[k])
      {
        trails := trails[i := trails[i] + [positions[i]]];
      }
    }

    /** `take_step_smooth` (lines 36-67). */
    method TakeStepSmooth(ops: FloatOps, requested: real)
      requires Valid()
      modifies this`positions, this`velocities, this`percisionTable, this`trails, this`time
      ensures Valid()
      ensures var r := Smooth(StepOf(ops, g), old(State()), requested, MAX_TRIES, 1, old(State()));
        State() == r.world && time == old(time) + r.delta
      ensures |trails| == |old(trails)|
      ensures forall i :: 0 <= i < |positions| ==> trails[i] == old(trails[i]) + [positions[i]]
      ensures forall i :: |positions| <= i < |trails| ==> trails[i] == old(trails[i])
    {
      StepOfIsTakeStep(ops, g);
      var delta := Settle(ops, requested, StepOf(ops, g));
      ExtendTrails();
      time := time + delta;
    }
  }
}
