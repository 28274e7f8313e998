/**
 * The structure-of-arrays body table of `SpaceBodies` (space_simulation.rs):
 * five parallel vectors and a map from a body's name to its slot.
 */
module BodyStore {
  import opened Wrappers
  import opened Vectors

  datatype Quat = Quat(x: real, y: real, z: real, w: real)

  datatype SpaceBodyRotation = SpaceBodyRotation(
    initial: Quat, sideralRotationOffset: real, sideralRotationSpeed: real)

  datatype SpaceBody = SpaceBody(
    position: Vec3, velocity: Vec3, mass: real, radius: real, rotation: SpaceBodyRotation)

  /** `Vec::swap_remove`: the last element takes the place of the removed one. */
  function SwapRemove<T>(s: seq<T>, i: nat): (r: seq<T>)
    requires i < |s|
    ensures |r| == |s| - 1
    ensures i < |r| ==> r[i] == s[|s| - 1]
    ensures forall k :: 0 <= k < |r| && k != i ==> r[k] == s[k]
    ensures multiset(r) + multiset{s[i]} == multiset(s)
  {
    if i == |s| - 1 then
      assert s == s[..i] + [s[i]];
      s[..i]
    else
      assert s == s[..i] + [s[i]] + s[i + 1..|s| - 1] + [s[|s| - 1]];
      s[..i] + [s[|s| - 1]] + s[i + 1..|s| - 1]
  }

  /** No two names share a slot. */
  ghost predicate Injective(m: map<string, nat>) {
    forall a, b :: a in m && b in m && a != b ==> m[a] != m[b]
  }

  /** The name map is a bijection onto the slots `0..n`. */
  ghost predicate IndexesExactly(m: map<string, nat>, n: nat) {
    Injective(m) && forall k: nat :: k in m.Values <==> k < n
  }

  /** `name` holds the largest slot of `m`: what `values_mut().max()` picks. */
  predicate HoldsMax(m: map<string, nat>, name: string) {
    name in m && forall other :: other in m ==> m[other] <= m[name]
  }

  /**
   * Lines 81-83: the entry holding the largest slot (if any) is repointed to
   * `index`. Which entry that is when several hold the maximum depends on the
   * hash order, so the relation allows any of them.
   */
  ghost predicate RepointedMax(before: map<string, nat>, after: map<string, nat>, index: nat) {
    if before == map[] then after == before
    else exists name :: HoldsMax(before, name) && after == before[name := index]
  }

  /** The corrected repointing: the entry that held slot `from` now holds `to`. */
  function Relocate(m: map<string, nat>, from: nat, to: nat): (r: map<string, nat>)
    ensures r.Keys == m.Keys
    ensures forall name :: name in m ==> r[name] == (if m[name] == from then to else m[name])
  {
    map name | name in m :: if m[name] == from then to else m[name]
  }

  lemma {:induction false} MaxExists(m: map<string, nat>)
    requires m != map[]
    ensures exists name :: HoldsMax(m, name)
    decreases |m|
  {
    var k :| k in m;
    var rest := m - {k};
    if rest == map[] {
      forall other | other in m ensures m[other] <= m[k] {
        assert other !in rest;
      }
      assert HoldsMax(m, k);
    } else {
      assert |rest| < |m| by { assert rest.Keys == m.Keys - {k}; }
      MaxExists(rest);
      var j :| HoldsMax(rest, j);
      var best := if m[k] >= m[j] then k else j;
      forall other | other in m ensures m[other] <= m[best] {
        if other != k {
          assert other in rest;
        }
      }
      assert HoldsMax(m, best);
    }
  }

  /** Inserting a new name at slot `n` keeps the map a bijection, onto `0..n+1`. */
  lemma InsertFreshKeepsIndexing(m: map<string, nat>, n: nat, name: string)
    requires IndexesExactly(m, n)
    requires name !in m
    ensures IndexesExactly(m[name := n], n + 1)
  {
    var m' := m[name := n];
    forall a, b | a in m' && b in m' && a != b ensures m'[a] != m'[b] {
      if a == name {
        assert m[b] in m.Values;
      } else if b == name {
        assert m[a] in m.Values;
      }
    }
    forall k: nat ensures k in m'.Values <==> k < n + 1 {
      if k < n {
        assert k in m.Values;
        var a :| a in m && m[a] == k;
        assert m'[a] == k;
      } else if k == n {
        assert m'[name] == n;
      } else {
        forall a | a in m' ensures m'[a] != k {
          if a != name {
            assert m[a] in m.Values;
          }
        }
      }
    }
  }

  /**
   * Inserting a name that is already present overwrites its entry: the body it
   * named stays in the arrays at its old slot, but no name reaches that slot any
   * more, and the map is no longer a bijection.
   */
  lemma InsertDuplicateOrphans(m: map<string, nat>, n: nat, name: string)
    requires IndexesExactly(m, n)
    requires name in m
    ensures m[name] !in m[name := n].Values
    ensures !IndexesExactly(m[name := n], n + 1)
  {
    var m' := m[name := n];
    var old_slot := m[name];
    assert old_slot in m.Values;
    forall a | a in m' ensures m'[a] != old_slot {
      if a != name {
        assert m[a] != m[name];
      }
    }
    assert old_slot < n + 1;
  }

  /** After `m - {name}` in a bijection, the slots in use are `0..n` without the freed one. */
  lemma RemovedValues(m: map<string, nat>, n: nat, name: string)
    requires IndexesExactly(m, n)
    requires name in m
    ensures Injective(m - {name})
    ensures forall k: nat :: k in (m - {name}).Values <==> k < n && k != m[name]
  {
    var r := m - {name};
    forall k: nat ensures k in r.Values <==> k < n && k != m[name] {
      if k < n && k != m[name] {
        assert k in m.Values;
        var a :| a in m && m[a] == k;
        assert a != name && r[a] == k;
      }
      if k in r.Values {
        var a :| a in r && r[a] == k;
        assert m[a] in m.Values;
      }
    }
  }

  /**
   * The corrected removal restores the bijection onto `0..n-1`, whichever slot
   * was freed.
   */
  lemma RelocateKeepsIndexing(m: map<string, nat>, n: nat, name: string)
    requires IndexesExactly(m, n)
    requires name in m
    ensures IndexesExactly(Relocate(m - {name}, n - 1, m[name]), n - 1)
  {
    var i := m[name];
    assert i in m.Values;
    var r := m - {name};
    RemovedValues(m, n, name);
    var m' := Relocate(r, n - 1, i);
    forall a, b | a in m' && b in m' && a != b ensures m'[a] != m'[b] {
      assert r[a] != r[b];
      assert r[a] != i && r[b] != i by { assert r[a] in r.Values && r[b] in r.Values; }
    }
    forall k: nat ensures k in m'.Values <==> k < n - 1 {
      if k < n - 1 {
        if k == i {
          assert n - 1 in r.Values;
          var a :| a in r && r[a] == n - 1;
          assert m'[a] == k;
        } else {
          assert k in r.Values;
          var a :| a in r && r[a] == k;
          assert m'[a] == k;
        }
      }
      if k in m'.Values {
        var a :| a in m' && m'[a] == k;
        assert r[a] in r.Values;
        assert r[a] < n && r[a] != i;
      }
    }
  }

  /**
   * Index stability under the corrected removal: every remaining name still
   * reaches the same body after the swap-remove.
   */
  lemma RelocateFollowsSwapRemove<T>(m: map<string, nat>, s: seq<T>, name: string)
    requires IndexesExactly(m, |s|)
    requires name in m
    ensures m[name] < |s|
    ensures forall other :: other in m && other != name ==>
      var m' := Relocate(m - {name}, |s| - 1, m[name]);
      m'[other] < |s| - 1 && SwapRemove(s, m[name])[m'[other]] == s[m[other]]
  {
    assert m[name] in m.Values;
    RemovedValues(m, |s|, name);
    RelocateKeepsIndexing(m, |s|, name);
    var m' := Relocate(m - {name}, |s| - 1, m[name]);
    forall other | other in m && other != name
      ensures m'[other] < |s| - 1 && SwapRemove(s, m[name])[m'[other]] == s[m[other]]
    {
      assert m'[other] in m'.Values;
      assert m[other] in (m - {name}).Values;
    }
  }

  /**
   * The code as written, when the removed body was NOT the last one: the
   * largest-slot entry is exactly the one whose body was moved, so the result
   * equals the corrected removal and is a bijection onto `0..n-1`.
   */
  lemma RemoveMiddleAsWrittenIsCorrect(m: map<string, nat>, n: nat, name: string, m': map<string, nat>)
    requires IndexesExactly(m, n)
    requires name in m && m[name] < n - 1
    requires RepointedMax(m - {name}, m', m[name])
    ensures m' == Relocate(m - {name}, n - 1, m[name])
    ensures IndexesExactly(m', n - 1)
  {
    var r := m - {name};
    RemovedValues(m, n, name);
    assert n - 1 in r.Values;
    var holder :| holder in r && r[holder] == n - 1;
    assert r != map[];
    var chosen :| HoldsMax(r, chosen) && m' == r[chosen := m[name]];
    assert r[chosen] >= n - 1;
    assert r[chosen] in r.Values;
    assert chosen == holder;
    assert m' == Relocate(r, n - 1, m[name]);
    RelocateKeepsIndexing(m, n, name);
  }

  /**
   * The code as written, when the removed body WAS the last of two or more:
   * the entry holding slot `n-2` is repointed to slot `n-1`, which no longer
   * exists, and slot `n-2` is left without a name.
   */
  lemma RemoveLastAsWrittenBreaks(m: map<string, nat>, n: nat, name: string, m': map<string, nat>)
    requires IndexesExactly(m, n)
    requires n >= 2 && name in m && m[name] == n - 1
    requires RepointedMax(m - {name}, m', m[name])
    ensures exists other :: other in m' && m'[other] == n - 1
    ensures n - 2 !in m'.Values
    ensures !IndexesExactly(m', n - 1)
  {
    var r := m - {name};
    RemovedValues(m, n, name);
    assert n - 2 in r.Values;
    var holder :| holder in r && r[holder] == n - 2;
    var chosen :| HoldsMax(r, chosen) && m' == r[chosen := n - 1];
    assert chosen == holder by {
      assert r[chosen] in r.Values;
      assert r[chosen] >= n - 2;
    }
    assert m'[chosen] == n - 1;
    forall a | a in m' ensures m'[a] != n - 2 {
      if a != chosen {
        assert r[a] != r[chosen];
      }
    }
  }

  /** Concretely: bodies "a" and "b", remove "b" (the last). "a" is sent to the freed slot 1. */
  lemma RemoveLastExample(m': map<string, nat>)
    requires RepointedMax(map["a" := 0, "b" := 1] - {"b"}, m', 1)
    ensures m' == map["a" := 1]
  {
    var r := map["a" := 0, "b" := 1] - {"b"};
    assert r == map["a" := 0];
  }

  class SpaceBodies {
    var positions: seq<Vec3>
    var velocities: seq<Vec3>
    var masses: seq<real>
    var radiuses: seq<real>
    var rotations: seq<SpaceBodyRotation>
    var names: map<string, nat>

    /** The five arrays are parallel. */
    ghost predicate Valid()
      reads this
    {
      |velocities| == |positions| && |masses| == |positions| &&
      |radiuses| == |positions| && |rotations| == |positions|
    }

    /** `SpaceBodies::default()`. */
    constructor ()
      ensures Valid() && positions == [] && names == map[]
      ensures velocities == [] && masses == [] && radiuses == [] && rotations == []
    {
      positions, velocities, masses, radiuses, rotations := [], [], [], [], [];
      names := map[];
    }

    /** The number of bodies, which every one of the parallel arrays holds. */
    function Len(): (n: nat)
      reads this
      requires Valid()
      ensures n == |positions| == |velocities| == |masses| == |radiuses| == |rotations|
    {
      |positions|
    }

    /** The slot of a named body; a missing name makes the source panic. */
    function GetIndex(name: string): (i: nat)
      reads this
      requires name in names
      ensures i in names.Values
      ensures IndexesExactly(names, |positions|) ==> i < |positions|
    {
      names[name]
    }

    method Insert(name: string, body: SpaceBody)
      requires Valid()
      modifies this
      ensures Valid()
      ensures names == old(names)[name := old(|positions|)]
      ensures positions == old(positions) + [body.position]
      ensures velocities == old(velocities) + [body.velocity]
      ensures masses == old(masses) + [body.mass]
      ensures radiuses == old(radiuses) + [body.radius]
      ensures rotations == old(rotations) + [body.rotation]
      ensures name !in old(names) && IndexesExactly(old(names), old(|positions|)) ==>
        IndexesExactly(names, |positions|)
    {
      if name !in names && IndexesExactly(names, |positions|) {
        InsertFreshKeepsIndexing(names, |positions|, name);
      }
      names := names[name := Len()];
      positions := positions + [body.position];
      velocities := velocities + [body.velocity];
      masses := masses + [body.mass];
      radiuses := radiuses + [body.radius];
      rotations := rotations + [body.rotation];
    }

    /**
     * `remove` as written. `swap_remove` panics on an out-of-range slot, hence
     * the second precondition.
     */
    method Remove(name: string) returns (r: Option<nat>)
      requires Valid()
      requires name in names ==> names[name] < |positions|
      modifies this
      ensures Valid()
      ensures name !in old(names) ==> r == None && unchanged(this)
      ensures name in old(names) ==>
        var i := old(names)[name];
        && r == Some(i)
        && positions == SwapRemove(old(positions), i)
        && velocities == SwapRemove(old(velocities), i)
        && masses == SwapRemove(old(masses), i)
        && radiuses == SwapRemove(old(radiuses), i)
        && rotations == SwapRemove(old(rotations), i)
        && RepointedMax(old(names) - {name}, names, i)
    {
      if name !in names {
        return None;
      }
      var index := names[name];
      names := names - {name};

      positions := SwapRemove(positions, index);
      velocities := SwapRemove(velocities, index);
      masses := SwapRemove(masses, index);
      radiuses := SwapRemove(radiuses, index);
      rotations := SwapRemove(rotations, index);

      if names != map[] {
        MaxExists(names);
        var swapped :| HoldsMax(names, swapped);
        names := names[swapped := index];
      }
      return Some(index);
    }

    /**
     * `remove` as intended: only the entry of the body that was moved into the
     * freed slot is repointed.
     */
    method RemoveCorrected(name: string) returns (r: Option<nat>)
      requires Valid()
      requires name in names ==> names[name] < |positions|
      modifies this
      ensures Valid()
      ensures name !in old(names) ==> r == None && unchanged(this)
      ensures name in old(names) ==>
        var i := old(names)[name];
        && r == Some(i)
        && positions == SwapRemove(old(positions), i)
        && velocities == SwapRemove(old(velocities), i)
        && masses == SwapRemove(old(masses), i)
        && radiuses == SwapRemove(old(radiuses), i)
        && rotations == SwapRemove(old(rotations), i)
        && names == Relocate(old(names) - {name}, old(|positions|) - 1, i)
      ensures IndexesExactly(old(names), old(|positions|)) ==> IndexesExactly(names, |positions|)
    {
      if name !in names {
        return None;
      }
      var index := names[name];
      var last := Len() - 1;
      if IndexesExactly(names, |positions|) {
        RelocateKeepsIndexing(names, |positions|, name);
      }
      names := names - {name};

      positions := SwapRemove(positions, index);
      velocities := SwapRemove(velocities, index);
      masses := SwapRemove(masses, index);
      radiuses := SwapRemove(radiuses, index);
      rotations := SwapRemove(rotations, index);

      names := Relocate(names, last, index);
      return Some(index);
    }
  }
}
