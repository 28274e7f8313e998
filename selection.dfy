/**
 * Picking a body with the mouse (scene/selection.rs): the cursor steers a
 * screen-space ray, the first body the ray hits becomes the selection, and
 * selection and deselection events recolour the bodies' materials.
 */
module Selection {
  import opened Wrappers

  /** `u32::MAX`, the index of the entity that stands for "no body". */
  const INDEX_SENTINEL: nat := 0xFFFF_FFFF

  /** A Bevy `Entity`: an index and a generation. */
  datatype Entity = Entity(index: nat, generation: nat)

  /** `Entity::from_raw(u32::MAX)`: the marker value of "nothing selected". */
  const UNASSIGNED := Entity(INDEX_SENTINEL, 0)

  /** The markers' "has been assigned" test: the index is not `u32::MAX`. */
  predicate Assigned(e: Entity) {
    e.index != INDEX_SENTINEL
  }

  /** The `Current` and `Previous` markers of `SelectedBody`. */
  datatype Markers = Markers(current: Entity, previous: Entity)

  /** What one run of `selection_raycast_update` does: the new markers and the events it sends. */
  datatype Outcome = Outcome(markers: Markers, selected: seq<Entity>, deselected: seq<Entity>)

  /** `intersections().first()`: the nearest entity the ray hits, if any. */
  function FirstHit(intersections: seq<Entity>): (r: Option<Entity>)
    ensures r.Some? <==> |intersections| > 0
    ensures r.Some? ==> r.value == intersections[0]
  {
    if |intersections| == 0 then None else Some(intersections[0])
  }

  /** `intersection.map(|(e, ..)| *e == entity).unwrap_or(false)`. */
  predicate Hits(intersection: Option<Entity>, entity: Entity) {
    match intersection
    case Some(e) => e == entity
    case None => false
  }

  /**
   * The rule `selection_raycast_update` follows (lines 39-67): the hit body
   * becomes both markers, with a selection event for it and a deselection
   * event for the previous one; a miss clears an assigned selection.
   */
  function Update(intersection: Option<Entity>, bodies: seq<Entity>, m: Markers): Outcome {
    if intersection.Some? && intersection.value in bodies then
      var e := intersection.value;
      if m.current == e then Outcome(m, [], [])
      else Outcome(Markers(e, e), [e], if Assigned(m.previous) then [m.previous] else [])
    else if Assigned(m.current) then Outcome(Markers(UNASSIGNED, UNASSIGNED), [], [m.current])
    else Outcome(m, [], [])
  }

  /** Lines 41-45: hitting the current selection again changes nothing and sends nothing. */
  lemma UpdateSameHit(intersection: Option<Entity>, bodies: seq<Entity>, m: Markers)
    requires intersection == Some(m.current) && m.current in bodies
    ensures Update(intersection, bodies, m) == Outcome(m, [], [])
  {
  }

  /**
   * Lines 47-57: a newly hit body `e` is selected, both markers become `e`,
   * and the previous body is deselected only if one had been assigned.
   */
  lemma UpdateNewHit(intersection: Option<Entity>, bodies: seq<Entity>, m: Markers, e: Entity)
    requires intersection == Some(e) && e in bodies && m.current != e
    ensures var o := Update(intersection, bodies, m);
      && o.markers == Markers(e, e)
      && o.selected == [e]
      && (Assigned(m.previous) ==> o.deselected == [m.previous])
      && (!Assigned(m.previous) ==> o.deselected == [])
  {
  }

  /**
   * Lines 61-67: when no body is hit, an assigned selection is deselected and
   * both markers are reset; with nothing selected nothing happens. A hit on
   * something that is not a body counts as no hit.
   */
  lemma UpdateNoHit(intersection: Option<Entity>, bodies: seq<Entity>, m: Markers)
    requires intersection.None? || intersection.value !in bodies
    ensures var o := Update(intersection, bodies, m);
      && o.selected == []
      && (Assigned(m.current) ==> o.markers == Markers(UNASSIGNED, UNASSIGNED) && o.deselected == [m.current])
      && (!Assigned(m.current) ==> o.markers == m && o.deselected == [])
  {
  }

  /**
   * Every run sends at most one event of each kind, selects only the hit body
   * and leaves `Current` on it, and deselects only assigned entities. Once
   * `Current == Previous` holds it is kept, and the body deselected is never
   * the one that stays selected.
   */
  lemma UpdateInvariants(intersection: Option<Entity>, bodies: seq<Entity>, m: Markers)
    ensures var o := Update(intersection, bodies, m);
      && |o.selected| <= 1 && |o.deselected| <= 1
      && (m.current == m.previous ==> o.markers.current == o.markers.previous)
      && (forall e <- o.selected :: intersection == Some(e) && e in bodies && o.markers.current == e)
      && (forall e <- o.deselected :: Assigned(e))
      && (m.current == m.previous ==> forall e <- o.deselected :: e != o.markers.current)
  {
  }

  /** A second run with the same hit sends nothing and keeps the markers: the selection is settled. */
  lemma {:induction false} UpdateSettles(intersection: Option<Entity>, bodies: seq<Entity>, m: Markers)
    ensures var o := Update(intersection, bodies, m);
      Update(intersection, bodies, o.markers) == Outcome(o.markers, [], [])
  {
    var o := Update(intersection, bodies, m);
    if !(intersection.Some? && intersection.value in bodies) && Assigned(m.current) {
      assert !Assigned(o.markers.current);
    }
  }

  /** A raycast source's `cast_method`. */
  datatype CastMethod = Screenspace(position: Vec2) | Transform

  /** A cursor position in window coordinates. */
  datatype Vec2 = Vec2(x: real, y: real)

  /** A `RaycastSource<SelectionRaycastSet>` component. */
  class RaycastSource {
    var castMethod: CastMethod

    constructor (castMethod: CastMethod)
      ensures this.castMethod == castMethod
    {
      this.castMethod := castMethod;
    }
  }

  /**
   * `update_raycast_with_cursor` (lines 16-28): without cursor events nothing
   * changes; otherwise every source casts from the last event's position.
   */
  method UpdateRaycastWithCursor(cursorMoves: seq<Vec2>, sources: seq<RaycastSource>)
    modifies sources
    ensures |cursorMoves| == 0 ==> forall s <- sources :: s.castMethod == old(s.castMethod)
    ensures |cursorMoves| > 0 ==> forall s <- sources :: s.castMethod == Screenspace(cursorMoves[|cursorMoves| - 1])
  {
    if |cursorMoves| == 0 {
      return;
    }
    var cursorPosition := cursorMoves[|cursorMoves| - 1];
    for k := 0 to |sources|
      invariant forall q :: 0 <= q < k ==> sources[q].castMethod == Screenspace(cursorPosition)
    {
      sources[k].castMethod := Screenspace(cursorPosition);
    }
  }

  /** The `SelectedBody` markers together with the two event queues the selection systems write. */
  class SelectionState {
    var current: Entity
    var previous: Entity
    var selectionEvents: seq<Entity>
    var deselectionEvents: seq<Entity>

    /** Both markers start unassigned and no event has been sent. */
    constructor ()
      ensures current == UNASSIGNED && previous == UNASSIGNED
      ensures selectionEvents == [] && deselectionEvents == []
    {
      current := UNASSIGNED;
      previous := UNASSIGNED;
      selectionEvents := [];
      deselectionEvents := [];
    }

    /**
     * `selection_raycast_update` (lines 30-68): walks the bodies, and on the
     * one the nearest intersection names applies `Update`.
     */
    method SelectionRaycastUpdate(intersections: seq<Entity>, bodies: seq<Entity>)
      modifies this
      ensures var o := Update(FirstHit(intersections), bodies, old(Markers(current, previous)));
        && Markers(current, previous) == o.markers
        && selectionEvents == old(selectionEvents) + o.selected
        && deselectionEvents == old(deselectionEvents) + o.deselected
    {
      var intersection := FirstHit(intersections);
      for k := 0 to |bodies|
        invariant forall q :: 0 <= q < k ==> !Hits(intersection, bodies[q])
      {
        var entity := bodies[k];
        if Hits(intersection, entity) {
          if current == entity {
            return;
          }
          selectionEvents := selectionEvents + [entity];
          current := entity;
          if Assigned(previous) {
            deselectionEvents := deselectionEvents + [previous];
          }
          previous := entity;
          return;
        }
      }

      if Assigned(current) {
        deselectionEvents := deselectionEvents + [current];
        current := UNASSIGNED;
        previous := UNASSIGNED;
      }
    }
  }

  /** A material asset handle. */
  type Handle = nat

  /** An RGBA colour. */
  datatype Color = Rgba(r: real, g: real, b: real, a: real)

  /** Bevy's `Color::WHITE`. */
  const WHITE := Rgba(1.0, 1.0, 1.0, 1.0)

  /** Bevy's `Color::GRAY`. */
  const GRAY := Rgba(0.5, 0.5, 0.5, 1.0)

  /** Every body's material handle names a material (`materials.get_mut(..).unwrap()` panics otherwise). */
  ghost predicate HandlesResolve(colors: map<Handle, Color>, bodies: map<Entity, Handle>) {
    forall e <- bodies :: bodies[e] in colors
  }

  /** The base colours after painting, in order, every event's body that has a material. */
  function Painted(colors: map<Handle, Color>, bodies: map<Entity, Handle>, events: seq<Entity>, color: Color): (r: map<Handle, Color>)
    requires HandlesResolve(colors, bodies)
    ensures r.Keys == colors.Keys
  {
    if events == [] then colors
    else
      var before := Painted(colors, bodies, events[..|events| - 1], color);
      var e := events[|events| - 1];
      if e in bodies then before[bodies[e] := color] else before
  }

  /** Some event names a body whose material is `h`. */
  ghost predicate Targeted(bodies: map<Entity, Handle>, events: seq<Entity>, h: Handle) {
    exists k :: 0 <= k < |events| && events[k] in bodies && bodies[events[k]] == h
  }

  /**
   * The materials of the event bodies get `color`; every other material keeps
   * its colour (lines 75-79 and 87-91).
   */
  lemma {:induction false} PaintedExactly(colors: map<Handle, Color>, bodies: map<Entity, Handle>, events: seq<Entity>,
                                          color: Color, h: Handle)
    requires HandlesResolve(colors, bodies) && h in colors
    ensures Targeted(bodies, events, h) ==> Painted(colors, bodies, events, color)[h] == color
    ensures !Targeted(bodies, events, h) ==> Painted(colors, bodies, events, color)[h] == colors[h]
    decreases |events|
  {
    if events != [] {
      var init := events[..|events| - 1];
      PaintedExactly(colors, bodies, init, color, h);
      var e := events[|events| - 1];
      if Targeted(bodies, init, h) {
        var k :| 0 <= k < |init| && init[k] in bodies && bodies[init[k]] == h;
        assert events[k] == init[k];
      }
      if Targeted(bodies, events, h) && !(e in bodies && bodies[e] == h) {
        var k :| 0 <= k < |events| && events[k] in bodies && bodies[events[k]] == h;
        assert k < |init| && init[k] == events[k];
      }
    }
  }

  /** The `Assets<StandardMaterial>` base colours. */
  class Materials {
    var baseColor: map<Handle, Color>

    /** Paints every event's body that has a material, in order. */
    method Paint(bodies: map<Entity, Handle>, events: seq<Entity>, color: Color)
      requires HandlesResolve(baseColor, bodies)
      modifies this
      ensures baseColor == Painted(old(baseColor), bodies, events, color)
    {
      ghost var start := baseColor;
      for k := 0 to |events|
        invariant HandlesResolve(start, bodies)
        invariant baseColor == Painted(start, bodies, events[..k], color)
      {
        assert events[..k + 1][..k] == events[..k];
        var entity := events[k];
        if entity in bodies {
          baseColor := baseColor[bodies[entity] := color];
        }
      }
      assert events[..|events|] == events;
    }

    /** `select_current_body` (lines 70-80): selected bodies turn white. */
    method SelectCurrentBody(bodies: map<Entity, Handle>, selectionEvents: seq<Entity>)
      requires HandlesResolve(baseColor, bodies)
      modifies this
      ensures baseColor == Painted(old(baseColor), bodies, selectionEvents, WHITE)
    {
      Paint(bodies, selectionEvents, WHITE);
    }

    /** `deselect_previous_body` (lines 82-92): deselected bodies turn grey. */
    method DeselectPreviousBody(bodies: map<Entity, Handle>, deselectionEvents: seq<Entity>)
      requires HandlesResolve(baseColor, bodies)
      modifies this
      ensures baseColor == Painted(old(baseColor), bodies, deselectionEvents, GRAY)
    {
      Paint(bodies, deselectionEvents, GRAY);
    }
  }

  /**
   * One frame of the selection systems in their scheduled order (scene/mod.rs
   * lines 58-63): `selection_raycast_update`, then `deselect_previous_body`,
   * then `select_current_body`. A newly selected body with a material ends
   * the frame white; a deselected body ends it grey unless its material is
   * shared with the newly selected one.
   */
  lemma FrameRecolours(intersection: Option<Entity>, bodies: seq<Entity>, m: Markers,
                       materialOf: map<Entity, Handle>, colors: map<Handle, Color>)
    requires HandlesResolve(colors, materialOf)
    ensures var o := Update(intersection, bodies, m);
      var after := Painted(Painted(colors, materialOf, o.deselected, GRAY), materialOf, o.selected, WHITE);
      && (forall e <- o.selected :: e in materialOf ==> after[materialOf[e]] == WHITE)
      && (forall d <- o.deselected :: d in materialOf && !Targeted(materialOf, o.selected, materialOf[d]) ==>
            after[materialOf[d]] == GRAY)
  {
    var o := Update(intersection, bodies, m);
    var mid := Painted(colors, materialOf, o.deselected, GRAY);
    forall e <- o.selected | e in materialOf
      ensures Painted(mid, materialOf, o.selected, WHITE)[materialOf[e]] == WHITE
    {
      var k :| 0 <= k < |o.selected| && o.selected[k] == e;
      PaintedExactly(mid, materialOf, o.selected, WHITE, materialOf[e]);
    }
    forall d <- o.deselected | d in materialOf && !Targeted(materialOf, o.selected, materialOf[d])
      ensures Painted(mid, materialOf, o.selected, WHITE)[materialOf[d]] == GRAY
    {
      var k :| 0 <= k < |o.deselected| && o.deselected[k] == d;
      PaintedExactly(colors, materialOf, o.deselected, GRAY, materialOf[d]);
      PaintedExactly(mid, materialOf, o.selected, WHITE, materialOf[d]);
    }
  }
}
