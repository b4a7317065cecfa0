/** Relative pointer motion with locked and confined pointers (input_handler.rs). */
module PointerConstraints {
  import opened Common
  import Tiling

  type Surface = nat

  datatype Kind = Locked | Confined

  /** A region is relative to the surface; without one the whole surface counts. */
  datatype Constraint = Constraint(kind: Kind, active: bool, region: Option<set<Point<int>>>)

  /** What is under a point: a focus target, its surface if it has one, and where that lies. */
  datatype Hit = Hit(target: nat, surface: Option<Surface>, loc: Point<real>)

  /** The geometry the pointer moves over, which is taken to be static. */
  datatype Scene = Scene(outputs: Tiling.Outputs, under: Point<real> -> Option<Hit>)

  datatype Pointer = Pointer(location: Point<real>, focus: Option<Hit>, constraints: map<Surface, Constraint>)

  function Relative(p: Point<real>, loc: Point<real>): Point<int> {
    Point(Round(p.x - loc.x), Round(p.y - loc.y))
  }

  predicate InRegion(c: Constraint, p: Point<real>, loc: Point<real>) {
    c.region.Some? ==> Relative(p, loc) in c.region.value
  }

  function SurfaceOf(hit: Option<Hit>): Option<Surface> {
    if hit.Some? then hit.value.surface else None
  }

  /** The constraint in force at the pointer: that of the surface under it, if active there. */
  function InForce(s: Pointer, scene: Scene): Option<Constraint> {
    var hit := scene.under(s.location);
    if SurfaceOf(hit).Some? && SurfaceOf(hit).value in s.constraints then
      var c := s.constraints[SurfaceOf(hit).value];
      if c.active && InRegion(c, s.location, hit.value.loc) then Some(c) else None
    else None
  }

  function Destination(s: Pointer, scene: Scene, delta: Point<real>): Point<real> {
    Tiling.ClampCoords(scene.outputs, Point(s.location.x + delta.x, s.location.y + delta.y))
  }

  /** A confined pointer stays when it would leave the surface or the region. */
  predicate Blocked(s: Pointer, scene: Scene, delta: Point<real>) {
    match InForce(s, scene)
    case None => false
    case Some(c) =>
      var hit, to := scene.under(s.location), Destination(s, scene, delta);
      c.kind.Locked? || SurfaceOf(scene.under(to)) != SurfaceOf(hit) || (hit.Some? && !InRegion(c, to, hit.value.loc))
  }

  function Activate(constraints: map<Surface, Constraint>, hit: Option<Hit>, p: Point<real>): map<Surface, Constraint> {
    if SurfaceOf(hit).Some? && SurfaceOf(hit).value in constraints then
      var c := constraints[SurfaceOf(hit).value];
      if !c.active && InRegion(c, p, hit.value.loc) then constraints[SurfaceOf(hit).value := c.(active := true)]
      else constraints
    else constraints
  }

  function Move(s: Pointer, scene: Scene, delta: Point<real>): Pointer {
    if Blocked(s, scene, delta) then s
    else
      var to := Destination(s, scene, delta);
      Pointer(to, scene.under(s.location), Activate(s.constraints, scene.under(to), to))
  }

  function Moves(s: Pointer, scene: Scene, deltas: seq<Point<real>>): Pointer
    decreases |deltas|
  {
    if deltas == [] then s else Moves(Move(s, scene, deltas[0]), scene, deltas[1..])
  }

  class PointerState {
    var location: Point<real>
    var focus: Option<Hit>
    var constraints: map<Surface, Constraint>

    ghost function View(): Pointer
      reads this
    {
      Pointer(location, focus, constraints)
    }

    constructor (start: Point<real>)
      ensures View() == Pointer(start, None, map[])
    {
      location := start;
      focus := None;
      constraints := map[];
    }

    method OnPointerMove(scene: Scene, delta: Point<real>)
      modifies this
      ensures View() == Move(old(View()), scene, delta)
    {
      var pointerLocation := location;
      var under := scene.under(pointerLocation);
      var pointerLocked, pointerConfined := false, false;
      var confineRegion := None;
      if under.Some? && under.value.surface.Some? && under.value.surface.value in constraints {
        var constraint := constraints[under.value.surface.value];
        if constraint.active && InRegion(constraint, pointerLocation, under.value.loc) {
          match constraint.kind
          case Locked => pointerLocked := true;
          case Confined => pointerConfined, confineRegion := true, constraint.region;
        }
      }
      if pointerLocked { return; }
      pointerLocation := Point(pointerLocation.x + delta.x, pointerLocation.y + delta.y);
      pointerLocation := Tiling.ClampCoords(scene.outputs, pointerLocation);
      var newUnder := scene.under(pointerLocation);
      if pointerConfined {
        if under.Some? {
          if SurfaceOf(newUnder) != under.value.surface { return; }
          if confineRegion.Some? {
            if Relative(pointerLocation, under.value.loc) !in confineRegion.value { return; }
          }
        }
      }
      location, focus := pointerLocation, under;
      if newUnder.Some? && newUnder.value.surface.Some? && newUnder.value.surface.value in constraints {
        var surface := newUnder.value.surface.value;
        var constraint := constraints[surface];
        if !constraint.active && InRegion(constraint, pointerLocation, newUnder.value.loc) {
          constraints := constraints[surface := constraint.(active := true)];
        }
      }
    }
  }

  // Properties of runs

  /** A surface lies in one place. */
  ghost predicate Static(scene: Scene) {
    forall p, q :: SurfaceOf(scene.under(p)).Some? && SurfaceOf(scene.under(p)) == SurfaceOf(scene.under(q)) ==>
                     scene.under(p).value.loc == scene.under(q).value.loc
  }

  /** The pointer is on the surface, which has an active constraint of the kind, and within its region. */
  predicate Held(s: Pointer, scene: Scene, surface: Surface, kind: Kind) {
    && SurfaceOf(scene.under(s.location)) == Some(surface)
    && InForce(s, scene).Some? && InForce(s, scene).value.kind == kind
  }

  /** A locked pointer does not move, whatever the deltas. */
  lemma {:induction false} LockedPointerNeverMoves(s: Pointer, scene: Scene, surface: Surface, deltas: seq<Point<real>>)
    requires Held(s, scene, surface, Locked)
    ensures Moves(s, scene, deltas) == s
    decreases |deltas|
  {
    if deltas != [] { LockedPointerNeverMoves(s, scene, surface, deltas[1..]); }
  }

  lemma MoveKeepsConfined(s: Pointer, scene: Scene, surface: Surface, delta: Point<real>)
    requires Static(scene) && Held(s, scene, surface, Confined)
    ensures Held(Move(s, scene, delta), scene, surface, Confined)
    ensures Move(s, scene, delta).constraints == s.constraints
  {
  }

  /** A confined pointer stays on the surface and within its region, whatever the deltas. */
  lemma {:induction false} ConfinedPointerStays(s: Pointer, scene: Scene, surface: Surface, deltas: seq<Point<real>>)
    requires Static(scene) && Held(s, scene, surface, Confined)
    ensures var s' := Moves(s, scene, deltas);
            && Held(s', scene, surface, Confined)
            && surface in s.constraints
            && InRegion(s.constraints[surface], s'.location, scene.under(s'.location).value.loc)
    decreases |deltas|
  {
    if deltas != [] {
      MoveKeepsConfined(s, scene, surface, deltas[0]);
      ConfinedPointerStays(Move(s, scene, deltas[0]), scene, surface, deltas[1..]);
    }
  }

  /** The confinement does not do more than that: it lets the pointer go wherever the surface and the region
      allow, and a pointer without a constraint goes wherever the outputs allow. */
  lemma PointerMovesUnlessLeaving(s: Pointer, scene: Scene, delta: Point<real>)
    requires Static(scene) && !(InForce(s, scene).Some? && InForce(s, scene).value.kind.Locked?)
    ensures var to := Destination(s, scene, delta);
            var there := s.(location := to);
            Move(s, scene, delta).location == to
            <==> || to == s.location
                 || InForce(s, scene).None?
                 || (&& InForce(there, scene) == InForce(s, scene)
                     && SurfaceOf(scene.under(to)) == SurfaceOf(scene.under(s.location)))
  {
  }

  /** After a move the surface under the pointer has its constraint active wherever the region allows. */
  lemma MovingActivates(s: Pointer, scene: Scene, delta: Point<real>, surface: Surface)
    requires !Blocked(s, scene, delta) && surface in s.constraints
    requires SurfaceOf(scene.under(Destination(s, scene, delta))) == Some(surface)
    ensures var s' := Move(s, scene, delta);
            && surface in s'.constraints
            && (s'.constraints[surface].active <==>
                s.constraints[surface].active
                || InRegion(s.constraints[surface], s'.location, scene.under(s'.location).value.loc))
            && s'.constraints[surface].region == s.constraints[surface].region
            && forall other :: other in s.constraints && other != surface ==>
                                 s'.constraints[other] == s.constraints[other]
  {
  }

  // Where the pointer goes

  function Plus(p: Point<real>, q: Point<real>): Point<real> { Point(p.x + q.x, p.y + q.y) }

  function Sum(deltas: seq<Point<real>>): Point<real> {
    if deltas == [] then Point(0.0, 0.0) else Plus(Sum(deltas[..|deltas| - 1]), deltas[|deltas| - 1])
  }

  /** The point is over the columns of one of the outputs, which lie side by side, and no lower than it; or
      there are no outputs. */
  ghost predicate IsPlace(scene: Scene, p: Point<real>) {
    scene.outputs != [] ==>
      && Tiling.Tiled(scene.outputs) && Tiling.SizesOk(scene.outputs)
      && exists i :: 0 <= i < |scene.outputs| && OverOutput(scene.outputs[i].rect, p)
  }

  predicate OverOutput(rect: Rect, p: Point<real>) {
    rect.loc.x as real <= p.x < (rect.loc.x + rect.size.w) as real && 0.0 <= p.y <= rect.size.h as real
  }

  lemma PlacesAreNotClamped(scene: Scene, p: Point<real>)
    requires IsPlace(scene, p)
    ensures Tiling.ClampCoords(scene.outputs, p) == p
  {
    if scene.outputs != [] {
      var i :| 0 <= i < |scene.outputs| && OverOutput(scene.outputs[i].rect, p);
      Tiling.ClampMovesStraight(scene.outputs, p, i);
    }
  }

  /** A pointer that nothing constrains moves by exactly the delta on each axis, as long as that leaves it on an
      output. */
  lemma FreePointerMovesByDelta(s: Pointer, scene: Scene, delta: Point<real>, to: Point<real>)
    requires InForce(s, scene).None?
    requires to == Point(s.location.x + delta.x, s.location.y + delta.y) && IsPlace(scene, to)
    ensures Move(s, scene, delta).location == to
  {
    FreePointerGoes(s, scene, delta, to);
    PlacesAreNotClamped(scene, to);
  }

  lemma FreePointerGoes(s: Pointer, scene: Scene, delta: Point<real>, to: Point<real>)
    requires InForce(s, scene).None? && to == Plus(s.location, delta)
    ensures Tiling.ClampCoords(scene.outputs, to) == to ==> Move(s, scene, delta).location == to
  {
  }

  /** When the `k`-th delta comes, nothing constrains the pointer, and the deltas up to it leave it on an
      output. */
  ghost predicate IsFree(s: Pointer, scene: Scene, deltas: seq<Point<real>>, k: nat)
    requires k < |deltas|
  {
    && InForce(Moves(s, scene, deltas[..k]), scene).None?
    && IsPlace(scene, Lead(s, deltas, k))
  }

  /** Where the deltas up to the `k`-th lead. */
  function Lead(s: Pointer, deltas: seq<Point<real>>, k: nat): Point<real>
    requires k < |deltas|
  {
    Plus(s.location, Sum(deltas[..k + 1]))
  }

  ghost predicate IsUnclamped(s: Pointer, scene: Scene, deltas: seq<Point<real>>, k: nat)
    requires k < |deltas|
  {
    && InForce(Moves(s, scene, deltas[..k]), scene).None?
    && Tiling.ClampCoords(scene.outputs, Lead(s, deltas, k)) == Lead(s, deltas, k)
  }

  /** Over every run on the outputs without a constraint the pointer ends where it began plus the sum of the
      deltas, per axis. */
  lemma FreePointerFollowsDeltas(s: Pointer, scene: Scene, deltas: seq<Point<real>>)
    requires forall k: nat :: k < |deltas| ==> IsFree(s, scene, deltas, k)
    ensures Moves(s, scene, deltas).location == Point(s.location.x + Sum(deltas).x, s.location.y + Sum(deltas).y)
  {
    forall k: nat | k < |deltas|
      ensures IsUnclamped(s, scene, deltas, k)
    {
      FreeIsUnclamped(s, scene, deltas, k);
    }
    UnclampedPointerFollowsDeltas(s, scene, deltas);
  }

  lemma FreeIsUnclamped(s: Pointer, scene: Scene, deltas: seq<Point<real>>, k: nat)
    requires k < |deltas| && IsFree(s, scene, deltas, k)
    ensures IsUnclamped(s, scene, deltas, k)
  {
    PlacesAreNotClamped(scene, Lead(s, deltas, k));
  }

  lemma {:induction false} UnclampedPointerFollowsDeltas(s: Pointer, scene: Scene, deltas: seq<Point<real>>)
    requires forall k: nat :: k < |deltas| ==> IsUnclamped(s, scene, deltas, k)
    ensures Moves(s, scene, deltas).location == Plus(s.location, Sum(deltas))
  {
    if deltas != [] {
      var n := |deltas| - 1;
      var first, last := deltas[..n], deltas[n];
      forall k: nat | k < n
        ensures IsUnclamped(s, scene, first, k)
      {
        assert IsUnclamped(s, scene, deltas, k) && first[..k] == deltas[..k] && first[..k + 1] == deltas[..k + 1];
      }
      UnclampedPointerFollowsDeltas(s, scene, first);
      assert deltas == first + [last] && deltas[..n + 1] == deltas && IsUnclamped(s, scene, deltas, n);
      MovesAppend(s, scene, first, last);
      FreePointerGoes(Moves(s, scene, first), scene, last, Lead(s, deltas, n));
    }
  }

  // Where a constraint applies

  /** The pixel is at most, or less than, half a pixel from the point on each axis, relative to the surface. */
  predicate NearestPixel(q: Point<int>, p: Point<real>, loc: Point<real>, strictly: bool) {
    var dx, dy := q.x as real - (p.x - loc.x), q.y as real - (p.y - loc.y);
    if strictly then -0.5 < dx < 0.5 && -0.5 < dy < 0.5 else -0.5 <= dx <= 0.5 && -0.5 <= dy <= 0.5
  }

  /** A constraint is in force at the pointer if and only if it is active and that of the surface under the
      pointer, and applies there: everywhere without a region, and else at the pixels of the region, relative to
      the surface, nearest to the pointer. */
  lemma InForceIff(s: Pointer, scene: Scene, surface: Surface)
    requires SurfaceOf(scene.under(s.location)) == Some(surface)
    ensures InForce(s, scene).Some? ==> surface in s.constraints && InForce(s, scene).value == s.constraints[surface]
    ensures surface in s.constraints ==>
              var c, loc := s.constraints[surface], scene.under(s.location).value.loc;
              var applies := InForce(s, scene).Some?;
              && (!c.active ==> !applies)
              && (c.active && c.region.None? ==> applies)
              && (c.region.Some? && applies ==>
                    exists q :: q in c.region.value && NearestPixel(q, s.location, loc, false))
              && (c.region.Some? && c.active ==>
                    forall q :: q in c.region.value && NearestPixel(q, s.location, loc, true) ==> applies)
  {
    if surface in s.constraints {
      var c, loc := s.constraints[surface], scene.under(s.location).value.loc;
      var q := Relative(s.location, loc);
      assert NearestPixel(q, s.location, loc, false);
      if c.region.Some? && c.active {
        forall q' | q' in c.region.value && NearestPixel(q', s.location, loc, true)
          ensures q' == q
        {
          NearestIsRelative(q', s.location, loc);
        }
      }
    }
  }

  lemma NearestIsRelative(q: Point<int>, p: Point<real>, loc: Point<real>)
    requires NearestPixel(q, p, loc, true)
    ensures q == Relative(p, loc)
  {
    RoundIsNearest(p.x - loc.x, q.x);
    RoundIsNearest(p.y - loc.y, q.y);
  }

  lemma RoundIsNearest(r: real, n: int)
    requires -0.5 < n as real - r < 0.5
    ensures Round(r) == n
  {
  }

  lemma {:induction false} MovesAppend(s: Pointer, scene: Scene, deltas: seq<Point<real>>, delta: Point<real>)
    ensures Moves(s, scene, deltas + [delta]) == Move(Moves(s, scene, deltas), scene, delta)
    decreases |deltas|
  {
    if deltas == [] {
      assert (deltas + [delta])[1..] == [];
    } else {
      MovesAppend(Move(s, scene, deltas[0]), scene, deltas[1..], delta);
      assert (deltas + [delta])[1..] == deltas[1..] + [delta];
    }
  }

  /** The `k`-th delta of a run was not blocked. */
  predicate Moved(s: Pointer, scene: Scene, deltas: seq<Point<real>>, k: nat) {
    k < |deltas| && !Blocked(Moves(s, scene, deltas[..k]), scene, deltas[k])
  }

  /** The point is on the surface, where the constraint applies. */
  predicate Applies(c: Constraint, scene: Scene, p: Point<real>, surface: Surface) {
    SurfaceOf(scene.under(p)) == Some(surface) && InRegion(c, p, scene.under(p).value.loc)
  }

  /** The `k`-th delta moved the pointer onto the surface, to where its constraint applies. */
  predicate MovedOnto(s: Pointer, scene: Scene, deltas: seq<Point<real>>, k: nat, surface: Surface) {
    && Moved(s, scene, deltas, k) && surface in s.constraints
    && Applies(s.constraints[surface], scene, Moves(s, scene, deltas[..k + 1]).location, surface)
  }

  /** Over every run a constraint is active if and only if it was before or the pointer has moved onto its
      surface within its region, and moving changes nothing else about constraints. */
  lemma {:induction false} ActiveIffMovedOnto(s: Pointer, scene: Scene, deltas: seq<Point<real>>, surface: Surface)
    requires surface in s.constraints
    ensures var s' := Moves(s, scene, deltas);
            && surface in s'.constraints
            && s'.constraints[surface] == s.constraints[surface].(active := s'.constraints[surface].active)
            && (s'.constraints[surface].active <==>
                s.constraints[surface].active || exists k: nat :: MovedOnto(s, scene, deltas, k, surface))
  {
    if deltas != [] {
      var n := |deltas| - 1;
      var first := deltas[..n];
      ActiveIffMovedOnto(s, scene, first, surface);
      assert deltas == first + [deltas[n]];
      MovesAppend(s, scene, first, deltas[n]);
      forall k: nat | k < n
        ensures MovedOnto(s, scene, deltas, k, surface) <==> MovedOnto(s, scene, first, k, surface)
      {
        assert first[..k] == deltas[..k] && first[..k + 1] == deltas[..k + 1];
      }
      assert deltas[..n + 1] == deltas;
      MoveActivates(Moves(s, scene, first), scene, deltas[n], surface);
      var before, after := Moves(s, scene, first), Moves(s, scene, deltas);
      assert Applies(s.constraints[surface], scene, after.location, surface)
             == Applies(before.constraints[surface], scene, after.location, surface);
      assert Moved(s, scene, deltas, n) == !Blocked(before, scene, deltas[n]);
      assert MovedOnto(s, scene, deltas, n, surface)
             == (Moved(s, scene, deltas, n) && Applies(s.constraints[surface], scene, after.location, surface));
      if k: nat :| MovedOnto(s, scene, first, k, surface) { assert MovedOnto(s, scene, deltas, k, surface); }
      if k: nat :| MovedOnto(s, scene, deltas, k, surface) && k < n { assert MovedOnto(s, scene, first, k, surface); }
    }
  }

  lemma MoveActivates(s: Pointer, scene: Scene, delta: Point<real>, surface: Surface)
    requires surface in s.constraints
    ensures var s' := Move(s, scene, delta);
            && surface in s'.constraints
            && s'.constraints[surface] == s.constraints[surface].(active := s'.constraints[surface].active)
            && (s'.constraints[surface].active <==>
                || s.constraints[surface].active
                || (!Blocked(s, scene, delta) && Applies(s.constraints[surface], scene, s'.location, surface)))
  {
    if !Blocked(s, scene, delta) && SurfaceOf(scene.under(Destination(s, scene, delta))) == Some(surface) {
      MovingActivates(s, scene, delta, surface);
    }
  }

  /** The focus lags behind over every run: it is what was under the pointer before the last delta that moved
      it. At rest it is wrong if and only if that delta took the pointer onto something else. */
  lemma {:induction false} FocusLagsBehind(s: Pointer, scene: Scene, deltas: seq<Point<real>>, k: nat)
    requires Moved(s, scene, deltas, k) && forall j: nat :: j > k ==> !Moved(s, scene, deltas, j)
    ensures var s', before := Moves(s, scene, deltas), Moves(s, scene, deltas[..k]);
            && s'.location == Destination(before, scene, deltas[k])
            && s'.focus == scene.under(before.location)
            && (s'.focus != scene.under(s'.location) <==> scene.under(before.location) != scene.under(s'.location))
  {
    var n := |deltas| - 1;
    var first := deltas[..n];
    assert deltas == first + [deltas[n]] && deltas[..n] == first;
    MovesAppend(s, scene, first, deltas[n]);
    if k < n {
      assert !Moved(s, scene, deltas, n);
      forall j: nat | j < n
        ensures Moved(s, scene, first, j) <==> Moved(s, scene, deltas, j)
      {
        assert first[..j] == deltas[..j];
      }
      assert first[..k] == deltas[..k];
      FocusLagsBehind(s, scene, first, k);
    }
  }

  /** Without such a delta nothing changes at all. */
  lemma {:induction false} BlockedRunsChangeNothing(s: Pointer, scene: Scene, deltas: seq<Point<real>>)
    requires forall k: nat :: !Moved(s, scene, deltas, k)
    ensures Moves(s, scene, deltas) == s
  {
    if deltas != [] {
      var n := |deltas| - 1;
      var first := deltas[..n];
      forall j: nat
        ensures !Moved(s, scene, first, j)
      {
        if j < n { assert first[..j] == deltas[..j] && !Moved(s, scene, deltas, j); }
      }
      BlockedRunsChangeNothing(s, scene, first);
      assert deltas == first + [deltas[n]] && !Moved(s, scene, deltas, n);
      MovesAppend(s, scene, first, deltas[n]);
    }
  }
}
