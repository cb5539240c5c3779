/** The right-hand laser: a latch switches it on while the pointing buttons
    are held; its hit is classified as ground (teleport target), prop, or a
    frame boundary; objects are picked through a frame by casting a second
    ray from the frame's camera; a picked object is pulled in depth by a
    dead-zoned spring and dragged sideways with the pointer. The stick
    snap-turns the rig with neutral-position hysteresis. */
module Laser {
  import opened Basics
  import opened XrInput
  import opened GameState

  const SpringDeadzone: real := 0.08
  const SpringK: real := -0.1
  const StickThreshold: real := 0.5
  const StickDeadzone: real := 0.2
  const TurnAngle: int := 30
  /** Length of the primary ray, and of the laser when it misses. */
  const MaxTeleport: real := 100.0
  /** Distance reported for a plane with a zero normal. */
  const FarDistance: real := 10000.0

  // ----- Activation -----

  /** The pointing gesture: A, B or stick touched, or A pressed. */
  predicate PointingButtons(c: Controller)
  {
    c.firstButton.touched || c.secondButton.touched || c.thumbstick.touched || c.firstButton.pressed
  }

  predicate TriggerEngaged(trigger: Component)
  {
    trigger.touched || trigger.pressed
  }

  /** The activation latch: the pointing buttons are necessary; an engaged
      trigger cannot switch the laser on, but does not switch an active one
      off. */
  function LaserLatch(active: bool, button: bool, trigger: bool): (r: bool)
    ensures !button ==> !r
    ensures button && active ==> r
    ensures !active ==> (r <==> button && !trigger)
  {
    button && (!trigger || active)
  }

  datatype PointingInput = PointingInput(button: bool, trigger: bool)

  /** The latch state after a run of ticks. */
  function LatchRun(active: bool, ticks: seq<PointingInput>): bool
    decreases |ticks|
  {
    if |ticks| == 0 then active
    else LatchRun(LaserLatch(active, ticks[0].button, ticks[0].trigger), ticks[1..])
  }

  /** Once on, the laser stays on for as long as the pointing buttons are
      held, whatever the trigger does. */
  lemma {:induction false} HeldButtonKeepsLaser(ticks: seq<PointingInput>)
    requires forall i :: 0 <= i < |ticks| ==> ticks[i].button
    ensures LatchRun(true, ticks)
  {
    if |ticks| > 0 {
      assert LaserLatch(true, ticks[0].button, ticks[0].trigger);
      HeldButtonKeepsLaser(ticks[1..]);
    }
  }

  /** While the trigger stays engaged an inactive laser never comes on. */
  lemma {:induction false} EngagedTriggerBlocksStart(ticks: seq<PointingInput>)
    requires forall i :: 0 <= i < |ticks| ==> ticks[i].trigger
    ensures !LatchRun(false, ticks)
  {
    if |ticks| > 0 {
      assert !LaserLatch(false, ticks[0].button, ticks[0].trigger);
      EngagedTriggerBlocksStart(ticks[1..]);
    }
  }

  // ----- Hits and aiming -----

  /** The primary ray's result: the mesh, the world point and the distance. */
  datatype RayHit = Miss | Hit(mesh: MeshRef, point: Vec3, distance: real)

  /** The secondary ray cast from a frame's camera: no hit, a hit the engine
      reports without a mesh, or a hit mesh. */
  datatype ViewPick = ViewMiss | ViewHitNothing | ViewHit(mesh: MeshRef)

  /** The plane of a frame in world coordinates: its normal, a point on it
      and the length of the normal as computed by the engine. */
  datatype Plane = Plane(normal: Vec3, point: Vec3, normalLength: real)

  /** The square root of the normal's squared length is non-negative, and
      zero exactly for the zero normal. */
  predicate PlaneWellFormed(pl: Plane)
  {
    pl.normalLength >= 0.0 && (pl.normalLength == 0.0 <==> pl.normal == Zero)
  }

  /** What the engine reports for one tick of aiming: the primary hit; the
      projections of the hit point on the picked frame's top and left edges;
      the secondary ray's result; the world position of the mesh it hit; and
      the picked frame's plane. */
  datatype Sight = Sight(hit: RayHit, alongTop: real, alongLeft: real, view: ViewPick,
                         targetPosition: Vec3, plane: Plane)

  /** The frame scan: with an empty list the pick is kept; otherwise it
      becomes the first frame whose boundary is `mesh`, or none. */
  function FramePick(frames: seq<PermaFrame>, mesh: MeshRef, current: Option<PermaFrame>): (r: Option<PermaFrame>)
    ensures |frames| == 0 ==> r == current
    ensures |frames| > 0 ==> (r.Some? <==> exists i :: 0 <= i < |frames| && BoundaryOf(frames[i]) == mesh)
    ensures |frames| > 0 && r.Some? ==> r.value in frames && BoundaryOf(r.value) == mesh
    ensures |frames| > 0 && mesh.SceneMesh? ==> r == None
  {
    if |frames| == 0 then current
    else
      match FirstWhere(frames, f => BoundaryOf(f) == mesh)
      case None => None
      case Some(i) => Some(frames[i])
  }

  /** With distinct ids, hitting a frame's boundary picks exactly that
      frame. */
  lemma {:induction false} FramePickFindsOwner(frames: seq<PermaFrame>, current: Option<PermaFrame>, i: nat)
    requires i < |frames|
    requires forall a, b :: 0 <= a < b < |frames| ==> frames[a].id != frames[b].id
    ensures FramePick(frames, BoundaryOf(frames[i]), current) == Some(frames[i])
  {
    var mesh := BoundaryOf(frames[i]);
    var p := (f: PermaFrame) => BoundaryOf(f) == mesh;
    forall j | 0 <= j < i ensures !p(frames[j]) {
      assert frames[j].id != frames[i].id;
    }
    FirstWhereUnique(frames, p, i);
  }

  /** A hit coordinate along an edge of length `size`, mapped to -1 .. 1
      with the origin at the edge's middle. */
  function NormalizedCoord(p: real, size: real): real
    requires size > 0.0
  {
    (p / size - 0.5) * 2.0
  }

  /** The inverse map, from a normalised coordinate back to the edge. */
  function EdgeCoord(n: real, size: real): real
  {
    (n / 2.0 + 0.5) * size
  }

  /** The edge's ends and middle map to -1, 1 and 0, and the map is
      strictly increasing. */
  lemma NormalizedCoordShape(p: real, q: real, size: real)
    requires size > 0.0
    ensures NormalizedCoord(0.0, size) == -1.0
    ensures NormalizedCoord(size / 2.0, size) == 0.0
    ensures NormalizedCoord(size, size) == 1.0
    ensures p < q ==> NormalizedCoord(p, size) < NormalizedCoord(q, size)
  {
    if p < q {
      assert p / size < q / size;
    }
  }

  /** Normalising and mapping back are inverse to each other. */
  lemma NormalizedCoordRoundTrip(p: real, n: real, size: real)
    requires size > 0.0
    ensures EdgeCoord(NormalizedCoord(p, size), size) == p
    ensures NormalizedCoord(EdgeCoord(n, size), size) == n
  {
    var x := n / 2.0 + 0.5;
    MulDivCancel(x, size);
    assert EdgeCoord(n, size) == x * size;
    assert EdgeCoord(n, size) / size == x;
    DivMulCancel(p, size);
  }

  lemma MulDivCancel(x: real, size: real)
    requires size > 0.0
    ensures (x * size) / size == x
  {
  }

  lemma DivMulCancel(p: real, size: real)
    requires size > 0.0
    ensures (p / size) * size == p
  {
  }

  predicate Sized(f: PermaFrame)
  {
    f.width > 0.0 && f.height > 0.0
  }

  predicate AllSized(frames: seq<PermaFrame>)
  {
    forall f :: f in frames ==> Sized(f)
  }

  /** The outcome of aiming on one tick: the teleport point, the mesh that
      would be picked, the picked frame and the normalised hit coordinates. */
  datatype Aim = Aim(teleport: Option<Vec3>, picked: Option<MeshRef>, frame: Option<PermaFrame>, nx: real, ny: real)

  /** Hit classification and the pick through the frame. A prop hit on its
      own picks nothing: the mesh to pick always comes from the secondary
      ray through the picked frame. */
  function AimOf(hit: RayHit, ground: set<MeshRef>, props: set<MeshRef>, frames: seq<PermaFrame>,
                 current: Option<PermaFrame>, alongTop: real, alongLeft: real, view: ViewPick): (a: Aim)
    requires AllSized(frames)
    requires current.Some? ==> Sized(current.value)
    ensures a.teleport.Some? <==> hit.Hit? && hit.mesh in ground
    ensures a.teleport.Some? ==> a.teleport.value == hit.point
    ensures hit.Miss? || hit.mesh in ground || hit.mesh in props || |frames| == 0 ==> a.frame == current
    ensures hit.Hit? && hit.mesh !in ground && hit.mesh !in props && |frames| > 0 ==>
      && (a.frame.Some? ==> a.frame.value in frames && BoundaryOf(a.frame.value) == hit.mesh)
      && (a.frame.None? <==> forall i :: 0 <= i < |frames| ==> BoundaryOf(frames[i]) != hit.mesh)
    ensures a.frame.Some? ==> Sized(a.frame.value)
    ensures a.frame.Some? && hit.Hit? ==>
      a.nx == NormalizedCoord(alongTop, a.frame.value.width) && a.ny == NormalizedCoord(alongLeft, a.frame.value.height)
    ensures a.frame.None? || hit.Miss? ==> a.nx == 0.0 && a.ny == 0.0
    ensures a.picked.Some? <==> a.frame.Some? && hit.Hit? && view.ViewHit?
    ensures a.picked.Some? ==> view == ViewHit(a.picked.value)
  {
    var frame := if hit.Hit? && hit.mesh !in ground && hit.mesh !in props
                 then FramePick(frames, hit.mesh, current) else current;
    var teleport := if hit.Hit? && hit.mesh in ground then Some(hit.point) else None;
    if frame.Some? && hit.Hit? then
      var picked := if view.ViewHit? then Some(view.mesh) else None;
      Aim(teleport, picked, frame, NormalizedCoord(alongTop, frame.value.width),
          NormalizedCoord(alongLeft, frame.value.height))
    else Aim(teleport, None, frame, 0.0, 0.0)
  }

  datatype TriggerAction = NoAction | Teleport(point: Vec3) | Grab(mesh: MeshRef) | Release

  /** The trigger edge: a press teleports if there is a teleport point and
      otherwise picks the aimed mesh; a release drops. */
  function TriggerStep(trigger: Component, aim: Aim): (act: TriggerAction)
    ensures !trigger.pressChanged ==> act == NoAction
    ensures act.Teleport? <==> trigger.pressChanged && trigger.pressed && aim.teleport.Some?
    ensures act.Teleport? ==> aim.teleport == Some(act.point)
    ensures act.Grab? <==> trigger.pressChanged && trigger.pressed && aim.teleport.None? && aim.picked.Some?
    ensures act.Grab? ==> aim.picked == Some(act.mesh)
    ensures act == NoAction <==>
      !trigger.pressChanged || (trigger.pressed && aim.teleport.None? && aim.picked.None?)
    ensures act == Release <==> trigger.pressChanged && !trigger.pressed
  {
    if !trigger.pressChanged then NoAction
    else if trigger.pressed then
      if aim.teleport.Some? then Teleport(aim.teleport.value)
      else if aim.picked.Some? then Grab(aim.picked.value)
      else NoAction
    else Release
  }

  /** Teleporting moves the camera to the hit point but keeps its height. */
  function Teleported(camera: Vec3, point: Vec3): (p: Vec3)
    ensures p.y == camera.y && p.x == point.x && p.z == point.z
  {
    Vec3(point.x, camera.y, point.z)
  }

  function ParentOf(parents: map<MeshRef, Option<MeshRef>>, m: MeshRef): Option<MeshRef>
  {
    if m in parents then parents[m] else None
  }

  /** What a selection touches: the selected object, the parents and edge
      highlights of the scene meshes, the parent the selection had at pick
      time, and the spring's starting distance and controller position. */
  datatype Holding = Holding(selected: Option<MeshRef>, parents: map<MeshRef, Option<MeshRef>>,
                             highlighted: set<MeshRef>, pickedParent: Option<MeshRef>,
                             initDist: real, initPos: Option<Vec3>)

  /** Letting go: the selection goes back to its pick-time parent, loses its
      highlight, and the spring is reset. Nothing happens without a
      selection. */
  function Dropped(h: Holding): Holding
  {
    match h.selected
    case None => h
    case Some(m) => Holding(None, h.parents[m := h.pickedParent], h.highlighted - {m}, None, 0.0, None)
  }

  /** Picking `mesh` up, unless something is selected already: it is
      selected and highlighted and its parent remembered; with a frame
      picked the spring starts from the controller's position `pointerPos`
      at distance `dist` from the frame's plane. */
  function PickedUp(h: Holding, mesh: MeshRef, framePicked: bool, pointerPos: Vec3, dist: real): Holding
  {
    if h.selected.Some? then h
    else Holding(Some(mesh), h.parents, h.highlighted + {mesh}, ParentOf(h.parents, mesh),
                 if framePicked then dist else h.initDist, if framePicked then Some(pointerPos) else h.initPos)
  }

  /** Dropping twice is dropping once. */
  lemma {:induction false} DropIdempotent(h: Holding)
    ensures Dropped(Dropped(h)).selected == None
    ensures Dropped(Dropped(h)) == Dropped(h)
  {
  }

  /** Picking an object up and dropping it again puts it back under the
      parent it had and removes the highlight it was given; the other
      meshes keep their parents and highlights. A pick-up while holding is
      ignored. */
  lemma {:induction false} PickupDropRoundTrip(h: Holding, mesh: MeshRef, framePicked: bool, pointerPos: Vec3, dist: real)
    ensures h.selected.Some? ==> PickedUp(h, mesh, framePicked, pointerPos, dist) == h
    ensures h.selected.None? ==>
      var p := PickedUp(h, mesh, framePicked, pointerPos, dist);
      var r := Dropped(p);
      && p.selected == Some(mesh) && mesh in p.highlighted
      && r.selected == None
      && (mesh in h.parents ==> r.parents == h.parents)
      && r.highlighted == h.highlighted - {mesh}
      && r.pickedParent == None && r.initPos == None
  {
    if h.selected.None? && mesh in h.parents {
      var r := Dropped(PickedUp(h, mesh, framePicked, pointerPos, dist));
      assert r.parents == h.parents[mesh := h.parents[mesh]];
    }
  }

  /** The trigger action's effect on the selection: a grab drops whatever is
      held and picks the aimed mesh up; a release drops. */
  function TriggerHolding(h: Holding, act: TriggerAction, framePicked: bool, pointerPos: Vec3, dist: real): Holding
  {
    match act
    case Grab(m) => PickedUp(Dropped(h), m, framePicked, pointerPos, dist)
    case Release => Dropped(h)
    case _ => h
  }

  /** The selection after one tick of the laser: an inactive laser drops;
      an active one drops on a miss or without a picked frame, and then
      applies the trigger action. */
  function TickHolding(h: Holding, active: bool, hit: RayHit, aim: Aim, act: TriggerAction,
                       pointerPos: Vec3, dist: real): Holding
  {
    if !active then Dropped(h)
    else
      var afterAim := if hit.Miss? || aim.frame.None? then Dropped(h) else h;
      TriggerHolding(afterAim, act, aim.frame.Some?, pointerPos, dist)
  }

  /** Something becomes selected only through a picked frame: the laser is
      on, its ray hit, a frame is picked, and the mesh is the one the
      frame's camera ray hit. A miss, a missing frame or an inactive laser
      leave nothing selected. A press with a picked mesh and no teleport
      point always ends with that mesh selected. */
  lemma {:induction false} SelectionOnlyThroughFrame(h: Holding, active: bool, trigger: Component,
                                                     hit: RayHit, ground: set<MeshRef>, props: set<MeshRef>,
                                                     frames: seq<PermaFrame>, current: Option<PermaFrame>,
                                                     alongTop: real, alongLeft: real, view: ViewPick,
                                                     pointerPos: Vec3, dist: real)
    requires AllSized(frames)
    requires current.Some? ==> Sized(current.value)
    ensures var a := AimOf(hit, ground, props, frames, current, alongTop, alongLeft, view);
      var act := if active then TriggerStep(trigger, a) else NoAction;
      var s := TickHolding(h, active, hit, a, act, pointerPos, dist).selected;
      && (s.Some? && s != h.selected ==> active && hit.Hit? && a.frame.Some? && view == ViewHit(s.value))
      && (!active || hit.Miss? || a.frame.None? ==> s == None)
      && (active && trigger.pressChanged && trigger.pressed && a.teleport.None? && a.picked.Some? ==> s == a.picked)
  {
    var a := AimOf(hit, ground, props, frames, current, alongTop, alongLeft, view);
    var act := if active then TriggerStep(trigger, a) else NoAction;
    if act.Grab? {
      assert a.picked == Some(act.mesh);
    }
  }

  /** An object that stops being selected during a tick is back under its
      pick-time parent and no longer highlighted. */
  lemma {:induction false} LostSelectionRestored(h: Holding, active: bool, hit: RayHit, aim: Aim, act: TriggerAction,
                                                 pointerPos: Vec3, dist: real)
    requires h.selected.Some?
    ensures var r := TickHolding(h, active, hit, aim, act, pointerPos, dist);
      var m := h.selected.value;
      r.selected != h.selected ==>
        m in r.parents && r.parents[m] == h.pickedParent && m !in r.highlighted
  {
    var m := h.selected.value;
    var afterAim := if active && (hit.Miss? || aim.frame.None?) then Dropped(h) else h;
    var r := TickHolding(h, active, hit, aim, act, pointerPos, dist);
    if r.selected != h.selected {
      if !active {
        assert r == Dropped(h);
      } else if act.Grab? {
        var d := Dropped(afterAim);
        assert d.parents[m] == h.pickedParent && m !in d.highlighted;
        assert r == PickedUp(d, act.mesh, aim.frame.Some?, pointerPos, dist);
        assert act.mesh != m;
      } else {
        assert r == Dropped(afterAim) || r == afterAim;
      }
    }
  }

  // ----- Snap turn -----

  datatype Turn = Turn(neutral: bool, degrees: int)

  /** One tick of the snap turn: the stick re-arms inside the dead zone and
      fires a turn of 30 degrees, with the stick's sign, past the threshold
      when armed. */
  function SnapTurn(neutral: bool, stick: real): (t: Turn)
    ensures t.degrees == 0 || t.degrees == TurnAngle || t.degrees == -TurnAngle
    ensures t.degrees != 0 <==> Abs(stick) > StickThreshold && neutral
    ensures t.degrees > 0 ==> stick > 0.0
    ensures t.degrees < 0 ==> stick < 0.0
    ensures t.degrees != 0 ==> !t.neutral
    ensures t.degrees == 0 ==> (t.neutral <==> neutral || Abs(stick) < StickDeadzone)
  {
    var armed := if Abs(stick) < StickDeadzone then true else neutral;
    if Abs(stick) > StickThreshold && armed then
      Turn(false, if stick > 0.0 then TurnAngle else -TurnAngle)
    else Turn(armed, 0)
  }

  /** How many turns a run of stick readings fires. */
  function TurnCount(neutral: bool, sticks: seq<real>): nat
    decreases |sticks|
  {
    if |sticks| == 0 then 0
    else
      var t := SnapTurn(neutral, sticks[0]);
      (if t.degrees != 0 then 1 else 0) + TurnCount(t.neutral, sticks[1..])
  }

  /** A deflection that never returns to the dead zone fires at most one
      turn, and none when the stick was not armed. */
  lemma {:induction false} OneTurnPerDeflection(neutral: bool, sticks: seq<real>)
    requires forall i :: 0 <= i < |sticks| ==> Abs(sticks[i]) >= StickDeadzone
    ensures TurnCount(neutral, sticks) <= (if neutral then 1 else 0)
  {
    if |sticks| > 0 {
      var t := SnapTurn(neutral, sticks[0]);
      OneTurnPerDeflection(t.neutral, sticks[1..]);
    }
  }

  // ----- Spring depth and translation -----

  /** Distance from `p` to the plane, in the plane-equation form: the
      normal's components are A, B, C and D places the plane through its
      point. A zero normal gives the far distance. */
  function DistToPlane(pl: Plane, p: Vec3): (d: real)
    requires PlaneWellFormed(pl)
    ensures d >= 0.0
    ensures pl.normal == Zero ==> d == FarDistance
  {
    var a, b, c := pl.normal.x, pl.normal.y, pl.normal.z;
    var dd := (-a * pl.point.x) - (b * pl.point.y) - (c * pl.point.z);
    var numerator := Abs(a * p.x + b * p.y + c * p.z + dd);
    var denominator := pl.normalLength;
    if denominator != 0.0 then numerator / denominator else FarDistance
  }

  /** For a non-zero normal the distance is the projection of `p - point`
      on the normal divided by the normal's length, so points on the plane
      are at distance 0. */
  lemma DistIsProjection(pl: Plane, p: Vec3)
    requires PlaneWellFormed(pl) && pl.normal != Zero
    ensures DistToPlane(pl, p) == Abs(Dot(pl.normal, Sub(p, pl.point))) / pl.normalLength
    ensures Dot(pl.normal, Sub(p, pl.point)) == 0.0 ==> DistToPlane(pl, p) == 0.0
  {
    var n := pl.normal;
    var q := pl.point;
    calc {
      n.x * p.x + n.y * p.y + n.z * p.z + ((-n.x * q.x) - (n.y * q.y) - (n.z * q.z));
      n.x * (p.x - q.x) + n.y * (p.y - q.y) + n.z * (p.z - q.z);
      Dot(n, Sub(p, q));
    }
  }

  /** The spring's displacement: zero inside the dead zone, and otherwise
      the deviation from the initial distance shrunk by the dead zone. */
  function SpringDisplacement(dist: real, initDist: real): (x: real)
    ensures Abs(dist - initDist) < SpringDeadzone ==> x == 0.0
    ensures Abs(dist - initDist) >= SpringDeadzone ==> Abs(x) == Abs(dist - initDist) - SpringDeadzone
    ensures Abs(x) <= Abs(dist - initDist)
    ensures x > 0.0 ==> dist > initDist
    ensures x < 0.0 ==> dist < initDist
  {
    if Abs(dist - initDist) < SpringDeadzone then 0.0
    else if dist - initDist > 0.0 then dist - SpringDeadzone - initDist
    else dist + SpringDeadzone - initDist
  }

  /** The displacement is continuous at the dead zone's edge, does not
      decrease as the distance grows, and never changes faster than the
      distance. */
  lemma SpringShape(d1: real, d2: real, initDist: real)
    ensures Abs(d1 - initDist) == SpringDeadzone ==> SpringDisplacement(d1, initDist) == 0.0
    ensures d1 <= d2 ==> SpringDisplacement(d1, initDist) <= SpringDisplacement(d2, initDist)
    ensures Abs(SpringDisplacement(d1, initDist) - SpringDisplacement(d2, initDist)) <= Abs(d1 - d2)
  {
  }

  /** One spring step moves the position by the view direction scaled by
      springK * x * dt. */
  function SpringStep(pos: Vec3, viewDir: Vec3, x: real, dt: real): Vec3
  {
    Add(pos, Scale(viewDir, SpringK * x * dt))
  }

  /** The spring pulls back: with a unit view direction and a positive time
      step, an object pulled away from the frame beyond the dead zone moves
      back towards it along the view direction, and one pushed in moves
      out. */
  lemma {:induction false} SpringPullsBack(pos: Vec3, viewDir: Vec3, dist: real, initDist: real, dt: real)
    requires Dot(viewDir, viewDir) == 1.0 && dt > 0.0
    ensures var x := SpringDisplacement(dist, initDist);
      Dot(Sub(SpringStep(pos, viewDir, x, dt), pos), viewDir) == SpringK * x * dt
    ensures dist - initDist >= SpringDeadzone ==>
      Dot(Sub(SpringStep(pos, viewDir, SpringDisplacement(dist, initDist), dt), pos), viewDir) <= 0.0
    ensures initDist - dist >= SpringDeadzone ==>
      Dot(Sub(SpringStep(pos, viewDir, SpringDisplacement(dist, initDist), dt), pos), viewDir) >= 0.0
  {
    var x := SpringDisplacement(dist, initDist);
    var k := SpringK * x * dt;
    assert Sub(SpringStep(pos, viewDir, x, dt), pos) == Scale(viewDir, k);
    DotScale(viewDir, k, viewDir);
    assert Dot(Scale(viewDir, k), viewDir) == k;
    if x >= 0.0 {
      assert x * dt >= 0.0;
    } else {
      assert x * dt <= 0.0;
    }
  }

  /** The camera of a picked frame: position, right, up and view directions
      (unit, from the engine) and the tangent of half its field of view. */
  datatype FrameView = FrameView(position: Vec3, right: Vec3, up: Vec3, view: Vec3, tanHalfFov: real)

  /** Where the selected object is drawn: its initial position offset along
      the frame camera's up and right directions in proportion to how far
      the hit point has moved across the frame since the pick, scaled to the
      camera frustum's size at the object's depth. */
  function TranslatedPosition(initPos: Vec3, cam: FrameView, width: real, height: real,
                              normX: real, normY: real, initX: real, initY: real): Vec3
    requires height > 0.0
  {
    var d := Dot(Sub(initPos, cam.position), cam.view);
    var h := 2.0 * d * cam.tanHalfFov;
    var w := h * (width / height);
    Add(Add(initPos, Scale(cam.up, (normY - initY) * -h / 2.0)), Scale(cam.right, (normX - initX) * w / 2.0))
  }

  /** With the hit point back where it was at pick time, the object sits
      exactly at its initial position. */
  lemma TranslationAtRest(initPos: Vec3, cam: FrameView, width: real, height: real, nx: real, ny: real)
    requires height > 0.0
    ensures TranslatedPosition(initPos, cam, width, height, nx, ny, nx, ny) == initPos
  {
  }

  /** Dragging never changes the object's depth along the frame camera's
      view direction when up and right are orthogonal to it. */
  lemma {:induction false} TranslationKeepsDepth(initPos: Vec3, cam: FrameView, width: real, height: real,
                                                 normX: real, normY: real, initX: real, initY: real)
    requires height > 0.0
    requires Dot(cam.up, cam.view) == 0.0 && Dot(cam.right, cam.view) == 0.0
    ensures var p := TranslatedPosition(initPos, cam, width, height, normX, normY, initX, initY);
      Dot(Sub(p, cam.position), cam.view) == Dot(Sub(initPos, cam.position), cam.view)
  {
    var d := Dot(Sub(initPos, cam.position), cam.view);
    var h := 2.0 * d * cam.tanHalfFov;
    var w := h * (width / height);
    var u := Scale(cam.up, (normY - initY) * -h / 2.0);
    var r := Scale(cam.right, (normX - initX) * w / 2.0);
    DotScale(cam.up, (normY - initY) * -h / 2.0, cam.view);
    DotScale(cam.right, (normX - initX) * w / 2.0, cam.view);
    var p := Add(Add(initPos, u), r);
    assert Sub(p, cam.position) == Add(Add(Sub(initPos, cam.position), u), r);
    DotAdd(Add(Sub(initPos, cam.position), u), r, cam.view);
    DotAdd(Sub(initPos, cam.position), u, cam.view);
  }

  class LaserPointer {
    const game: Game
    var laserActivated: bool
    /** The laser mesh is enabled (drawn). */
    var laserEnabled: bool
    /** The laser is green (something hit) rather than red. */
    var laserGreen: bool
    var laserLength: real
    var initPos: Option<Vec3>
    var initDist: real
    var initX: real
    var initY: real
    var normX: real
    var normY: real
    var selectedInitPos: Vec3
    var stickNeutral: bool
    var pickedParent: Option<MeshRef>
    var pickedFrame: Option<PermaFrame>
    var springShown: bool
    var springRed: bool

    /** Every frame, and the picked one, has a usable size. */
    ghost predicate Sound()
      reads this, game
    {
      AllSized(game.frames) && (pickedFrame.Some? ==> Sized(pickedFrame.value))
    }

    /** Between ticks an object is selected only with a frame picked. */
    ghost predicate Valid()
      reads this, game
    {
      Sound() && (game.selectedObject.Some? ==> pickedFrame.Some?)
    }

    /** Construction followed by asset loading: laser off and disabled,
        stick armed, nothing picked. */
    constructor (game: Game)
      requires game.Valid() && game.selectedObject == None
      ensures Valid() && this.game == game
      ensures !laserActivated && !laserEnabled && stickNeutral
      ensures pickedFrame == None && pickedParent == None && initPos == None && initDist == 0.0
      ensures initX == 0.0 && initY == 0.0 && normX == 0.0 && normY == 0.0
    {
      this.game := game;
      laserActivated, laserEnabled, laserGreen, laserLength := false, false, false, 1.0;
      initPos, initDist := None, 0.0;
      initX, initY, normX, normY := 0.0, 0.0, 0.0, 0.0;
      selectedInitPos := Zero;
      stickNeutral := true;
      pickedParent, pickedFrame := None, None;
      springShown, springRed := false, false;
    }

    /** The selection-related state of the pointer and the game. */
    ghost function HoldingState(): Holding
      reads this, game
    {
      Holding(game.selectedObject, game.meshParent, game.highlighted, pickedParent, initDist, initPos)
    }

    /** Lets go of the selected object, if any. */
    method Drop()
      modifies game`selectedObject, game`meshParent, game`highlighted
      modifies this`pickedParent, this`initDist, this`initPos
      ensures HoldingState() == Dropped(old(HoldingState()))
    {
      if game.selectedObject.None? {
        return;
      }
      var m := game.selectedObject.value;
      game.meshParent := game.meshParent[m := pickedParent];
      game.highlighted := game.highlighted - {m};
      game.selectedObject := None;
      pickedParent := None;
      initDist := 0.0;
      initPos := None;
    }

    /** Selects `mesh` unless something is selected already; with a frame
        picked, the spring starts from the controller's current distance to
        the frame's plane. */
    method Pickup(mesh: MeshRef, pointerPos: Vec3, plane: Plane)
      requires PlaneWellFormed(plane)
      modifies game`selectedObject, game`highlighted, this`pickedParent, this`initPos, this`initDist
      ensures HoldingState() == PickedUp(old(HoldingState()), mesh, pickedFrame.Some?, pointerPos, DistToPlane(plane, pointerPos))
    {
      if game.selectedObject.Some? {
        return;
      }
      game.selectedObject := Some(mesh);
      game.highlighted := game.highlighted + {mesh};
      pickedParent := ParentOf(game.meshParent, mesh);
      if pickedFrame.Some? {
        initPos := Some(pointerPos);
        initDist := DistToPlane(plane, pointerPos);
      }
    }

    /** Moves the rig to `point` at the current height and switches the
        laser's latch off (the laser mesh stays enabled). */
    method Teleport(point: Vec3)
      modifies game`cameraPosition, this`laserActivated
      ensures game.cameraPosition == Teleported(old(game.cameraPosition), point)
      ensures !laserActivated
    {
      var baseHeight := game.cameraPosition.y;
      game.cameraPosition := Vec3(point.x, baseHeight, point.z);
      laserActivated := false;
    }

    /** The frame scan over the hit mesh: every frame that does not own the
        mesh clears the pick, and the owner, if reached, sets it. */
    method ScanFrames(mesh: MeshRef)
      requires Sound()
      modifies this`pickedFrame
      ensures Sound()
      ensures pickedFrame == FramePick(game.frames, mesh, old(pickedFrame))
    {
      var frames := game.frames;
      var p := (f: PermaFrame) => BoundaryOf(f) == mesh;
      var i := 0;
      while i < |frames|
        invariant 0 <= i <= |frames|
        invariant forall j :: 0 <= j < i ==> !p(frames[j])
        invariant pickedFrame == if i == 0 then old(pickedFrame) else None
        invariant Sound()
      {
        var frame := frames[i];
        if BoundaryOf(frame) == mesh {
          pickedFrame := Some(frame);
          FirstWhereUnique(frames, p, i);
          return;
        }
        pickedFrame := None;
        i := i + 1;
      }
      if |frames| > 0 {
        assert FirstWhere(frames, p).None?;
      }
    }

    /** Aiming while the laser is active: classifies the primary hit,
        re-targets the frame, and aims through the picked frame. An object
        stays selected only while the ray hits and a frame is picked. */
    method Target(sight: Sight) returns (aim: Aim)
      requires Sound()
      modifies this`pickedFrame, this`normX, this`normY, this`laserGreen, this`laserLength
      modifies this`pickedParent, this`initDist, this`initPos
      modifies game`selectedObject, game`meshParent, game`highlighted
      ensures Valid()
      ensures aim == AimOf(sight.hit, game.groundMeshes, game.propMeshes, game.frames, old(pickedFrame),
                           sight.alongTop, sight.alongLeft, sight.view)
      ensures pickedFrame == aim.frame
      ensures laserGreen == sight.hit.Hit?
      ensures laserLength == (if sight.hit.Hit? then sight.hit.distance else MaxTeleport)
      ensures aim.frame.Some? && sight.hit.Hit? ==> normX == aim.nx && normY == aim.ny
      ensures aim.frame.None? || sight.hit.Miss? ==> normX == old(normX) && normY == old(normY)
      ensures HoldingState() == (if sight.hit.Miss? || aim.frame.None? then Dropped(old(HoldingState()))
                                 else old(HoldingState()))
    {
      ghost var h0 := HoldingState();
      ghost var spec := AimOf(sight.hit, game.groundMeshes, game.propMeshes, game.frames, pickedFrame,
                              sight.alongTop, sight.alongLeft, sight.view);
      var hit := sight.hit;
      var teleportPoint: Option<Vec3> := None;
      var pickedMesh: Option<MeshRef> := None;

      if hit.Hit? {
        laserGreen, laserLength := true, hit.distance;
        if hit.mesh in game.groundMeshes {
          teleportPoint := Some(hit.point);
        } else if hit.mesh in game.propMeshes {
          pickedMesh := Some(hit.mesh);
        } else {
          ScanFrames(hit.mesh);
        }
      } else {
        Drop();
        laserGreen, laserLength := false, MaxTeleport;
      }
      assert pickedFrame == spec.frame && teleportPoint == spec.teleport;

      var nX, nY := 0.0, 0.0;
      if pickedFrame.Some? {
        if hit.Hit? {
          nX := NormalizedCoord(sight.alongTop, pickedFrame.value.width);
          nY := NormalizedCoord(sight.alongLeft, pickedFrame.value.height);
          normX, normY := nX, nY;
          match sight.view {
            case ViewHit(m) => pickedMesh := Some(m);
            case ViewHitNothing => pickedMesh := None;
            case ViewMiss => pickedMesh := None;
          }
        }
      } else {
        Drop();
        DropIdempotent(h0);
        pickedMesh := None;
      }
      aim := Aim(teleportPoint, pickedMesh, pickedFrame, nX, nY);
    }

    /** The trigger edge: teleport first, otherwise drop whatever is held and
        pick the aimed mesh up; a release drops. */
    method HandleTrigger(trigger: Component, aim: Aim, pointerPos: Vec3, sight: Sight)
      requires Valid() && PlaneWellFormed(sight.plane) && pickedFrame == aim.frame
      requires aim.picked.Some? ==> aim.frame.Some?
      modifies this`initX, this`initY, this`selectedInitPos, this`laserActivated
      modifies this`pickedParent, this`initDist, this`initPos
      modifies game`selectedObject, game`meshParent, game`highlighted, game`cameraPosition
      ensures Valid()
      ensures var act := TriggerStep(trigger, aim);
        && game.cameraPosition == (if act.Teleport? then Teleported(old(game.cameraPosition), act.point)
                                   else old(game.cameraPosition))
        && laserActivated == (old(laserActivated) && !act.Teleport?)
        && HoldingState() == TriggerHolding(old(HoldingState()), act, aim.frame.Some?, pointerPos,
                                            DistToPlane(sight.plane, pointerPos))
        && (act.Grab? ==> initX == aim.nx && initY == aim.ny && selectedInitPos == sight.targetPosition)
        && (!act.Grab? ==> initX == old(initX) && initY == old(initY) && selectedInitPos == old(selectedInitPos))
    {
      if trigger.pressChanged {
        if trigger.pressed {
          if aim.teleport.Some? {
            Teleport(aim.teleport.value);
          } else if aim.picked.Some? {
            Drop();
            Pickup(aim.picked.value, pointerPos, sight.plane);
            initY := aim.ny;
            initX := aim.nx;
            selectedInitPos := sight.targetPosition;
          }
        } else {
          Drop();
        }
      }
    }

    /** The snap turn: re-arm inside the dead zone, turn past the threshold
        when armed. */
    method SnapTurnStep(stick: real)
      modifies this`stickNeutral, game`cameraYaw
      ensures var t := SnapTurn(old(stickNeutral), stick);
        stickNeutral == t.neutral && game.cameraYaw == old(game.cameraYaw) + t.degrees
    {
      if Abs(stick) < StickDeadzone {
        stickNeutral := true;
      }
      if Abs(stick) > StickThreshold && stickNeutral {
        stickNeutral := false;
        var turnAngle := if stick > 0.0 then TurnAngle else -TurnAngle;
        game.cameraYaw := game.cameraYaw + turnAngle;
      }
    }

    /** The pointing gesture switches the laser on or off through the
        latch. */
    method Activate(c: Controller)
      modifies this`laserActivated, this`laserEnabled
      ensures laserActivated == LaserLatch(old(laserActivated), PointingButtons(c), TriggerEngaged(c.trigger))
      ensures laserEnabled == laserActivated
    {
      var rightButtonTouched := PointingButtons(c);
      var rightTriggerTouched := TriggerEngaged(c.trigger);
      if rightButtonTouched && (!rightTriggerTouched || laserActivated) {
        laserActivated := true;
        laserEnabled := true;
      } else {
        laserActivated := false;
        laserEnabled := false;
      }
    }

    /** What pointing does in one tick, for a laser that is `active` after
        the latch and a controller `c`: an active laser aims, sets its
        colour and length, re-targets the frame, stores the normalised hit
        coordinates when it hits a frame, and applies the trigger action;
        an inactive one only drops. */
    twostate predicate Pointed(active: bool, c: Controller, sight: Sight)
      requires old(Sound()) && PlaneWellFormed(sight.plane)
      reads this, game
    {
      var aim := AimOf(sight.hit, old(game.groundMeshes), old(game.propMeshes), old(game.frames), old(pickedFrame),
                       sight.alongTop, sight.alongLeft, sight.view);
      var act := if active then TriggerStep(c.trigger, aim) else NoAction;
      var aimed := active && sight.hit.Hit? && aim.frame.Some?;
      && laserActivated == (active && !act.Teleport?)
      && laserGreen == (if active then sight.hit.Hit? else old(laserGreen))
      && laserLength == (if !active then old(laserLength)
                         else if sight.hit.Hit? then sight.hit.distance else MaxTeleport)
      && pickedFrame == (if active then aim.frame else old(pickedFrame))
      && normX == (if aimed then aim.nx else old(normX))
      && normY == (if aimed then aim.ny else old(normY))
      && HoldingState() == TickHolding(old(HoldingState()), active, sight.hit, aim, act,
                                       c.position, DistToPlane(sight.plane, c.position))
      && game.cameraPosition == (if act.Teleport? then Teleported(old(game.cameraPosition), act.point)
                                 else old(game.cameraPosition))
      && initX == (if act.Grab? then aim.nx else old(initX))
      && initY == (if act.Grab? then aim.ny else old(initY))
      && selectedInitPos == (if act.Grab? then sight.targetPosition else old(selectedInitPos))
    }

    /** Aiming and the trigger while the laser is on; an inactive laser
        drops the selected object. */
    method Point(c: Controller, sight: Sight)
      requires Valid() && PlaneWellFormed(sight.plane)
      modifies this`laserActivated, this`laserGreen, this`laserLength
      modifies this`pickedFrame, this`normX, this`normY, this`initX, this`initY, this`selectedInitPos
      modifies this`pickedParent, this`initDist, this`initPos
      modifies game`selectedObject, game`meshParent, game`highlighted, game`cameraPosition
      ensures Valid()
      ensures Pointed(old(laserActivated), c, sight)
    {
      if laserActivated {
        var aim := Target(sight);
        HandleTrigger(c.trigger, aim, c.position, sight);
      } else {
        Drop();
      }
    }

    /** One tick of right-controller input: the latch, pointing, then the
        snap turn. */
    method ProcessController(right: Option<Controller>, sight: Sight)
      requires Valid() && PlaneWellFormed(sight.plane)
      modifies this`laserActivated, this`laserEnabled, this`laserGreen, this`laserLength
      modifies this`pickedFrame, this`normX, this`normY, this`initX, this`initY, this`selectedInitPos
      modifies this`pickedParent, this`initDist, this`initPos, this`stickNeutral
      modifies game`selectedObject, game`meshParent, game`highlighted, game`cameraPosition, game`cameraYaw
      ensures Valid()
      ensures right.None? ==> unchanged(this) && unchanged(game)
      ensures right.Some? ==>
        var c := right.value;
        var active := LaserLatch(old(laserActivated), PointingButtons(c), TriggerEngaged(c.trigger));
        var turn := SnapTurn(old(stickNeutral), c.stickX);
        && laserEnabled == active
        && Pointed(active, c, sight)
        && stickNeutral == turn.neutral && game.cameraYaw == old(game.cameraYaw) + turn.degrees
    {
      if right.None? {
        return;
      }
      var c := right.value;
      Activate(c);

      Point(c, sight);

      SnapTurnStep(c.stickX);
    }

    /** The spring: while something is selected, the controller's distance
        to the picked frame's plane is compared with the distance at pick
        time, and the object moves along the frame camera's view direction by
        the dead-zoned deviation. */
    method UpdateDepth(controllerPos: Vec3, plane: Plane, cam: FrameView, dt: real)
      requires Valid() && PlaneWellFormed(plane)
      modifies this`selectedInitPos, this`springShown, this`springRed
      ensures Valid()
      ensures game.selectedObject.None? ==>
        !springShown && springRed == old(springRed) && selectedInitPos == old(selectedInitPos)
      ensures game.selectedObject.Some? ==>
        var dist := DistToPlane(plane, controllerPos);
        && springShown
        && springRed == (Abs(dist - initDist) < SpringDeadzone)
        && selectedInitPos == SpringStep(old(selectedInitPos), cam.view, SpringDisplacement(dist, initDist), dt)
    {
      if game.selectedObject.None? {
        springShown := false;
        return;
      }
      springShown := true;
      var dist := DistToPlane(plane, controllerPos);
      var x;
      if Abs(dist - initDist) < SpringDeadzone {
        springRed := true;
        x := 0.0;
      } else {
        springRed := false;
        x := if dist - initDist > 0.0 then dist - SpringDeadzone - initDist else dist + SpringDeadzone - initDist;
      }
      var offset := Scale(cam.view, SpringK * x * dt);
      selectedInitPos := Add(selectedInitPos, offset);
    }

    /** Places the selected object according to the hit point's movement
        across the picked frame since the pick. */
    method UpdateTranslation(cam: FrameView)
      requires Valid()
      modifies game`meshPosition
      ensures Valid()
      ensures game.selectedObject.None? ==> game.meshPosition == old(game.meshPosition)
      ensures game.selectedObject.Some? ==>
        var f := pickedFrame.value;
        game.meshPosition == old(game.meshPosition)[game.selectedObject.value :=
          TranslatedPosition(selectedInitPos, cam, f.width, f.height, normX, normY, initX, initY)]
    {
      if game.selectedObject.None? {
        return;
      }
      var frame := pickedFrame.value;
      var objPos := TranslatedPosition(selectedInitPos, cam, frame.width, frame.height, normX, normY, initX, initY);
      game.meshPosition := game.meshPosition[game.selectedObject.value := objPos];
    }

    /** The per-frame update: depth first, then translation. */
    method Update(controllerPos: Vec3, plane: Plane, cam: FrameView, dt: real)
      requires Valid() && PlaneWellFormed(plane)
      modifies this`selectedInitPos, this`springShown, this`springRed, game`meshPosition
      ensures Valid()
      ensures game.selectedObject.Some? ==>
        var f := pickedFrame.value;
        var moved := SpringStep(old(selectedInitPos), cam.view,
                                SpringDisplacement(DistToPlane(plane, controllerPos), initDist), dt);
        && selectedInitPos == moved
        && springShown && springRed == (Abs(DistToPlane(plane, controllerPos) - initDist) < SpringDeadzone)
        && game.meshPosition == old(game.meshPosition)[game.selectedObject.value :=
             TranslatedPosition(moved, cam, f.width, f.height, normX, normY, initX, initY)]
      ensures game.selectedObject.None? ==>
        && selectedInitPos == old(selectedInitPos) && game.meshPosition == old(game.meshPosition)
        && !springShown && springRed == old(springRed)
    {
      UpdateDepth(controllerPos, plane, cam, dt);
      ghost var moved := selectedInitPos;
      ghost var positions := game.meshPosition;
      assert positions == old(game.meshPosition);
      UpdateTranslation(cam);
      assert selectedInitPos == moved;
    }
  }
}
