/** Per-hand grabbing of frames: a squeeze press grabs the first frame in
    list order that touches the hand and that the other hand does not hold;
    a squeeze release lets go, deleting the frame when the pointer has turned
    to face opposite the direction it had at grab time. Also picks which of
    the four hand models to show and recognises the reset chord. */
module HandGrab {
  import opened Basics
  import opened XrInput
  import opened GameState

  /** Tolerance of the flip-to-delete test. */
  const Tolerance: real := 0.2

  /** `u` and `v` point in opposite directions within `tolerance`
      (inclusive bound). */
  predicate Antiparallel(u: Vec3, v: Vec3, tolerance: real)
  {
    Abs(Dot(u, v) + 1.0) <= tolerance
  }

  /** A direction is never antiparallel to itself when unit length and the
      tolerance is below 2, and the test accepts a dot product anywhere in
      [-1 - tolerance, -1 + tolerance]. */
  lemma AntiparallelBand(u: Vec3, v: Vec3, tolerance: real)
    ensures Antiparallel(u, v, tolerance) <==> -1.0 - tolerance <= Dot(u, v) <= -1.0 + tolerance
    ensures Dot(u, u) == 1.0 && tolerance < 2.0 ==> !Antiparallel(u, u, tolerance)
  {
  }

  /** The two flips worked through: a reference of (0, 0, 1) against a
      current direction of (0, 0, -0.95) is a flip, against (0, 0, -0.5) it
      is not. */
  lemma FlipExamples()
    ensures Antiparallel(Vec3(0.0, 0.0, 1.0), Vec3(0.0, 0.0, -0.95), Tolerance)
    ensures !Antiparallel(Vec3(0.0, 0.0, 1.0), Vec3(0.0, 0.0, -0.5), Tolerance)
  {
  }

  /** A frame this hand may grab: not the frame the other hand holds, and
      touching this hand's mesh (`touching` holds the ids of those frames). */
  function GrabbableBy(other: Option<PermaFrame>, touching: set<nat>): PermaFrame -> bool
  {
    f => Some(f) != other && f.id in touching
  }

  /** What a hand holds and the pointer direction it recorded at grab time. */
  datatype HandState = HandState(grab: Option<PermaFrame>, dir: Vec3)

  /** The hand after its squeeze has been handled, the frame it let go of
      (detached from the hand) and the frame it asked to remove. */
  datatype SqueezeResult = SqueezeResult(hand: HandState, released: Option<PermaFrame>, removed: Option<PermaFrame>)

  /** One hand's squeeze handling. */
  function SqueezeStep(h: HandState, squeeze: Component, pointer: Vec3, frames: seq<PermaFrame>,
                       other: Option<PermaFrame>, touching: set<nat>): SqueezeResult
  {
    if !squeeze.pressChanged then SqueezeResult(h, None, None)
    else if squeeze.pressed then
      match FirstWhere(frames, GrabbableBy(other, touching))
      case None => SqueezeResult(h, None, None)
      case Some(i) => SqueezeResult(HandState(Some(frames[i]), pointer), None, None)
    else if h.grab.Some? then
      SqueezeResult(HandState(None, h.dir), h.grab,
                    if Antiparallel(h.dir, pointer, Tolerance) then h.grab else None)
    else SqueezeResult(h, None, None)
  }

  /** On a press edge the hand takes the first grabbable frame in list order
      and records the current pointer direction. */
  lemma {:induction false} GrabTakesFirstCandidate(h: HandState, squeeze: Component, pointer: Vec3,
                                                   frames: seq<PermaFrame>, other: Option<PermaFrame>,
                                                   touching: set<nat>, i: nat)
    requires squeeze.pressChanged && squeeze.pressed
    requires i < |frames| && Some(frames[i]) != other && frames[i].id in touching
    requires forall j :: 0 <= j < i ==> Some(frames[j]) == other || frames[j].id !in touching
    ensures SqueezeStep(h, squeeze, pointer, frames, other, touching)
            == SqueezeResult(HandState(Some(frames[i]), pointer), None, None)
  {
    var p := GrabbableBy(other, touching);
    forall j | 0 <= j < i ensures !p(frames[j]) { }
    FirstWhereUnique(frames, p, i);
  }

  /** On a press edge with no grabbable frame, nothing changes. */
  lemma {:induction false} GrabWithoutCandidate(h: HandState, squeeze: Component, pointer: Vec3,
                                                frames: seq<PermaFrame>, other: Option<PermaFrame>,
                                                touching: set<nat>)
    requires squeeze.pressChanged && squeeze.pressed
    requires forall j :: 0 <= j < |frames| ==> Some(frames[j]) == other || frames[j].id !in touching
    ensures SqueezeStep(h, squeeze, pointer, frames, other, touching) == SqueezeResult(h, None, None)
  {
    var p := GrabbableBy(other, touching);
    forall j | 0 <= j < |frames| ensures !p(frames[j]) { }
  }

  /** On a release edge the grab is always cleared; the held frame is
      detached, and its removal is requested exactly when the pointer has
      flipped. A release with nothing held changes nothing. */
  lemma {:induction false} ReleaseClearsGrab(h: HandState, squeeze: Component, pointer: Vec3,
                                             frames: seq<PermaFrame>, other: Option<PermaFrame>,
                                             touching: set<nat>)
    requires squeeze.pressChanged && !squeeze.pressed
    ensures var r := SqueezeStep(h, squeeze, pointer, frames, other, touching);
      && r.hand.grab == None && r.hand.dir == h.dir && r.released == h.grab
      && (r.removed.Some? <==> h.grab.Some? && Antiparallel(h.dir, pointer, Tolerance))
      && (r.removed.Some? ==> r.removed == h.grab)
  {
  }

  /** A hand only ever newly takes a frame the other hand is not holding,
      and only removes the frame it held. */
  lemma {:induction false} NeverTakesOthersFrame(h: HandState, squeeze: Component, pointer: Vec3,
                                                 frames: seq<PermaFrame>, other: Option<PermaFrame>,
                                                 touching: set<nat>)
    ensures var r := SqueezeStep(h, squeeze, pointer, frames, other, touching);
      && (r.hand.grab != h.grab && r.hand.grab.Some? ==>
            r.hand.grab != other && r.hand.grab.value in frames && r.hand.grab.value.id in touching)
      && (r.removed.Some? ==> r.removed == h.grab)
      && (!squeeze.pressChanged ==> r.hand == h)
  {
    var r := SqueezeStep(h, squeeze, pointer, frames, other, touching);
    if squeeze.pressChanged && squeeze.pressed && FirstWhere(frames, GrabbableBy(other, touching)).Some? {
      var i := FirstWhere(frames, GrabbableBy(other, touching)).value;
      assert GrabbableBy(other, touching)(frames[i]);
      assert r.hand.grab == Some(frames[i]);
    }
  }

  /** No frame is held by both hands. */
  predicate Exclusive(a: Option<PermaFrame>, b: Option<PermaFrame>)
  {
    a.None? || b.None? || a != b
  }

  datatype GrabOutcome = GrabOutcome(left: SqueezeResult, right: SqueezeResult)

  /** The grab/release section of a tick: the left hand first, then the
      right hand against the left hand's new grab. Both hands use the right
      controller's pointer direction. */
  function GrabSection(lh: HandState, rh: HandState, left: Controller, right: Controller,
                       frames: seq<PermaFrame>, leftTouching: set<nat>, rightTouching: set<nat>): GrabOutcome
  {
    var rightPointer := right.forward;
    var leftPointer := right.forward;
    var l := SqueezeStep(lh, left.squeeze, leftPointer, frames, rh.grab, leftTouching);
    var r := SqueezeStep(rh, right.squeeze, rightPointer, frames, l.hand.grab, rightTouching);
    GrabOutcome(l, r)
  }

  /** The grab section keeps the two hands from holding the same frame. */
  lemma {:induction false} GrabSectionKeepsExclusive(lh: HandState, rh: HandState, left: Controller, right: Controller,
                                                     frames: seq<PermaFrame>, leftTouching: set<nat>, rightTouching: set<nat>)
    requires Exclusive(lh.grab, rh.grab)
    ensures var g := GrabSection(lh, rh, left, right, frames, leftTouching, rightTouching);
      Exclusive(g.left.hand.grab, g.right.hand.grab)
  {
    var g := GrabSection(lh, rh, left, right, frames, leftTouching, rightTouching);
    NeverTakesOthersFrame(lh, left.squeeze, right.forward, frames, rh.grab, leftTouching);
    NeverTakesOthersFrame(rh, right.squeeze, right.forward, frames, g.left.hand.grab, rightTouching);
  }

  /** When both hands grab on the same tick they never take the same frame,
      whatever they held before. */
  lemma {:induction false} SimultaneousGrabsDiffer(lh: HandState, rh: HandState, left: Controller, right: Controller,
                                                   frames: seq<PermaFrame>, leftTouching: set<nat>, rightTouching: set<nat>)
    ensures var g := GrabSection(lh, rh, left, right, frames, leftTouching, rightTouching);
      g.right.hand.grab != rh.grab && g.right.hand.grab.Some? ==> g.right.hand.grab != g.left.hand.grab
  {
    var g := GrabSection(lh, rh, left, right, frames, leftTouching, rightTouching);
    NeverTakesOthersFrame(rh, right.squeeze, right.forward, frames, g.left.hand.grab, rightTouching);
  }

  /** Attaches `frame`, if any, to `to`: a released frame is detached, a
      held one carried by its hand's pointer. */
  function Reparent(parents: map<nat, FrameParent>, frame: Option<PermaFrame>, to: FrameParent): map<nat, FrameParent>
  {
    match frame
    case None => parents
    case Some(f) => parents[f.id := to]
  }

  /** The carry step of both hands (left, then right) when their models are
      shown: each held frame ends up on its own hand's pointer, since no
      frame is held by both, and every other frame keeps its parent. */
  lemma {:induction false} CarryFollowsHands(parents: map<nat, FrameParent>, l: Option<PermaFrame>, r: Option<PermaFrame>, id: nat)
    requires l.Some? && r.Some? ==> l.value.id != r.value.id
    ensures var m := Reparent(Reparent(parents, l, LeftPointer), r, RightPointer);
      && (l.Some? && id == l.value.id ==> id in m && m[id] == LeftPointer)
      && (r.Some? && id == r.value.id ==> id in m && m[id] == RightPointer)
      && ((l.None? || id != l.value.id) && (r.None? || id != r.value.id) ==>
            (id in m <==> id in parents) && (id in parents ==> m[id] == parents[id]))
  {
  }

  function RemovalEvents(removed: Option<PermaFrame>): seq<GameEvent>
  {
    match removed
    case None => []
    case Some(f) => [FrameRemoved(f)]
  }

  /** The delete-warning flags after the texture update: each held frame
      shows whether its hand's pointer has flipped. */
  function DeleteFlags(flags: map<nat, bool>, l: HandState, leftPointer: Vec3,
                       r: HandState, rightPointer: Vec3): map<nat, bool>
  {
    var afterLeft := if l.grab.Some? then flags[l.grab.value.id := Antiparallel(l.dir, leftPointer, Tolerance)] else flags;
    if r.grab.Some? then afterLeft[r.grab.value.id := Antiparallel(r.dir, rightPointer, Tolerance)] else afterLeft
  }

  /** Each held frame's flag equals its hand's flip test; the flags of frames
      no hand holds are untouched. */
  lemma {:induction false} DeleteFlagsFollowFlip(flags: map<nat, bool>, l: HandState, leftPointer: Vec3,
                                                 r: HandState, rightPointer: Vec3, id: nat)
    requires l.grab.Some? && r.grab.Some? ==> l.grab.value.id != r.grab.value.id
    ensures var m := DeleteFlags(flags, l, leftPointer, r, rightPointer);
      && (l.grab.Some? && id == l.grab.value.id ==> id in m && m[id] == Antiparallel(l.dir, leftPointer, Tolerance))
      && (r.grab.Some? && id == r.grab.value.id ==> id in m && m[id] == Antiparallel(r.dir, rightPointer, Tolerance))
      && ((l.grab.None? || id != l.grab.value.id) && (r.grab.None? || id != r.grab.value.id) ==>
            (id in m <==> id in flags) && (id in flags ==> m[id] == flags[id]))
  {
  }

  /** Which hand model to show: 0 fist (button and trigger touched), 1 thumb
      up (trigger only), 2 index pointing (button only), 3 open. */
  function HandModelIndex(buttonTouched: bool, triggerTouched: bool): nat
  {
    if buttonTouched && triggerTouched then 0
    else if triggerTouched then 1
    else if buttonTouched then 2
    else 3
  }

  /** The index is in 0..3 and tells the two touch flags apart: distinct
      touch states give distinct models. */
  lemma {:induction false} HandModelIndexDistinguishes(b: bool, t: bool, b': bool, t': bool)
    ensures HandModelIndex(b, t) <= 3
    ensures HandModelIndex(b, t) == 0 <==> b && t
    ensures HandModelIndex(b, t) == 1 <==> t && !b
    ensures HandModelIndex(b, t) == 2 <==> b && !t
    ensures HandModelIndex(b, t) == 3 <==> !b && !t
    ensures HandModelIndex(b, t) == HandModelIndex(b', t') ==> b == b' && t == t'
  {
  }

  /** The reset chord: A, B, right trigger, X, Y and left trigger pressed. */
  predicate ResetGesture(left: Controller, right: Controller)
  {
    right.firstButton.pressed && right.secondButton.pressed && right.trigger.pressed
    && left.firstButton.pressed && left.secondButton.pressed && left.trigger.pressed
  }

  /** One hand's squeeze handling as the loop over the frame list in hands.ts:
      the first grabbable frame wins and the search stops there. */
  method SqueezeHand(h: HandState, squeeze: Component, pointer: Vec3, frames: seq<PermaFrame>,
                     other: Option<PermaFrame>, touching: set<nat>) returns (res: SqueezeResult)
    ensures res == SqueezeStep(h, squeeze, pointer, frames, other, touching)
  {
    res := SqueezeResult(h, None, None);
    if squeeze.pressChanged {
      if squeeze.pressed {
        var i := 0;
        while i < |frames|
          invariant 0 <= i <= |frames|
          invariant forall j :: 0 <= j < i ==> Some(frames[j]) == other || frames[j].id !in touching
          invariant res == SqueezeResult(h, None, None)
        {
          var frame := frames[i];
          if Some(frame) != other && frame.id in touching {
            res := SqueezeResult(HandState(Some(frame), pointer), None, None);
            GrabTakesFirstCandidate(h, squeeze, pointer, frames, other, touching, i);
            return;
          }
          i := i + 1;
        }
        GrabWithoutCandidate(h, squeeze, pointer, frames, other, touching);
      } else {
        if h.grab.Some? {
          var removed := if Antiparallel(h.dir, pointer, Tolerance) then h.grab else None;
          res := SqueezeResult(HandState(None, h.dir), h.grab, removed);
        }
      }
    }
  }

  class Hands {
    const game: Game
    /** Indices (0..3) at which a left/right hand mesh has been loaded. */
    var leftHands: set<nat>
    var rightHands: set<nat>
    /** Loaded hand meshes currently made visible. */
    var leftShown: set<nat>
    var rightShown: set<nat>
    var leftIndex: nat
    var leftGrab: Option<PermaFrame>
    var leftDir: Vec3
    var rightIndex: nat
    var rightGrab: Option<PermaFrame>
    var rightDir: Vec3

    ghost predicate Valid()
      reads this
    {
      Exclusive(leftGrab, rightGrab) && leftIndex <= 3 && rightIndex <= 3
      && leftShown <= leftHands && rightShown <= rightHands
    }

    constructor (game: Game)
      ensures Valid() && this.game == game
      ensures leftGrab == None && rightGrab == None && leftIndex == 0 && rightIndex == 0
      ensures leftHands == {} && rightHands == {} && leftShown == {} && rightShown == {}
    {
      this.game := game;
      leftHands, rightHands, leftShown, rightShown := {}, {}, {}, {};
      leftIndex, leftGrab, leftDir := 0, None, Zero;
      rightIndex, rightGrab, rightDir := 0, None, Zero;
    }

    /** A hand model finished loading: it fills slot `i` on both hands,
        hidden. */
    method LoadHandMesh(i: nat)
      requires Valid() && i <= 3
      modifies this`leftHands, this`rightHands
      ensures Valid()
      ensures leftHands == old(leftHands) + {i} && rightHands == old(rightHands) + {i}
    {
      leftHands := leftHands + {i};
      rightHands := rightHands + {i};
    }

    /** One tick of hand input. `leftTouching`/`rightTouching` are the ids of
        the frames that intersect the current left/right hand mesh. */
    method ProcessController(left: Option<Controller>, right: Option<Controller>,
                             leftTouching: set<nat>, rightTouching: set<nat>)
      requires Valid()
      modifies this`leftShown, this`rightShown, this`leftGrab, this`leftDir, this`rightGrab, this`rightDir
      modifies this`leftIndex, this`rightIndex
      modifies game`events, game`deleteTexture, game`frameParent
      ensures Valid()
      ensures leftShown == {} && rightShown == {}
      ensures left.None? || right.None? ==>
        && leftGrab == old(leftGrab) && rightGrab == old(rightGrab)
        && leftDir == old(leftDir) && rightDir == old(rightDir)
        && leftIndex == old(leftIndex) && rightIndex == old(rightIndex)
        && game.events == old(game.events) && game.deleteTexture == old(game.deleteTexture)
        && game.frameParent == old(game.frameParent)
      ensures left.Some? && right.Some? ==>
        var l, r := left.value, right.value;
        var g := GrabSection(HandState(old(leftGrab), old(leftDir)), HandState(old(rightGrab), old(rightDir)),
                             l, r, game.frames, leftTouching, rightTouching);
        && HandState(leftGrab, leftDir) == g.left.hand
        && HandState(rightGrab, rightDir) == g.right.hand
        && game.frameParent == Reparent(Reparent(old(game.frameParent), g.left.released, Detached), g.right.released, Detached)
        && game.deleteTexture == DeleteFlags(old(game.deleteTexture), g.left.hand, r.forward, g.right.hand, r.forward)
        && game.events == old(game.events) + RemovalEvents(g.left.removed) + RemovalEvents(g.right.removed)
                          + (if ResetGesture(l, r) then [ResetRequested] else [])
        && leftIndex == HandModelIndex(ButtonTouched(l), l.trigger.touched)
        && rightIndex == HandModelIndex(ButtonTouched(r), r.trigger.touched)
    {
      rightShown := {};
      leftShown := {};
      if right.None? || left.None? {
        return;
      }
      var r, l := right.value, left.value;
      var rightPointer := r.forward;
      var leftPointer := r.forward;

      ghost var g := GrabSection(HandState(leftGrab, leftDir), HandState(rightGrab, rightDir),
                                 l, r, game.frames, leftTouching, rightTouching);
      // First, grabbing and releasing
      HandleSqueezes(l, r, leftTouching, rightTouching);
      assert HandState(leftGrab, leftDir) == g.left.hand && HandState(rightGrab, rightDir) == g.right.hand;

      // Then the delete-warning texture on held frames
      MarkHeldFrames(leftPointer, rightPointer);

      rightIndex := HandModelIndex(ButtonTouched(r), r.trigger.touched);
      leftIndex := HandModelIndex(ButtonTouched(l), l.trigger.touched);

      if ResetGesture(l, r) {
        game.Reset();
      }
    }

    /** The grab-and-release section of a tick, left hand first. */
    method HandleSqueezes(l: Controller, r: Controller, leftTouching: set<nat>, rightTouching: set<nat>)
      requires Valid()
      modifies this`leftGrab, this`leftDir, this`rightGrab, this`rightDir
      modifies game`events, game`frameParent
      ensures Valid()
      ensures var g := GrabSection(HandState(old(leftGrab), old(leftDir)), HandState(old(rightGrab), old(rightDir)),
                                   l, r, game.frames, leftTouching, rightTouching);
        && HandState(leftGrab, leftDir) == g.left.hand
        && HandState(rightGrab, rightDir) == g.right.hand
        && game.frameParent == Reparent(Reparent(old(game.frameParent), g.left.released, Detached), g.right.released, Detached)
        && game.events == old(game.events) + RemovalEvents(g.left.removed) + RemovalEvents(g.right.removed)
    {
      var rightPointer := r.forward;
      var leftPointer := r.forward;
      GrabSectionKeepsExclusive(HandState(leftGrab, leftDir), HandState(rightGrab, rightDir),
                                l, r, game.frames, leftTouching, rightTouching);
      var lres := SqueezeHand(HandState(leftGrab, leftDir), l.squeeze, leftPointer, game.frames, rightGrab, leftTouching);
      leftGrab, leftDir := lres.hand.grab, lres.hand.dir;
      LetGo(lres);
      var rres := SqueezeHand(HandState(rightGrab, rightDir), r.squeeze, rightPointer, game.frames, leftGrab, rightTouching);
      rightGrab, rightDir := rres.hand.grab, rres.hand.dir;
      LetGo(rres);
    }

    /** Each held frame shows the delete warning exactly when its hand's
        pointer has flipped since the grab. */
    method MarkHeldFrames(leftPointer: Vec3, rightPointer: Vec3)
      modifies game`deleteTexture
      ensures game.deleteTexture == DeleteFlags(old(game.deleteTexture), HandState(leftGrab, leftDir), leftPointer,
                                                HandState(rightGrab, rightDir), rightPointer)
    {
      if leftGrab.Some? {
        game.deleteTexture := game.deleteTexture[leftGrab.value.id := Antiparallel(leftDir, leftPointer, Tolerance)];
      }
      if rightGrab.Some? {
        game.deleteTexture := game.deleteTexture[rightGrab.value.id := Antiparallel(rightDir, rightPointer, Tolerance)];
      }
    }

    /** The release side effects of one hand's squeeze: the frame let go of
        is detached from the hand, and removed when the pointer flipped. */
    method LetGo(res: SqueezeResult)
      modifies game`frameParent, game`events
      ensures game.frameParent == Reparent(old(game.frameParent), res.released, Detached)
      ensures game.events == old(game.events) + RemovalEvents(res.removed)
    {
      if res.released.Some? {
        game.frameParent := game.frameParent[res.released.value.id := Detached];
      }
      if res.removed.Some? {
        game.RemoveFrame(res.removed.value);
      }
    }

    /** Shows the left hand model at `index`, if loaded, and attaches the
        held frame to the left pointer. */
    method UpdateLeft(index: nat)
      requires Valid()
      modifies this`leftShown, game`frameParent
      ensures Valid()
      ensures index !in leftHands ==> leftShown == old(leftShown) && game.frameParent == old(game.frameParent)
      ensures index in leftHands ==>
        && leftShown == old(leftShown) + {index}
        && game.frameParent == Reparent(old(game.frameParent), leftGrab, LeftPointer)
    {
      if index !in leftHands {
        return;
      }
      leftShown := leftShown + {index};
      if leftGrab.Some? {
        game.frameParent := game.frameParent[leftGrab.value.id := LeftPointer];
      }
    }

    /** Shows the right hand model at `index`, if loaded, and attaches the
        held frame to the right pointer. */
    method UpdateRight(index: nat)
      requires Valid()
      modifies this`rightShown, game`frameParent
      ensures Valid()
      ensures index !in rightHands ==> rightShown == old(rightShown) && game.frameParent == old(game.frameParent)
      ensures index in rightHands ==>
        && rightShown == old(rightShown) + {index}
        && game.frameParent == Reparent(old(game.frameParent), rightGrab, RightPointer)
    {
      if index !in rightHands {
        return;
      }
      rightShown := rightShown + {index};
      if rightGrab.Some? {
        game.frameParent := game.frameParent[rightGrab.value.id := RightPointer];
      }
    }

    /** Shows both hands' current models and carries the held frames. */
    method Update()
      requires Valid()
      modifies this`leftShown, this`rightShown, game`frameParent
      ensures Valid()
      ensures var carried := if leftIndex in leftHands then Reparent(old(game.frameParent), leftGrab, LeftPointer)
                             else old(game.frameParent);
        game.frameParent == (if rightIndex in rightHands then Reparent(carried, rightGrab, RightPointer) else carried)
      ensures leftShown == old(leftShown) + (if leftIndex in leftHands then {leftIndex} else {})
      ensures rightShown == old(rightShown) + (if rightIndex in rightHands then {rightIndex} else {})
    {
      UpdateLeft(leftIndex);
      UpdateRight(rightIndex);
    }
  }
}
