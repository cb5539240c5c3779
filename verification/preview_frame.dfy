/** The framing gesture with frame creation: both grips squeezed, nothing
    else touched, forward directions orthogonal or parallel, and both side
    directions along the view. While the gesture is held a preview is shown;
    a trigger edge then commits a frame of the last green size. */
module PreviewGesture {
  import opened Basics
  import opened XrInput
  import opened GameState
  import opened Rectangle

  /** Tolerance of the orthogonal and parallel tests on dot products. */
  const Tolerance: real := 0.2

  /** `u` and `v` are parallel within tolerance; when `anti` holds, the
      opposite direction counts as parallel too. Inclusive bound. */
  predicate Parallel(u: Vec3, v: Vec3, anti: bool)
  {
    var dot := if anti then Abs(Dot(u, v)) else Dot(u, v);
    Abs(dot - 1.0) <= Tolerance
  }

  /** `u` and `v` are orthogonal within tolerance. Inclusive bound. */
  predicate Orthogonal(u: Vec3, v: Vec3)
  {
    Abs(Dot(u, v)) <= Tolerance
  }

  /** Both tests are symmetric in their two directions. */
  lemma ToleranceTestsSymmetric(u: Vec3, v: Vec3, anti: bool)
    ensures Orthogonal(u, v) <==> Orthogonal(v, u)
    ensures Parallel(u, v, anti) <==> Parallel(v, u, anti)
  {
    assert Dot(u, v) == Dot(v, u);
  }

  /** The tests are exact about their bounds: a dot product of exactly the
      tolerance is orthogonal, and one just past it is not. */
  lemma OrthogonalBoundInclusive(u: Vec3, v: Vec3)
    ensures Abs(Dot(u, v)) == Tolerance ==> Orthogonal(u, v)
    ensures Abs(Dot(u, v)) > Tolerance ==> !Orthogonal(u, v)
  {
  }

  /** Parallel in the strict sense implies parallel up to direction, and no
      pair of directions is both orthogonal and parallel. */
  lemma ParallelFacts(u: Vec3, v: Vec3)
    ensures Parallel(u, v, false) ==> Parallel(u, v, true)
    ensures !(Orthogonal(u, v) && Parallel(u, v, true))
  {
  }

  /** The framing gesture test. The second side direction is read from the
      left controller as well, so the right controller's side direction
      plays no part. */
  predicate IsFramingGesture(left: Controller, right: Controller, view: Vec3)
  {
    var rightButtonTouched := ButtonTouched(right);
    var leftButtonTouched := ButtonTouched(left);
    if rightButtonTouched || right.trigger.touched || leftButtonTouched || left.trigger.touched
       || !right.squeeze.pressed || !left.squeeze.pressed
    then false
    else
      var leftFDir, leftLDir := left.forward, left.leftward;
      var rightFDir, rightLDir := right.forward, left.leftward;
      (Orthogonal(leftFDir, rightFDir) || Parallel(leftFDir, rightFDir, false))
      && Parallel(view, rightLDir, true)
      && Parallel(view, leftLDir, true)
  }

  /** The gesture holds exactly when the exclusivity gate passes and the
      orientation tests pass; the right controller's side direction is never
      consulted. */
  lemma {:induction false} FramingGestureCharacterised(left: Controller, right: Controller, view: Vec3)
    ensures IsFramingGesture(left, right, view) <==>
      && !ButtonTouched(left) && !ButtonTouched(right)
      && !left.trigger.touched && !right.trigger.touched
      && left.squeeze.pressed && right.squeeze.pressed
      && (Orthogonal(left.forward, right.forward) || Parallel(left.forward, right.forward, false))
      && Parallel(view, left.leftward, true)
    ensures IsFramingGesture(left, right, view) ==
      IsFramingGesture(left, right.(leftward := left.leftward), view)
  {
  }

  /** What one tick of `processController` does once both controllers are
      tracked. */
  datatype Decision = Commit | Hold | Recognise(made: bool)

  function Decide(gestureMade: bool, previewRed: bool, left: Controller, right: Controller, view: Vec3): Decision
  {
    if gestureMade && (right.trigger.touched || left.trigger.touched) then
      if !previewRed && (right.trigger.pressChanged || left.trigger.pressChanged) then Commit
      else Hold
    else Recognise(IsFramingGesture(left, right, view))
  }

  /** A frame is committed exactly when the gesture was made, a trigger is
      touched, the preview is green and a trigger edge fires. A held gesture
      is never dropped while a trigger is touched. */
  lemma {:induction false} DecideCases(gestureMade: bool, previewRed: bool, left: Controller, right: Controller, view: Vec3)
    ensures Decide(gestureMade, previewRed, left, right, view) == Commit <==>
      gestureMade && (right.trigger.touched || left.trigger.touched) && !previewRed
      && (right.trigger.pressChanged || left.trigger.pressChanged)
    ensures Decide(gestureMade, previewRed, left, right, view) == Hold ==> gestureMade
    ensures gestureMade && (right.trigger.touched || left.trigger.touched) ==>
      !Decide(gestureMade, previewRed, left, right, view).Recognise?
    ensures previewRed ==> Decide(gestureMade, previewRed, left, right, view) != Commit
  {
  }

  /** Whether the gesture is made after a tick that decided `d`: a commit
      ends it, a hold keeps it, and recognition sets it to the test. */
  function GestureAfter(gestureMade: bool, d: Decision): bool
  {
    match d
    case Commit => false
    case Hold => gestureMade
    case Recognise(made) => made
  }

  /** A commit ends the gesture, so whatever the next tick brings, it cannot
      commit again: two ticks in a row never both create a frame. */
  lemma {:induction false} NoDoubleCommit(
    gestureMade: bool, previewRed: bool, left: Controller, right: Controller, view: Vec3,
    red2: bool, left2: Controller, right2: Controller, view2: Vec3)
    requires Decide(gestureMade, previewRed, left, right, view) == Commit
    ensures !GestureAfter(gestureMade, Decide(gestureMade, previewRed, left, right, view))
    ensures Decide(GestureAfter(gestureMade, Decide(gestureMade, previewRed, left, right, view)),
                   red2, left2, right2, view2) != Commit
  {
  }

  /** A recognised gesture implies no trigger was touched on that tick. */
  lemma {:induction false} RecognisedMeansTriggersFree(gestureMade: bool, previewRed: bool, left: Controller, right: Controller, view: Vec3)
    requires Decide(gestureMade, previewRed, left, right, view) == Recognise(true)
    ensures !left.trigger.touched && !right.trigger.touched
    ensures left.squeeze.pressed && right.squeeze.pressed
  {
  }

  class PreviewFrame {
    const game: Game
    var gestureMade: bool
    var frameMade: bool
    var leftCorner: Vec3
    var rightCorner: Vec3
    var finalWidth: real
    var finalHeight: real
    var finalVertexData: VertexData
    var previewVisible: bool
    /** The preview carries the red material. */
    var previewRed: bool

    /** The stored final size never drops below the minimum, and the preview
        is visible exactly while the gesture is made. */
    ghost predicate Valid()
      reads this, game
    {
      game.Valid() && finalWidth >= MinWidth && finalHeight >= MinHeight
      && previewVisible == gestureMade
    }

    /** Construction followed by asset loading: the preview exists, hidden
        and red. */
    constructor (game: Game)
      requires game.Valid()
      ensures Valid() && this.game == game
      ensures !gestureMade && !frameMade && !previewVisible && previewRed
      ensures finalWidth == MinWidth && finalHeight == MinHeight
      ensures leftCorner == Zero && rightCorner == Zero
    {
      this.game := game;
      gestureMade, frameMade := false, false;
      leftCorner, rightCorner := Zero, Zero;
      finalWidth, finalHeight := 0.3, 0.3;
      finalVertexData := VertexData([], [], []);
      previewVisible, previewRed := false, true;
    }

    /** Rebuilds the preview from the two corners. `width` is the engine's
        length of the top edge. The final size is taken only when green. */
    method Update(width: real)
      requires Valid() && width >= 0.0
      modifies this`finalWidth, this`finalHeight, this`finalVertexData, this`previewRed
      ensures Valid()
      ensures var c := BuildCorners(leftCorner, rightCorner);
        && finalVertexData == VertexDataOf(c)
        && previewRed == TooSmall(c.height, width)
        && (previewRed ==> finalWidth == old(finalWidth) && finalHeight == old(finalHeight))
        && (!previewRed ==> finalWidth == width && finalHeight == c.height)
    {
      var c := BuildCorners(leftCorner, rightCorner);
      finalVertexData := VertexDataOf(c);
      var height := c.height;
      if height < MinHeight || width < MinWidth {
        previewRed := true;
      } else {
        previewRed := false;
        finalHeight := height;
        finalWidth := width;
      }
    }

    /** One tick of gesture handling. Without both controllers nothing
        changes; otherwise the corners follow the hands and `Decide` picks
        commit, hold or re-recognition. */
    method ProcessController(left: Option<Controller>, right: Option<Controller>, view: Vec3)
      requires Valid()
      modifies this`leftCorner, this`rightCorner, this`gestureMade, this`previewVisible, this`frameMade
      modifies game`frames, game`nextId
      ensures Valid()
      ensures finalWidth == old(finalWidth) && finalHeight == old(finalHeight) && previewRed == old(previewRed)
      ensures left.None? || right.None? ==>
        && leftCorner == old(leftCorner) && rightCorner == old(rightCorner)
        && gestureMade == old(gestureMade) && previewVisible == old(previewVisible) && frameMade == old(frameMade)
        && game.frames == old(game.frames) && game.nextId == old(game.nextId)
      ensures left.Some? && right.Some? ==>
        leftCorner == left.value.position && rightCorner == right.value.position
      ensures left.Some? && right.Some? ==>
        gestureMade == GestureAfter(old(gestureMade), Decide(old(gestureMade), old(previewRed), left.value, right.value, view))
      ensures left.Some? && right.Some? ==>
        var d := Decide(old(gestureMade), old(previewRed), left.value, right.value, view);
        && (d == Commit ==>
              && !gestureMade && !previewVisible && frameMade
              && game.frames == old(game.frames) + [PermaFrame(old(game.nextId), old(finalWidth), old(finalHeight))]
              && game.frames[|game.frames| - 1].width >= MinWidth
              && game.frames[|game.frames| - 1].height >= MinHeight)
        && (d == Hold ==>
              gestureMade == old(gestureMade) && previewVisible == old(previewVisible)
              && frameMade == old(frameMade) && game.frames == old(game.frames) && game.nextId == old(game.nextId))
        && (d.Recognise? ==>
              gestureMade == d.made && previewVisible == d.made
              && frameMade == old(frameMade) && game.frames == old(game.frames) && game.nextId == old(game.nextId))
    {
      if right.None? || left.None? {
        return;
      }
      var l, r := left.value, right.value;
      leftCorner := l.position;
      rightCorner := r.position;
      if gestureMade && (r.trigger.touched || l.trigger.touched) {
        if !previewRed && (r.trigger.pressChanged || l.trigger.pressChanged) {
          gestureMade := false;
          previewVisible := false;
          frameMade := true;
          var perm := game.AddFrame(finalWidth, finalHeight);
        }
      } else {
        if IsFramingGesture(l, r, view) {
          gestureMade := true;
          previewVisible := true;
        } else {
          gestureMade := false;
          previewVisible := false;
        }
      }
    }
  }
}
