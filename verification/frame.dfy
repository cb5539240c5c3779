/** The earlier framing-gesture variant: the same preview, but a trigger edge
    only ends the gesture (no frame is created), touching a trigger cancels
    it, and the forward directions must be orthogonal. */
module FrameGesture {
  import opened Basics
  import opened XrInput
  import opened Rectangle

  const Tolerance: real := 0.2

  /** The gesture test with its tolerance tests written inline. As in the
      later variant, the second side direction is read from the left
      controller. */
  predicate IsFramingGesture(left: Controller, right: Controller, view: Vec3)
  {
    if ButtonTouched(right) || right.trigger.touched || ButtonTouched(left) || left.trigger.touched
       || !right.squeeze.pressed || !left.squeeze.pressed
    then false
    else
      var leftFDir, leftLDir := left.forward, left.leftward;
      var rightFDir, rightLDir := right.forward, left.leftward;
      !(Abs(Dot(leftFDir, rightFDir)) > Tolerance
        || Abs(Abs(Dot(leftLDir, view)) - 1.0) > Tolerance
        || Abs(Abs(Dot(rightLDir, view)) - 1.0) > Tolerance)
  }

  /** Forward directions must be orthogonal, and a touched trigger always
      rejects the gesture. */
  lemma {:induction false} FramingGestureCharacterised(left: Controller, right: Controller, view: Vec3)
    ensures IsFramingGesture(left, right, view) <==>
      && !ButtonTouched(left) && !ButtonTouched(right)
      && !left.trigger.touched && !right.trigger.touched
      && left.squeeze.pressed && right.squeeze.pressed
      && Abs(Dot(left.forward, right.forward)) <= Tolerance
      && Abs(Abs(Dot(left.leftward, view)) - 1.0) <= Tolerance
  {
  }

  datatype Decision = Cancel | Recognise(made: bool)

  function Decide(gestureMade: bool, left: Controller, right: Controller, view: Vec3): Decision
  {
    if gestureMade && (right.trigger.pressChanged || left.trigger.pressChanged) then Cancel
    else Recognise(IsFramingGesture(left, right, view))
  }

  /** The gesture survives a tick only if it is recognised afresh: a
      touched trigger without an edge ends it, and so does an edge. */
  lemma {:induction false} TouchedTriggerEndsGesture(gestureMade: bool, left: Controller, right: Controller, view: Vec3)
    requires left.trigger.touched || right.trigger.touched
    ensures Decide(gestureMade, left, right, view) == Cancel
         || Decide(gestureMade, left, right, view) == Recognise(false)
  {
  }

  class Frame {
    var gestureMade: bool
    var leftCorner: Vec3
    var rightCorner: Vec3
    var previewVisible: bool
    var previewRed: bool
    /** The vertex data last applied to the preview mesh. */
    var previewData: VertexData

    ghost predicate Valid()
      reads this
    {
      previewVisible == gestureMade
    }

    /** Construction followed by asset loading: hidden and red. */
    constructor ()
      ensures Valid() && !gestureMade && !previewVisible && previewRed
      ensures leftCorner == Zero && rightCorner == Zero
    {
      gestureMade := false;
      leftCorner, rightCorner := Zero, Zero;
      previewVisible, previewRed := false, true;
      previewData := VertexData([], [], []);
    }

    /** Rebuilds the preview and colours it; `width` is the engine's length of
        the top edge. */
    method Update(width: real)
      requires Valid() && width >= 0.0
      modifies this`previewRed, this`previewData
      ensures Valid()
      ensures var c := BuildCorners(leftCorner, rightCorner);
        previewData == VertexData(Positions(c), Indices, []) && previewRed == TooSmall(c.height, width)
    {
      var c := BuildCorners(leftCorner, rightCorner);
      previewData := VertexData(Positions(c), Indices, []);
      if c.height < MinHeight || width < MinWidth {
        previewRed := true;
      } else {
        previewRed := false;
      }
    }

    method ProcessController(left: Option<Controller>, right: Option<Controller>, view: Vec3)
      requires Valid()
      modifies this`leftCorner, this`rightCorner, this`gestureMade, this`previewVisible
      ensures Valid() && previewRed == old(previewRed)
      ensures left.None? || right.None? ==> unchanged(this)
      ensures left.Some? && right.Some? ==>
        && leftCorner == left.value.position && rightCorner == right.value.position
        && var d := Decide(old(gestureMade), left.value, right.value, view);
           (d == Cancel ==> !gestureMade) && (d.Recognise? ==> gestureMade == d.made)
    {
      if right.None? || left.None? {
        return;
      }
      var l, r := left.value, right.value;
      leftCorner := l.position;
      rightCorner := r.position;
      if gestureMade && (r.trigger.pressChanged || l.trigger.pressChanged) {
        gestureMade := false;
        previewVisible := false;
      } else {
        if IsFramingGesture(l, r, view) {
          gestureMade := true;
          previewVisible := true;
        } else {
          gestureMade := false;
          previewVisible := false;
        }
      }
    }
  }
}
