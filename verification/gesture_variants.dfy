/** How the earlier framing-gesture variant relates to the later one. */
module GestureVariants {
  import opened Basics
  import opened XrInput
  import PreviewGesture
  import FrameGesture

  /** The earlier test is the stricter one: whatever it accepts, the later
      test accepts too, since orthogonal forwards pass the later
      "orthogonal or parallel" test and the side tests coincide. */
  lemma {:induction false} EarlierGestureImpliesLater(left: Controller, right: Controller, view: Vec3)
    ensures FrameGesture.IsFramingGesture(left, right, view) ==>
            PreviewGesture.IsFramingGesture(left, right, view)
  {
    assert Dot(left.leftward, view) == Dot(view, left.leftward);
  }

  /** Parallel forward directions separate the two variants: the earlier
      test always rejects them, while the later one accepts them whenever
      the touch gate and the side test pass. */
  lemma {:induction false} ParallelForwardsOnlyInLater(left: Controller, right: Controller, view: Vec3)
    requires PreviewGesture.Parallel(left.forward, right.forward, false)
    ensures !FrameGesture.IsFramingGesture(left, right, view)
    ensures && !ButtonTouched(left) && !ButtonTouched(right)
            && !left.trigger.touched && !right.trigger.touched
            && left.squeeze.pressed && right.squeeze.pressed
            && PreviewGesture.Parallel(view, left.leftward, true)
            ==> PreviewGesture.IsFramingGesture(left, right, view)
  {
  }

  /** Such poses exist: both controllers pointing along z, with the side
      direction along the view, pass the later test and fail the earlier
      one. */
  lemma ParallelForwardsExample()
    ensures var button := Component(false, false, false);
      var grip := Component(true, true, false);
      var fwd := Vec3(0.0, 0.0, 1.0);
      var side := Vec3(1.0, 0.0, 0.0);
      var c := Controller(button, grip, button, 0.0, button, button, Zero, fwd, side);
      PreviewGesture.IsFramingGesture(c, c, side) && !FrameGesture.IsFramingGesture(c, c, side)
  {
  }

  /** While a gesture is held, touching a trigger without an edge keeps it in
      the later variant but ends it in the earlier one. */
  lemma {:induction false} TouchWithoutEdge(previewRed: bool, left: Controller, right: Controller, view: Vec3)
    requires left.trigger.touched || right.trigger.touched
    requires !left.trigger.pressChanged && !right.trigger.pressChanged
    ensures PreviewGesture.Decide(true, previewRed, left, right, view) == PreviewGesture.Hold
    ensures FrameGesture.Decide(true, left, right, view) == FrameGesture.Recognise(false)
  {
  }
}
