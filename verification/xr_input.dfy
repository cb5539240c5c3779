/** What one tick of controller input looks like to the interaction code:
    the flags of each motion-controller component and the pointer pose. */
module XrInput {
  import opened Basics

  /** One motion-controller component: `pressed`, `touched`, and the edge
      flag `changes.pressed`, which is set on the tick the pressed state
      flips in either direction (press or release). */
  datatype Component = Component(pressed: bool, touched: bool, pressChanged: bool)

  /** A tracked controller. `firstButton`/`secondButton` are A/B on the right
      controller and X/Y on the left one. `forward` and `leftward` are the
      pointer's world directions for the local axes (0, 0, 1) and (-1, 0, 0),
      taken to be unit vectors. `stickX` is the thumbstick's horizontal axis. */
  datatype Controller = Controller(
    trigger: Component,
    squeeze: Component,
    thumbstick: Component,
    stickX: real,
    firstButton: Component,
    secondButton: Component,
    position: Vec3,
    forward: Vec3,
    leftward: Vec3)

  /** Any face button or the thumbstick is touched. */
  predicate ButtonTouched(c: Controller)
  {
    c.firstButton.touched || c.secondButton.touched || c.thumbstick.touched
  }
}
