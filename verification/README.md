# Picture frame: per-tick input logic

A model of the input handling in a WebXR "picture frame" app. The player frames part of the
scene with both hands to create a picture frame. They can grab frames with the squeeze
buttons, and delete a frame by flipping it before letting go. They can also pick objects
*through* a frame with a laser from the right controller, then push, pull and drag them.
Every module runs once per rendered frame, and most of what it does is a small state
machine driven by the controllers' boolean flags (`touched`, `pressed`, and
`changes.pressed`, the press edge) and by a few scalars.

The model has one Dafny module per concern:

- `Basics`: optional values, 3-vectors over `real` with dot product and vector arithmetic,
  and `FirstWhere`, the first index satisfying a predicate. `FirstWhere` specifies the
  search loops that stop at their first match.
- `XrInput`: the controller snapshot for one tick. It has the trigger, squeeze,
  thumbstick, first and second buttons (A/B or X/Y), the stick's x axis, and the
  pointer's position, forward and leftward directions.
- `GameState`: the shared `Game` object. It holds the list of frames (records with a
  distinct id and a size) and the selected object. It records the ground and prop meshes,
  mesh parents and positions, highlighted meshes, each frame's delete-warning flag and
  parent, and the camera's position and accumulated yaw. `removeFrame` and `reset` are
  recorded as events.
- `Rectangle`: the upright rectangle both framing previews build from the two hand
  positions, and the 12-entry vertex buffer with its index and UV lists.
- `PreviewGesture`: the framing gesture with frame creation (`previewFrame.ts`). It has
  the tolerance tests, the gesture predicate, the commit/hold/recognise decision, and the
  `PreviewFrame` class.
- `FrameGesture`: the earlier framing-gesture variant (`frame.ts`). A trigger edge only
  ends the gesture there, and the forward directions must be orthogonal.
- `GestureVariants`: how the two gesture tests relate.
- `HandGrab`: grab, release and flip-to-delete per hand, the hand-model selector, the
  reset chord, and the `Hands` class.
- `Laser`: the activation latch, hit classification, the frame scan, normalised frame
  coordinates, the trigger actions, snap turn, spring depth control and drag, and the
  `LaserPointer` class.

Most class methods are proved against a specification function beside them. Examples are
`Decide`, `SqueezeStep`, `GrabSection`, `FramePick`, `AimOf`, `TriggerStep`, `Dropped`,
`PickedUp`, `TickHolding` and `SnapTurn`, and the lemmas are proved about those functions.
A few small methods state their new fields directly: `LoadHandMesh`, `MarkHeldFrames`,
`LetGo`, `UpdateLeft` and `UpdateRight`.

The model keeps the code's quirks as written:

- In `hands.ts`, the left hand's pointer direction is read from the right controller.
- In both gesture tests, the second side direction is read from the left controller, so
  the right controller's side direction plays no part.
- The delete test compares the pointer direction now with the pointer direction at grab
  time.
- The commit edge in `previewFrame.ts` is `changes.pressed`, which fires on release as well
  as on press.
- A direct laser hit on a prop never picks it up: the mesh to pick always comes from the
  second ray, cast through the picked frame.
- Teleporting switches the laser's latch off but leaves the laser mesh enabled.
- The frame scan clears the pick on every frame that does not match, so an empty frame
  list keeps the previous pick.

Engine computations are inputs, not models. These inputs are:

- `width`: the length of the preview's top edge.
- `leftTouching`/`rightTouching`: the frames touching a hand mesh.
- `Sight`: the laser's primary hit, the hit point's projections on the picked frame's
  edges, the result of the ray through the frame's camera, that mesh's world position, and
  the frame's world plane with its normal's length.
- `FrameView`: the frame camera's directions and tan(fov/2).
- `view`: the headset's view direction.
- `dt`: the time step.

Pointer directions are taken as already normalised.

## Model

| member | source | states |
|---|---|---|
| Basics.FirstWhere | src/hands.ts:150-160 | the result is the index of the first element satisfying the predicate, with none before it; no result means no element satisfies it |
| Basics.FirstWhereUnique | src/hands.ts:150-160 | an element that satisfies the predicate with none satisfying it before is exactly what the search returns |
| GameState.Game.AddFrame | src/previewFrame.ts:177-181 | appends one frame of the given size with a fresh id, keeping ids distinct and sizes positive |
| GameState.Game.RemoveFrame | src/hands.ts:166 | records one removal request for the frame |
| GameState.Game.Reset | src/hands.ts:250 | records one reset request |
| Rectangle.BuildCorners | src/previewFrame.ts:91-107 | height is abs(left.y - right.y) and is at least 0; the top row is at the higher hand's y and the bottom row at the lower; the left column takes x and z from the left hand and the right column from the right hand; each hand is itself one of the corners |
| Rectangle.HigherHandIsTopCorner | src/previewFrame.ts:92-107 | the higher hand stays put as a top corner, and the lower one as the opposite bottom corner |
| Rectangle.SwapHandsMirrors | src/previewFrame.ts:91-107 | for all hand positions, equal heights included, swapping the hands mirrors the rectangle left to right and keeps its height |
| Rectangle.Positions | src/previewFrame.ts:109-122 | the buffer has 12 entries: corners top-left, top-right, bottom-left, bottom-right, each as x, y, z |
| Rectangle.IndicesWellFormed | src/previewFrame.ts:123-125 | the index list holds whole triangles, every index is below 4, every corner is used, and there is one UV pair per corner |
| PreviewGesture.ToleranceTestsSymmetric | src/previewFrame.ts:274-293 | the orthogonal and parallel tests are symmetric in their two directions |
| PreviewGesture.OrthogonalBoundInclusive | src/previewFrame.ts:287-293 | a dot product equal to the tolerance passes the orthogonal test, and one above it fails |
| PreviewGesture.ParallelFacts | src/previewFrame.ts:274-293 | strictly parallel implies parallel up to direction; no pair of directions passes both the orthogonal and the parallel test |
| PreviewGesture.FramingGestureCharacterised | src/previewFrame.ts:195-270 | the gesture holds iff no button, stick or trigger is touched, both grips are pressed, the forwards are orthogonal or parallel, and the left side direction is parallel to the view; the right side direction is never consulted |
| PreviewGesture.DecideCases | src/previewFrame.ts:165-192 | a frame is committed iff the gesture was made, a trigger is touched, the preview is green and a trigger edge fires; holding implies the gesture was made; a touched trigger during the gesture never re-runs recognition; a red preview never commits |
| PreviewGesture.NoDoubleCommit | src/previewFrame.ts:165-182 | a tick that commits leaves the gesture off, and from that state the next tick cannot commit, whatever its inputs |
| PreviewGesture.RecognisedMeansTriggersFree | src/previewFrame.ts:184-192 | a tick that recognises the gesture has both grips pressed and no trigger touched |
| PreviewGesture.PreviewFrame.constructor | src/previewFrame.ts:37-78 | the gesture is off, no frame has been made, the preview is hidden and red, and the final size is the 0.3 minimum |
| PreviewGesture.PreviewFrame.Update | src/previewFrame.ts:84-145 | the vertex data is rebuilt from the corners; the preview is red iff height or width is below 0.3; the final size is taken only when the preview is green, so it never falls below the minimum |
| PreviewGesture.PreviewFrame.ProcessController | src/previewFrame.ts:147-193 | without both controllers nothing changes. Otherwise the corners follow the hands, and the gesture afterwards is the one the decision leaves, as used by NoDoubleCommit. A commit appends exactly one frame with the last green size, hides the preview and sets frameMade. A hold and a recognition leave the frame list and the next id alone. A hold changes nothing else. Recognition sets the gesture and the preview's visibility to the gesture test |
| FrameGesture.FramingGestureCharacterised | src/frame.ts:159-233 | the gesture holds iff nothing is touched, both grips are pressed, the forwards are orthogonal within tolerance and the left side direction is parallel to the view up to direction |
| FrameGesture.TouchedTriggerEndsGesture | src/frame.ts:140-156 | a touched trigger always ends the gesture, by an edge or by failing the gesture test |
| FrameGesture.Frame.constructor | src/frame.ts:26-60 | the gesture is off and the preview is hidden and red |
| FrameGesture.Frame.Update | src/frame.ts:66-122 | the preview gets the corner positions and index list; it is red iff height or width is below 0.3 |
| FrameGesture.Frame.ProcessController | src/frame.ts:124-157 | without both controllers nothing changes; otherwise the corners follow the hands; a trigger edge during the gesture ends it without creating a frame; otherwise the gesture and the preview's visibility follow the gesture test |
| GestureVariants.EarlierGestureImpliesLater | src/frame.ts:224-230 | whatever the earlier gesture test accepts, the later one accepts |
| GestureVariants.ParallelForwardsOnlyInLater | src/previewFrame.ts:258-267 | for all poses with parallel forward directions, the earlier test rejects them, and the later one accepts them whenever the touch gate and the side test pass |
| GestureVariants.ParallelForwardsExample | src/frame.ts:224-230 | a concrete pose with both forwards along z passes the later test and fails the earlier one |
| GestureVariants.TouchWithoutEdge | src/previewFrame.ts:165-171 | with a trigger touched and no edge, the later variant holds the gesture while the earlier one drops it |
| HandGrab.AntiparallelBand | src/hands.ts:277-283 | the flip test accepts exactly dot products within the tolerance of -1, bounds included; a unit direction is never flipped against itself |
| HandGrab.FlipExamples | src/hands.ts:277-283 | (0,0,1) against (0,0,-0.95) is a flip; against (0,0,-0.5) it is not |
| HandGrab.GrabTakesFirstCandidate | src/hands.ts:148-160 | on a press edge the hand takes the first frame in list order that it touches and the other hand does not hold, and records the current pointer direction |
| HandGrab.GrabWithoutCandidate | src/hands.ts:148-160 | on a press edge with no such frame, the hand is unchanged |
| HandGrab.ReleaseClearsGrab | src/hands.ts:161-170 | on a release edge the grab is always cleared and the held frame detached; removal is requested iff the pointer has flipped; with nothing held nothing happens |
| HandGrab.NeverTakesOthersFrame | src/hands.ts:150-160 | a newly grabbed frame is in the list, touches the hand and is not the other hand's frame; only the held frame is ever removed; without an edge the hand is unchanged |
| HandGrab.GrabSectionKeepsExclusive | src/hands.ts:147-194 | if no frame was held by both hands before the grab section, none is after |
| HandGrab.SimultaneousGrabsDiffer | src/hands.ts:172-184 | a frame the right hand newly grabs is never the frame the left hand holds after its own step |
| HandGrab.DeleteFlagsFollowFlip | src/hands.ts:196-210 | each held frame's delete flag equals its hand's flip test; flags of frames no hand holds are untouched |
| HandGrab.CarryFollowsHands | src/hands.ts:255-275 | after the carry step of both hands, each held frame is on its own hand's pointer, and every other frame keeps its parent |
| HandGrab.HandModelIndexDistinguishes | src/hands.ts:220-239 | the hand model is 0 iff button and trigger are touched, 1 iff only the trigger, 2 iff only a button, 3 iff neither; distinct touch states give distinct models |
| HandGrab.SqueezeHand | src/hands.ts:148-171 | the frame loop with break computes exactly the squeeze step: first eligible frame on a press, release with flip test on a release |
| HandGrab.Hands.constructor | src/hands.ts:27-41 | no hand meshes, nothing held, both model indices 0 |
| HandGrab.Hands.LoadHandMesh | src/hands.ts:53-62 | a loaded model fills the same slot on both hands |
| HandGrab.Hands.ProcessController | src/hands.ts:107-252 | hand meshes are hidden. Without both controllers no grab, index, texture or game state changes. Otherwise: grabs follow the grab section; released frames are detached; flipped releases are removed; delete flags follow the flip test; indices follow the touch flags; reset is requested iff all six of A, B, X, Y and both triggers are pressed. No frame is ever held by both hands |
| HandGrab.Hands.HandleSqueezes | src/hands.ts:147-194 | the left hand's squeeze is handled first, then the right hand's against the left hand's new grab, both with the right controller's pointer; released frames are detached and flipped ones removed |
| HandGrab.Hands.MarkHeldFrames | src/hands.ts:196-210 | the delete flags become those of the flip test for each held frame |
| HandGrab.Hands.LetGo | src/hands.ts:161-170 | the released frame is detached and a flipped one is removed |
| HandGrab.Hands.UpdateLeft | src/hands.ts:266-275 | no effect when no model is loaded at the index; otherwise that model is shown and only the held frame, if any, is attached to the left pointer |
| HandGrab.Hands.UpdateRight | src/hands.ts:255-264 | no effect when no model is loaded at the index; otherwise that model is shown and only the held frame, if any, is attached to the right pointer |
| HandGrab.Hands.Update | src/hands.ts:102-105 | shows the current model of each hand when loaded; the held frames are carried, left then right, to their hands' pointers when the hand's model is loaded |
| Laser.LaserLatch | src/laserPointer.ts:153-164 | the pointing buttons are necessary; an engaged trigger cannot switch the laser on but does not switch an active one off |
| Laser.HeldButtonKeepsLaser | src/laserPointer.ts:158-164 | once on, the laser stays on for as long as the pointing buttons are held |
| Laser.EngagedTriggerBlocksStart | src/laserPointer.ts:158-164 | an inactive laser stays off while the trigger stays engaged |
| Laser.FramePick | src/laserPointer.ts:195-204 | an empty frame list keeps the previous pick; otherwise the pick is a frame whose boundary is the hit mesh, and exists iff such a frame does; a scene mesh picks none |
| Laser.FramePickFindsOwner | src/laserPointer.ts:196-200 | with distinct ids, hitting a frame's boundary picks exactly that frame |
| Laser.NormalizedCoordShape | src/laserPointer.ts:233-236 | 0, half the size and the size map to -1, 0 and 1, and the map is strictly increasing |
| Laser.NormalizedCoordRoundTrip | src/laserPointer.ts:233-236 | normalising and mapping back are inverse to each other |
| Laser.AimOf | src/laserPointer.ts:178-298 | a teleport point exists iff the ray hits ground, and it is the hit point. A miss, a ground or prop hit or an empty list keep the picked frame. Any other hit, with frames present, picks a frame owning the hit mesh, or none iff no frame owns it. With a hit and a frame, the coordinates are the normalised hit coordinates along the frame's width and height; otherwise they are 0. A mesh is picked iff there is a hit, a frame and a camera ray that hit a mesh, and it is that mesh |
| Laser.TriggerStep | src/laserPointer.ts:304-329 | no edge does nothing. A press teleports iff there is a teleport point, and to that point. Otherwise it grabs iff a mesh is aimed, and it grabs that mesh; with nothing aimed it does nothing. A release drops |
| Laser.DropIdempotent | src/laserPointer.ts:360-381 | dropping twice is dropping once, and leaves nothing selected |
| Laser.PickupDropRoundTrip | src/laserPointer.ts:360-420 | a pick-up while holding is ignored. Picking up selects and highlights the mesh. Dropping it again leaves nothing selected and puts back the parents (when the mesh had one recorded). It removes the mesh's highlight and clears the pick-time parent and the spring's start |
| Laser.LostSelectionRestored | src/laserPointer.ts:166-334 | an object that stops being selected during a tick is back under its pick-time parent and no longer highlighted, whichever path dropped it |
| Laser.SelectionOnlyThroughFrame | src/laserPointer.ts:166-334 | a newly selected object comes only from an active laser, a hit, a picked frame and the frame camera's ray. An inactive laser, a miss or a missing frame leave nothing selected. A press with an aimed mesh and no teleport point always ends with that mesh selected |
| Laser.Teleported | src/laserPointer.ts:422-427 | teleport keeps the camera's height and takes x and z from the hit point |
| Laser.SnapTurn | src/laserPointer.ts:337-350 | a turn is 0 or plus/minus 30 degrees, with the stick's sign; it fires iff the stick is past 0.5 and armed, and then disarms; without a turn the stick is armed iff it was armed or is inside 0.2 |
| Laser.OneTurnPerDeflection | src/laserPointer.ts:339-349 | a deflection that never returns inside the dead zone fires at most one turn, and none if the stick was not armed |
| Laser.DistToPlane | src/laserPointer.ts:527-551 | the distance is non-negative and is 10000 for a zero normal |
| Laser.DistIsProjection | src/laserPointer.ts:534-547 | for a non-zero normal the plane-equation form equals the projection on the normal over its length; points on the plane are at distance 0 |
| Laser.SpringDisplacement | src/laserPointer.ts:509-518 | zero inside the 0.08 dead zone; outside it, the deviation shrunk by 0.08 with the deviation's sign; never larger than the deviation |
| Laser.SpringShape | src/laserPointer.ts:509-518 | continuous at the dead zone's edge, monotone, and changes no faster than the distance |
| Laser.SpringPullsBack | src/laserPointer.ts:520-524 | the step along the view is springK * x * dt: pulling away beyond the dead zone moves the object back, pushing in moves it out |
| Laser.TranslationAtRest | src/laserPointer.ts:453-466 | with the hit point back at its pick-time coordinates the object sits exactly at its initial position |
| Laser.TranslationKeepsDepth | src/laserPointer.ts:453-466 | with up and right orthogonal to the view, dragging never changes the object's depth along the frame camera's view |
| Laser.LaserPointer.constructor | src/laserPointer.ts:53-89 | laser off and disabled, stick armed, nothing picked, spring reset |
| Laser.LaserPointer.Drop | src/laserPointer.ts:360-381 | the selection state becomes Dropped of the old one: with nothing selected nothing changes; otherwise the object goes back to its pick-time parent and loses its highlight, nothing is selected, and the spring state is reset |
| Laser.LaserPointer.Pickup | src/laserPointer.ts:385-420 | the selection state becomes PickedUp of the old one: no effect if something is selected; otherwise the mesh is selected and highlighted, its parent remembered, and with a frame picked the spring starts from the controller's distance to the frame's plane |
| Laser.LaserPointer.Teleport | src/laserPointer.ts:422-427 | the camera moves to the point at its own height and the laser's latch is off |
| Laser.LaserPointer.ScanFrames | src/laserPointer.ts:196-204 | the loop that clears the pick on each non-matching frame computes exactly the frame pick |
| Laser.LaserPointer.Target | src/laserPointer.ts:166-298 | the outcome of aiming is the aim function's. The picked frame is updated. The laser is green iff it hits, and as long as the hit distance or 100. The normalised coordinates are stored only with a hit and a frame. On a miss or without a frame the selection is dropped, with Drop's effects, and otherwise the selection state is unchanged |
| Laser.LaserPointer.HandleTrigger | src/laserPointer.ts:304-329 | the selection state, camera and latch change as the trigger action says: a grab drops then picks up, a release drops. A grab stores the pick-time coordinates and the mesh's position; any other action leaves them unchanged |
| Laser.LaserPointer.SnapTurnStep | src/laserPointer.ts:337-350 | the stick state and the camera's yaw change as the snap turn says |
| Laser.LaserPointer.Activate | src/laserPointer.ts:153-164 | the laser and its mesh follow the latch |
| Laser.LaserPointer.Point | src/laserPointer.ts:166-334 | every modified field as the pointing step says. An inactive laser only drops. An active one sets colour and length from the hit, re-targets the frame, and stores the normalised coordinates on a frame hit. It then applies the trigger action to the selection state (TickHolding), the camera, the latch and the pick-time coordinates |
| Laser.LaserPointer.ProcessController | src/laserPointer.ts:138-352 | without the right controller nothing changes. Otherwise the laser mesh follows the latch, the pointing step runs with the latched state, and the stick state and yaw follow the snap turn. An object stays selected only with a picked frame |
| Laser.LaserPointer.UpdateDepth | src/laserPointer.ts:471-525 | with nothing selected the spring is hidden and keeps its colour; otherwise it is shown, red iff inside the dead zone, and the object moves by the spring step |
| Laser.LaserPointer.UpdateTranslation | src/laserPointer.ts:437-469 | the selected object is placed at the translated position, scaled to the frame camera's frustum at the object's depth |
| Laser.LaserPointer.Update | src/laserPointer.ts:429-435 | the spring step happens first and the drag is applied to its result; the spring is shown iff something is selected, and red iff inside the dead zone |

## Left out

- `removeFrame`, `reset` and the game's frame list are used, but their definitions are not
  part of this model. The two calls are recorded as events on the game, and the frame list
  is never shrunk.
- `src/permaFrame.ts` is not part of this model. A committed frame is a record of its id
  and size.
- Rendering and the scene graph are not modelled: materials beyond a red/green flag,
  bounding boxes, line meshes, the frame-camera laser (never made visible), normals,
  scaling and `setParent` beyond the recorded parent maps.
- Ray picking and its filter, `frame.intersects`, `normalize`, `length`, `sqrt`,
  `tan`/`atan`, rotation matrices and world transforms are engine computations. Their
  results are inputs.
  - The plane's normal length is constrained only by `sqrt(0) = 0` and `sqrt(x) > 0` for
    `x > 0`.
  - The frame-camera ray's direction (field of view, `Matrix.RotationAxis`) is not modelled.
    Only that ray's result is an input.
- Floating point is not modelled: all arithmetic is over exact reals.
- Physics impostor `sleep`/`wakeUp` and `getDeltaTime` are external simulation. The time
  step is an input.
- Camera rotation is an accumulated yaw in degrees, not a quaternion.
- `selectedInitPos` is a value: the world position of the mesh at pick time. In
  `laserPointer.ts` it is an alias of the picked mesh's position vector until the first
  `updateTranslation` assigns a new one. So the `setParent` calls and the depth step's
  in-place add in between, which act on that shared vector, are not modelled.
- Controllers with a missing motion-controller component are not modelled. Every
  component is present, and the stick reads 0 when at rest.
- A primary hit without a picked point is not modelled: every hit carries its point.
- A missing headset camera (`xrCamera` null) is not modelled.
- `game.leftController!` and `game.rightController!` are read in `updateLeft` and
  `updateRight`. Attaching to "the pointer" is recorded without checking that the
  controller exists.
- `hands.loadAssets`, asset callbacks other than the model-slot fill, controller
  add/remove handlers and logging are not modelled.
- `src/index.ts`, `src/testbed.ts`, `src/world.ts` and `src/pfModule.ts` are not part of
  this model.
- The preview's material is null before assets load. Construction and asset loading are
  merged, so the preview starts hidden and red.
- HandGrab.SqueezeHand: frames are compared by record equality, not by object identity.
  With distinct ids the two agree.
