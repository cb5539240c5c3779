/** The game object the interaction modules share. Its frame list, selected
    object, `removeFrame` and `reset` are used by the modules but defined
    elsewhere; here they are a small class whose calls to `removeFrame` and
    `reset` are recorded as events. */
module GameState {
  import opened Basics

  /** A scene mesh, or the invisible boundary mesh of the frame with that id. */
  datatype MeshRef = Boundary(frameId: nat) | SceneMesh(n: nat)

  /** A committed picture frame: its identity and the size it was built with. */
  datatype PermaFrame = PermaFrame(id: nat, width: real, height: real)

  /** What a frame mesh is attached to. */
  datatype FrameParent = Detached | LeftPointer | RightPointer

  datatype GameEvent = FrameRemoved(frame: PermaFrame) | ResetRequested

  function BoundaryOf(f: PermaFrame): MeshRef { Boundary(f.id) }

  class Game {
    var frames: seq<PermaFrame>
    var nextId: nat
    var events: seq<GameEvent>
    var selectedObject: Option<MeshRef>
    var groundMeshes: set<MeshRef>
    var propMeshes: set<MeshRef>
    /** Parent of each scene mesh that has one recorded. */
    var meshParent: map<MeshRef, Option<MeshRef>>
    /** World position written to a mesh. */
    var meshPosition: map<MeshRef, Vec3>
    /** Meshes with edge highlighting enabled. */
    var highlighted: set<MeshRef>
    /** Whether a frame (by id) shows its delete-warning texture. */
    var deleteTexture: map<nat, bool>
    var frameParent: map<nat, FrameParent>
    var cameraPosition: Vec3
    /** Accumulated snap-turn rotation of the headset rig, in degrees. */
    var cameraYaw: int

    /** Frames have distinct ids below `nextId` and a positive size. */
    ghost predicate Valid()
      reads this
    {
      && (forall i :: 0 <= i < |frames| ==>
            frames[i].id < nextId && frames[i].width > 0.0 && frames[i].height > 0.0)
      && (forall i, j :: 0 <= i < j < |frames| ==> frames[i].id != frames[j].id)
    }

    constructor (ground: set<MeshRef>, props: set<MeshRef>, camera: Vec3)
      ensures Valid()
      ensures frames == [] && events == [] && selectedObject == None
      ensures groundMeshes == ground && propMeshes == props && cameraPosition == camera
      ensures meshParent == map[] && meshPosition == map[] && highlighted == {}
      ensures deleteTexture == map[] && frameParent == map[] && cameraYaw == 0
    {
      frames, nextId, events, selectedObject := [], 0, [], None;
      groundMeshes, propMeshes := ground, props;
      meshParent, meshPosition, highlighted := map[], map[], {};
      deleteTexture, frameParent := map[], map[];
      cameraPosition, cameraYaw := camera, 0;
    }

    /** Creates a frame of the given size and appends it to the frame list. */
    method AddFrame(width: real, height: real) returns (f: PermaFrame)
      requires Valid() && width > 0.0 && height > 0.0
      modifies this`frames, this`nextId
      ensures Valid()
      ensures f == PermaFrame(old(nextId), width, height)
      ensures frames == old(frames) + [f] && nextId == old(nextId) + 1
      ensures forall g :: g in old(frames) ==> g.id != f.id
    {
      f := PermaFrame(nextId, width, height);
      frames := frames + [f];
      nextId := nextId + 1;
    }

    /** Records a request to remove a frame. */
    method RemoveFrame(f: PermaFrame)
      modifies this`events
      ensures events == old(events) + [FrameRemoved(f)]
    {
      events := events + [FrameRemoved(f)];
    }

    /** Records a request to reset the game. */
    method Reset()
      modifies this`events
      ensures events == old(events) + [ResetRequested]
    {
      events := events + [ResetRequested];
    }
  }
}
