/**
  * The export operator of the bone tracer: it samples every selected pose bone
  * and every selected empty at every frame of a range, projects each point
  * through the scene camera to a pixel, and puts the host's current frame and
  * active object back afterwards.
  *
  * The host (Blender) is split in two. Its mutable state, the current frame, the
  * active object and the interaction mode, lives in the class `Host`. Everything
  * the operator only reads is the datatype `Scene`; the host's per-frame lookups
  * in it are functions that take the frame as an explicit argument.
  */
module Tracer {
  import opened Wrappers
  import opened Geometry
  import opened Pixels
  import opened Selection

  /** The `min=1` bound of the add-on's integer properties. */
  type Positive = n: int | n >= 1 witness 1

  /** `bone_point`: which point of a bone is traced. */
  datatype BonePoint = Head | Tail | Center

  /** The add-on's properties (`BoneTracerProperties`); `output_path` is left out with the file. */
  datatype Props = Props(
    resolutionX: Positive,
    resolutionY: Positive,
    useRenderResolution: bool,
    bonePoint: BonePoint,
    frameStart: Positive,
    frameEnd: Positive,
    useSceneFrameRange: bool)

  /** A traced entity: a pose bone of an armature, or an empty, by name. */
  datatype Entity = BoneEntity(armature: string, bone: string) | EmptyEntity(name: string)

  /**
    * What the operator reads from the host.
    * - `poseHead` / `poseTail`: `pose_bone.head` / `.tail` in armature space, per frame;
    * - `matrixWorld`: an object's `matrix_world`, per frame;
    * - `cameraView`: `world_to_camera_view(scene, camera, point)` at a frame;
    * - `raises`: whether the host raises an exception while the operator samples
    *   that entity at that frame (after `frame_set` to it).
    */
  datatype Scene = Scene(
    camera: Option<string>,
    renderResolutionX: Positive,
    renderResolutionY: Positive,
    frameStart: int,
    frameEnd: int,
    selectedObjects: seq<SceneObject>,
    poseHead: (string, string, int) -> Vec3,
    poseTail: (string, string, int) -> Vec3,
    matrixWorld: (string, int) -> Matrix,
    cameraView: (string, int, Vec3) -> Vec3,
    raises: (Entity, int) -> bool)

  /** The settings one export runs with. */
  datatype Config = Config(resX: Positive, resY: Positive, frameStart: int, frameEnd: int, bonePoint: BonePoint)

  /** Resolution and frame range, each from the scene or from the properties. */
  function ChooseConfig(scene: Scene, props: Props): (c: Config)
    ensures props.useRenderResolution ==>
              c.resX == scene.renderResolutionX && c.resY == scene.renderResolutionY
    ensures !props.useRenderResolution ==>
              c.resX == props.resolutionX && c.resY == props.resolutionY
    ensures props.useSceneFrameRange ==>
              c.frameStart == scene.frameStart && c.frameEnd == scene.frameEnd
    ensures !props.useSceneFrameRange ==>
              c.frameStart == props.frameStart && c.frameEnd == props.frameEnd
    ensures c.bonePoint == props.bonePoint
  {
    var (resX, resY) :=
      if props.useRenderResolution then (scene.renderResolutionX, scene.renderResolutionY)
      else (props.resolutionX, props.resolutionY);
    var (start, end) :=
      if props.useSceneFrameRange then (scene.frameStart, scene.frameEnd)
      else (props.frameStart as int, props.frameEnd as int);
    Config(resX, resY, start, end, props.bonePoint)
  }

  // ---------------------------------------------------------------------------
  // Sampling one entity at one frame

  /** The bone point in armature space: head, tail, or (head + tail) / 2 otherwise. */
  function BonePosition(point: BonePoint, head: Vec3, tail: Vec3): Vec3 {
    if point == Head then head
    else if point == Tail then tail
    else Midpoint(head, tail)
  }

  /** The world-space point traced for an entity at a frame. */
  function WorldPosition(scene: Scene, point: BonePoint, e: Entity, frame: int): Vec3 {
    match e
    case BoneEntity(arm, bone) =>
      Transform(scene.matrixWorld(arm, frame),
                BonePosition(point, scene.poseHead(arm, bone, frame), scene.poseTail(arm, bone, frame)))
    case EmptyEntity(name) =>
      Translation(scene.matrixWorld(name, frame))
  }

  /** The pixel of an entity at a frame, through the camera named `camera`. */
  function Sample(scene: Scene, camera: string, cfg: Config, e: Entity, frame: int): Pixel {
    var v := scene.cameraView(camera, frame, WorldPosition(scene, cfg.bonePoint, e, frame));
    ToPixel(v.x, v.y, cfg.resX, cfg.resY)
  }

  /** The length of `range(start, end + 1)`. */
  function FrameCount(start: int, end: int): nat {
    if end < start then 0 else end - start + 1
  }

  /** An entity's pixels for the frames `cfg.frameStart` to `upTo`, in ascending frame order. */
  function TraceOf(scene: Scene, camera: string, cfg: Config, e: Entity, upTo: int): (t: seq<Pixel>)
    ensures |t| == FrameCount(cfg.frameStart, upTo)
    ensures forall i :: 0 <= i < |t| ==> t[i] == Sample(scene, camera, cfg, e, cfg.frameStart + i)
    decreases upTo - cfg.frameStart
  {
    if upTo < cfg.frameStart then []
    else TraceOf(scene, camera, cfg, e, upTo - 1) + [Sample(scene, camera, cfg, e, upTo)]
  }

  /** The host raises while the entity is sampled at some frame of the range. */
  predicate Faults(scene: Scene, e: Entity, start: int, end: int) {
    exists f :: start <= f <= end && scene.raises(e, f)
  }

  predicate AnyFault(scene: Scene, ents: seq<Entity>, start: int, end: int) {
    exists k :: 0 <= k < |ents| && Faults(scene, ents[k], start, end)
  }

  /** `frame` is the first frame from `start` on at which the host raises while sampling `e`. */
  predicate FirstFault(scene: Scene, e: Entity, start: int, frame: int) {
    start <= frame && scene.raises(e, frame) && forall f :: start <= f < frame ==> !scene.raises(e, f)
  }

  /** The full trace of every entity, in entity order. */
  function Traces(scene: Scene, camera: string, cfg: Config, ents: seq<Entity>): (ts: seq<seq<Pixel>>)
    ensures |ts| == |ents|
    ensures forall k :: 0 <= k < |ts| ==> ts[k] == TraceOf(scene, camera, cfg, ents[k], cfg.frameEnd)
  {
    if ents == [] then []
    else
      var n := |ents| - 1;
      Traces(scene, camera, cfg, ents[..n]) + [TraceOf(scene, camera, cfg, ents[n], cfg.frameEnd)]
  }

  // ---------------------------------------------------------------------------
  // The entities of one export

  function BoneEntityOf(arms: seq<SceneObject>, s: Slot): Entity
    requires IsSelectedSlot(arms, s)
  {
    BoneEntity(arms[s.arm].name, arms[s.arm].poseBones[s.bone].name)
  }

  /** The selected bones, in the order of `slots`. */
  function BoneEntities(arms: seq<SceneObject>, slots: seq<Slot>): seq<Entity>
    requires forall s :: s in slots ==> IsSelectedSlot(arms, s)
  {
    seq(|slots|, k requires 0 <= k < |slots| => BoneEntityOf(arms, slots[k]))
  }

  /** The selected empties, in selection order. */
  function EmptyEntities(empties: seq<SceneObject>): seq<Entity> {
    seq(|empties|, j requires 0 <= j < |empties| => EmptyEntity(empties[j].name))
  }

  /** Bones first, by armature and then pose-bone order; then the empties, in selection order. */
  function Entities(arms: seq<SceneObject>, slots: seq<Slot>, empties: seq<SceneObject>): seq<Entity>
    requires forall s :: s in slots ==> IsSelectedSlot(arms, s)
  {
    BoneEntities(arms, slots) + EmptyEntities(empties)
  }

  /**
    * Every traced entity is a selected pose bone of a selected armature, or a
    * selected empty; the bones all come before the empties.
    */
  lemma EntitiesAreSelected(arms: seq<SceneObject>, slots: seq<Slot>, empties: seq<SceneObject>)
    requires forall s :: s in slots ==> IsSelectedSlot(arms, s)
    ensures |Entities(arms, slots, empties)| == |slots| + |empties|
    ensures forall k :: 0 <= k < |slots| ==>
              var e := Entities(arms, slots, empties)[k];
              e.BoneEntity? &&
              exists a, b :: a in arms && b in a.poseBones && b.selected && e == BoneEntity(a.name, b.name)
    ensures forall k :: |slots| <= k < |slots| + |empties| ==>
              var e := Entities(arms, slots, empties)[k];
              e.EmptyEntity? && exists o :: o in empties && e == EmptyEntity(o.name)
  {
    var ents := Entities(arms, slots, empties);
    forall k | 0 <= k < |slots|
      ensures exists a, b :: a in arms && b in a.poseBones && b.selected && ents[k] == BoneEntity(a.name, b.name)
    {
      assert slots[k] in slots;
      var a := arms[slots[k].arm];
      var b := a.poseBones[slots[k].bone];
      assert ents[k] == BoneEntity(a.name, b.name);
    }
    forall k | |slots| <= k < |slots| + |empties|
      ensures exists o :: o in empties && ents[k] == EmptyEntity(o.name)
    {
      assert ents[k] == EmptyEntity(empties[k - |slots|].name);
    }
  }

  /** Tracing two lists of entities one after the other traces their concatenation. */
  lemma {:induction false} TracesAppend(scene: Scene, camera: string, cfg: Config, xs: seq<Entity>, ys: seq<Entity>)
    ensures Traces(scene, camera, cfg, xs + ys) == Traces(scene, camera, cfg, xs) + Traces(scene, camera, cfg, ys)
  {
    var l, r := Traces(scene, camera, cfg, xs + ys), Traces(scene, camera, cfg, xs) + Traces(scene, camera, cfg, ys);
    assert |l| == |r|;
    forall k | 0 <= k < |l| ensures l[k] == r[k] {
      if k < |xs| {
        assert (xs + ys)[k] == xs[k];
      } else {
        assert (xs + ys)[k] == ys[k - |xs|];
      }
    }
  }

  lemma AnyFaultAppend(scene: Scene, xs: seq<Entity>, ys: seq<Entity>, start: int, end: int)
    ensures AnyFault(scene, xs + ys, start, end) <==> AnyFault(scene, xs, start, end) || AnyFault(scene, ys, start, end)
  {
    if AnyFault(scene, xs + ys, start, end) {
      var k :| 0 <= k < |xs + ys| && Faults(scene, (xs + ys)[k], start, end);
      if k < |xs| {
        assert (xs + ys)[k] == xs[k];
      } else {
        assert (xs + ys)[k] == ys[k - |xs|];
      }
    }
    if AnyFault(scene, ys, start, end) {
      var k :| 0 <= k < |ys| && Faults(scene, ys[k], start, end);
      assert (xs + ys)[|xs| + k] == ys[k];
    }
    if AnyFault(scene, xs, start, end) {
      var k :| 0 <= k < |xs| && Faults(scene, xs[k], start, end);
      assert (xs + ys)[k] == xs[k];
    }
  }

  // ---------------------------------------------------------------------------
  // The effect of one export

  /** `context.mode`, as far as the operator looks at it. */
  datatype Mode = ObjectMode | PoseMode | EditMode | OtherMode(name: string)

  /** The host state the operator changes. */
  datatype HostState = HostState(frame: int, active: Option<string>, mode: Mode)

  datatype CancelReason = NoCamera | NoObjectsSelected | NoEntitiesSelected | WriteFailed

  /** The numbers in the success report: traces, objects, frames each. */
  datatype Report = Report(traces: int, objects: int, framesEach: int)

  /**
    * `{'CANCELLED'}`, `{'FINISHED'}` with the traces written and the report, or an
    * exception propagating out of the operator.
    */
  datatype Outcome = Cancelled(reason: CancelReason) | Finished(traces: seq<seq<Pixel>>, report: Report) | Raised

  datatype Run = Run(outcome: Outcome, post: HostState)

  /**
    * One export from host state `pre`; `writeOk` says whether writing the output
    * file succeeds.
    */
  function Export(scene: Scene, props: Props, pre: HostState, writeOk: bool): Run {
    if scene.camera.None? then Run(Cancelled(NoCamera), pre)
    else
      var camera := scene.camera.value;
      var cfg := ChooseConfig(scene, props);
      var arms := OfKind(scene.selectedObjects, Armature);
      var empties := OfKind(scene.selectedObjects, Empty);
      if arms == [] && empties == [] then Run(Cancelled(NoObjectsSelected), pre)
      else ExportSelection(scene, camera, cfg, arms, empties, pre, writeOk)
  }

  /** An export from the armature loop on, given the camera and the selected armatures and empties. */
  function ExportSelection(scene: Scene, camera: string, cfg: Config, arms: seq<SceneObject>,
                           empties: seq<SceneObject>, pre: HostState, writeOk: bool): Run
  {
    // each armature in turn is made active and pose mode entered
    var selecting := if arms == [] then pre else pre.(active := Some(arms[|arms| - 1].name), mode := PoseMode);
    var slots := BoneSlots(arms);
    if slots == [] && empties == [] then Run(Cancelled(NoEntitiesSelected), selecting)
    else
      // the finally clause puts the frame and the active object back
      Finish(scene, camera, cfg, Entities(arms, slots, empties), |arms| + |empties|,
             selecting.(active := pre.active), writeOk)
  }

  /** The tracing, the file write and the report, once every guard has passed. */
  function Finish(scene: Scene, camera: string, cfg: Config, ents: seq<Entity>, objects: int,
                  restored: HostState, writeOk: bool): Run
  {
    if AnyFault(scene, ents, cfg.frameStart, cfg.frameEnd) then Run(Raised, restored)
    else if !writeOk then Run(Cancelled(WriteFailed), restored)
    else
      var traces := Traces(scene, camera, cfg, ents);
      Run(Finished(traces, Report(|traces|, objects, cfg.frameEnd - cfg.frameStart + 1)), restored)
  }

  // ---------------------------------------------------------------------------
  // The operator, step by step, on the host's mutable state

  class Host {
    var currentFrame: int
    var activeObject: Option<string>
    var mode: Mode

    constructor (frame: int, active: Option<string>, m: Mode)
      ensures State() == HostState(frame, active, m)
    {
      currentFrame, activeObject, mode := frame, active, m;
    }

    function State(): HostState
      reads this
    {
      HostState(currentFrame, activeObject, mode)
    }

    /** `context.scene.frame_set(frame)`. */
    method FrameSet(frame: int)
      modifies this`currentFrame
      ensures currentFrame == frame
    {
      currentFrame := frame;
    }

    /** `bpy.ops.object.mode_set(mode='POSE')`. */
    method ModeSetPose()
      modifies this`mode
      ensures mode == PoseMode
    {
      mode := PoseMode;
    }

    /**
      * The per-frame loop of the operator for one entity: step the frame, sample,
      * append. `raised` reports an exception from the host, which ends the loop.
      */
    method TraceEntity(scene: Scene, camera: string, cfg: Config, e: Entity) returns (trace: seq<Pixel>, raised: bool)
      modifies this`currentFrame
      ensures raised == Faults(scene, e, cfg.frameStart, cfg.frameEnd)
      ensures !raised ==> trace == TraceOf(scene, camera, cfg, e, cfg.frameEnd)
      ensures cfg.frameEnd < cfg.frameStart ==> currentFrame == old(currentFrame)
      ensures !raised && cfg.frameStart <= cfg.frameEnd ==> currentFrame == cfg.frameEnd
      ensures raised ==> FirstFault(scene, e, cfg.frameStart, currentFrame) && currentFrame <= cfg.frameEnd
    {
      trace, raised := [], false;
      var frame := cfg.frameStart;
      while frame <= cfg.frameEnd
        invariant cfg.frameStart <= frame
        invariant frame <= cfg.frameEnd + 1 || frame == cfg.frameStart
        invariant trace == TraceOf(scene, camera, cfg, e, frame - 1)
        invariant forall f :: cfg.frameStart <= f < frame ==> !scene.raises(e, f)
        invariant frame == cfg.frameStart ==> currentFrame == old(currentFrame)
        invariant frame > cfg.frameStart ==> currentFrame == frame - 1
        decreases cfg.frameEnd + 1 - frame
      {
        FrameSet(frame);
        if scene.raises(e, currentFrame) {
          raised := true;
          return;
        }
        trace := trace + [Sample(scene, camera, cfg, e, currentFrame)];
        frame := frame + 1;
      }
    }

    /**
      * Over a list of entities, trace each in turn; the first exception from the
      * host ends the loop.
      */
    method TraceEntities(scene: Scene, camera: string, cfg: Config, ents: seq<Entity>) returns (traces: seq<seq<Pixel>>, raised: bool)
      modifies this`currentFrame
      ensures raised == AnyFault(scene, ents, cfg.frameStart, cfg.frameEnd)
      ensures !raised ==> traces == Traces(scene, camera, cfg, ents)
      ensures ents == [] || cfg.frameEnd < cfg.frameStart ==> currentFrame == old(currentFrame)
      ensures !raised && ents != [] && cfg.frameStart <= cfg.frameEnd ==> currentFrame == cfg.frameEnd
      ensures raised ==>
                exists k :: (0 <= k < |ents| && FirstFault(scene, ents[k], cfg.frameStart, currentFrame) &&
                             currentFrame <= cfg.frameEnd &&
                             forall i :: 0 <= i < k ==> !Faults(scene, ents[i], cfg.frameStart, cfg.frameEnd))
    {
      traces, raised := [], false;
      var k := 0;
      while k < |ents|
        invariant 0 <= k <= |ents|
        invariant traces == Traces(scene, camera, cfg, ents[..k])
        invariant forall i :: 0 <= i < k ==> !Faults(scene, ents[i], cfg.frameStart, cfg.frameEnd)
        invariant k == 0 || cfg.frameEnd < cfg.frameStart ==> currentFrame == old(currentFrame)
        invariant k > 0 && cfg.frameStart <= cfg.frameEnd ==> currentFrame == cfg.frameEnd
      {
        var trace, r := TraceEntity(scene, camera, cfg, ents[k]);
        if r {
          raised := true;
          return;
        }
        assert ents[..k + 1][..k] == ents[..k];
        traces := traces + [trace];
        k := k + 1;
      }
      assert ents[..k] == ents;
    }

    /**
      * The armature loop of the operator: make each armature active, enter pose
      * mode if not in it, and collect its selected pose bones.
      */
    method CollectBones(arms: seq<SceneObject>) returns (selected: seq<Slot>)
      modifies this`activeObject, this`mode
      ensures selected == BoneSlots(arms)
      ensures activeObject == if arms == [] then old(activeObject) else Some(arms[|arms| - 1].name)
      ensures mode == if arms == [] then old(mode) else PoseMode
    {
      selected := [];
      var a := 0;
      while a < |arms|
        invariant 0 <= a <= |arms|
        invariant selected == BoneSlots(arms[..a])
        invariant activeObject == if a == 0 then old(activeObject) else Some(arms[a - 1].name)
        invariant mode == if a == 0 then old(mode) else PoseMode
      {
        activeObject := Some(arms[a].name);
        if mode != PoseMode {
          ModeSetPose();
        }
        var bones := arms[a].poseBones;
        var b := 0;
        while b < |bones|
          invariant 0 <= b <= |bones|
          invariant selected == BoneSlots(arms[..a]) + SlotsIn(a, bones, b)
        {
          if bones[b].selected {
            selected := selected + [Slot(a, b)];
          }
          b := b + 1;
        }
        assert arms[..a + 1][..a] == arms[..a];
        a := a + 1;
      }
      assert arms[..a] == arms;
    }

    /** `BONE_TRACER_OT_export.execute`. */
    method Execute(scene: Scene, props: Props, writeOk: bool) returns (out: Outcome)
      modifies this
      ensures Run(out, State()) == Export(scene, props, old(State()), writeOk)
    {
      if scene.camera.None? {
        return Cancelled(NoCamera);
      }
      var camera := scene.camera.value;
      var cfg := ChooseConfig(scene, props);

      var arms := OfKind(scene.selectedObjects, Armature);
      var empties := OfKind(scene.selectedObjects, Empty);
      if arms == [] && empties == [] {
        return Cancelled(NoObjectsSelected);
      }
      out := ExecuteSelection(scene, camera, cfg, arms, empties, writeOk);
    }

    /**
      * The operator from the armature loop on: collect the selected bones (making
      * each armature active in pose mode), cancel if there is nothing to trace,
      * else trace and write.
      */
    method ExecuteSelection(scene: Scene, camera: string, cfg: Config, arms: seq<SceneObject>,
                            empties: seq<SceneObject>, writeOk: bool) returns (out: Outcome)
      modifies this
      ensures Run(out, State()) == ExportSelection(scene, camera, cfg, arms, empties, old(State()), writeOk)
    {
      var originalMode := mode;  // recorded, never restored
      var originalActive := activeObject;
      var selected := CollectBones(arms);
      if selected == [] && empties == [] {
        return Cancelled(NoEntitiesSelected);
      }
      out := TraceAndSave(scene, camera, cfg, BoneEntities(arms, selected), EmptyEntities(empties),
                          |arms| + |empties|, originalActive, writeOk);
    }

    /**
      * The `try`/`finally` of the operator and the file write after it: trace the
      * bones, then the empties; put the saved frame and `originalActive` back on
      * every exit; then write the file.
      */
    method TraceAndSave(scene: Scene, camera: string, cfg: Config, bones: seq<Entity>, empties: seq<Entity>,
                        objects: int, originalActive: Option<string>, writeOk: bool) returns (out: Outcome)
      modifies this`currentFrame, this`activeObject
      ensures Run(out, State()) == Finish(scene, camera, cfg, bones + empties, objects,
                                          old(State()).(active := originalActive), writeOk)
    {
      var savedFrame := currentFrame;
      // try:
      var traces, raised := TraceEntities(scene, camera, cfg, bones);
      if !raised {
        var more;
        more, raised := TraceEntities(scene, camera, cfg, empties);
        traces := traces + more;
      }
      AnyFaultAppend(scene, bones, empties, cfg.frameStart, cfg.frameEnd);
      if !raised {
        TracesAppend(scene, camera, cfg, bones, empties);
      }
      // finally:
      FrameSet(savedFrame);
      activeObject := originalActive;
      out := if raised then Raised
             else if !writeOk then Cancelled(WriteFailed)
             else Finished(traces, Report(|traces|, objects, cfg.frameEnd - cfg.frameStart + 1));
    }
  }
}
