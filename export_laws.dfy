/**
  * Laws of one export (`Tracer.Export`): the exits and what each leaves behind,
  * the number, order and length of the traces, the point traced for each entity,
  * the report, and running the export twice.
  */
module ExportLaws {
  import opened Wrappers
  import opened Geometry
  import opened Pixels
  import opened Selection
  import opened Tracer

  /** Some selected object has type `kind`. */
  predicate HasKind(scene: Scene, kind: ObjectKind) {
    KindPositions(scene.selectedObjects, kind) != {}
  }

  // ---------------------------------------------------------------------------
  // The exits before tracing

  /** Without a camera the export is cancelled and the host is left as it was. */
  lemma NoCameraCancelsUntouched(scene: Scene, props: Props, pre: HostState, writeOk: bool)
    requires scene.camera.None?
    ensures Export(scene, props, pre, writeOk) == Run(Cancelled(NoCamera), pre)
  {
  }

  /** With a camera but neither an armature nor an empty selected, it is cancelled and nothing changes. */
  lemma NothingSelectedCancelsUntouched(scene: Scene, props: Props, pre: HostState, writeOk: bool)
    requires scene.camera.Some?
    requires !HasKind(scene, Armature) && !HasKind(scene, Empty)
    ensures Export(scene, props, pre, writeOk) == Run(Cancelled(NoObjectsSelected), pre)
  {
    OfKindEmpty(scene.selectedObjects, Armature);
    OfKindEmpty(scene.selectedObjects, Empty);
  }

  /**
    * Armatures selected but none of their pose bones, and no empty: the export is
    * cancelled after the armature loop, leaving the last selected armature (the
    * one at position `last`) active and the host in pose mode; the frame is
    * untouched.
    */
  lemma NoBonesLeavesLastArmatureActive(scene: Scene, props: Props, pre: HostState, writeOk: bool, last: nat)
    requires scene.camera.Some?
    requires !HasKind(scene, Empty)
    requires last < |scene.selectedObjects| && scene.selectedObjects[last].kind == Armature
    requires forall j :: last < j < |scene.selectedObjects| ==> scene.selectedObjects[j].kind != Armature
    requires forall o, b :: o in scene.selectedObjects && o.kind == Armature && b in o.poseBones ==> !b.selected
    ensures Export(scene, props, pre, writeOk) ==
            Run(Cancelled(NoEntitiesSelected), HostState(pre.frame, Some(scene.selectedObjects[last].name), PoseMode))
  {
    var objs := scene.selectedObjects;
    var arms := OfKind(objs, Armature);
    OfKindEmpty(objs, Empty);
    OfKindLast(objs, Armature, last);
    forall i, j | 0 <= i < |arms| && 0 <= j < |arms[i].poseBones|
      ensures !arms[i].poseBones[j].selected
    {
      assert arms[i] in arms;
      assert arms[i].poseBones[j] in arms[i].poseBones;
    }
    assert SelectedPairs(arms) == {};
    BoneSlotsCount(arms);
  }

  /** The selection holds something to trace: a selected pose bone of a selected armature, or an empty. */
  predicate HasWork(scene: Scene) {
    SelectedPairs(OfKind(scene.selectedObjects, Armature)) != {} || HasKind(scene, Empty)
  }

  /** The entities an export traces: the selected bones, then the selected empties. */
  function ExportEntities(scene: Scene): seq<Entity> {
    var arms := OfKind(scene.selectedObjects, Armature);
    Entities(arms, BoneSlots(arms), OfKind(scene.selectedObjects, Empty))
  }

  /** How the selection decides between the guards and the tracing. */
  lemma SelectionFacts(scene: Scene)
    ensures BoneSlots(OfKind(scene.selectedObjects, Armature)) == [] <==>
            SelectedPairs(OfKind(scene.selectedObjects, Armature)) == {}
    ensures OfKind(scene.selectedObjects, Armature) == [] <==> !HasKind(scene, Armature)
    ensures OfKind(scene.selectedObjects, Empty) == [] <==> !HasKind(scene, Empty)
    ensures !HasKind(scene, Armature) ==> SelectedPairs(OfKind(scene.selectedObjects, Armature)) == {}
  {
    var arms := OfKind(scene.selectedObjects, Armature);
    BoneSlotsCount(arms);
    OfKindEmpty(scene.selectedObjects, Armature);
    OfKindEmpty(scene.selectedObjects, Empty);
  }

  /**
    * Each cancel happens exactly when its guard holds: no camera; a camera but
    * neither an armature nor an empty; armatures but no selected bone and no empty.
    */
  lemma CancelReasons(scene: Scene, props: Props, pre: HostState, writeOk: bool)
    ensures Export(scene, props, pre, writeOk).outcome == Cancelled(NoCamera) <==> scene.camera.None?
    ensures Export(scene, props, pre, writeOk).outcome == Cancelled(NoObjectsSelected) <==>
            scene.camera.Some? && !HasKind(scene, Armature) && !HasKind(scene, Empty)
    ensures Export(scene, props, pre, writeOk).outcome == Cancelled(NoEntitiesSelected) <==>
            scene.camera.Some? && HasKind(scene, Armature) && !HasWork(scene)
  {
    SelectionFacts(scene);
  }

  /**
    * An export finishes exactly when there is a camera and something to trace,
    * the host raises at no sampled frame, and the write succeeds.
    */
  lemma ExportFinishes(scene: Scene, props: Props, pre: HostState, writeOk: bool)
    ensures Export(scene, props, pre, writeOk).outcome.Finished? <==>
            scene.camera.Some? && HasWork(scene) && writeOk &&
            !AnyFault(scene, ExportEntities(scene), ChooseConfig(scene, props).frameStart, ChooseConfig(scene, props).frameEnd)
  {
    SelectionFacts(scene);
  }

  /**
    * The host's exception leaves the operator exactly when there is a camera and
    * something to trace, and some traced entity faults at a frame of the range.
    */
  lemma ExportRaises(scene: Scene, props: Props, pre: HostState, writeOk: bool)
    ensures Export(scene, props, pre, writeOk).outcome.Raised? <==>
            scene.camera.Some? && HasWork(scene) &&
            AnyFault(scene, ExportEntities(scene), ChooseConfig(scene, props).frameStart, ChooseConfig(scene, props).frameEnd)
  {
    SelectionFacts(scene);
  }

  // ---------------------------------------------------------------------------
  // What every exit leaves behind

  /** No exit moves the current frame: it is put back whenever tracing moved it. */
  lemma FrameAlwaysRestored(scene: Scene, props: Props, pre: HostState, writeOk: bool)
    ensures Export(scene, props, pre, writeOk).post.frame == pre.frame
  {
  }

  /**
    * Once tracing has started, the active object is put back on every exit:
    * an exception from the host, a failed write, or success.
    */
  lemma ActiveRestoredOnceTracing(scene: Scene, props: Props, pre: HostState, writeOk: bool)
    requires var o := Export(scene, props, pre, writeOk).outcome;
             o.Raised? || o.Finished? || o == Cancelled(WriteFailed)
    ensures Export(scene, props, pre, writeOk).post == pre.(mode := Export(scene, props, pre, writeOk).post.mode)
  {
  }

  /**
    * The mode is never put back: past the camera check, any selected armature
    * leaves the host in pose mode, whatever the exit.
    */
  lemma ModeLeftInPose(scene: Scene, props: Props, pre: HostState, writeOk: bool)
    ensures Export(scene, props, pre, writeOk).post.mode ==
            if scene.camera.Some? && HasKind(scene, Armature) then PoseMode else pre.mode
  {
    OfKindEmpty(scene.selectedObjects, Armature);
    OfKindEmpty(scene.selectedObjects, Empty);
  }

  /**
    * The file is written after the restoration: whether the write fails changes
    * only the outcome, and a failed write cancels where a good one finishes.
    */
  lemma WriteFailureOnlyCancels(scene: Scene, props: Props, pre: HostState)
    ensures Export(scene, props, pre, false).post == Export(scene, props, pre, true).post
    ensures Export(scene, props, pre, true).outcome.Finished? <==>
            Export(scene, props, pre, false).outcome == Cancelled(WriteFailed)
    ensures !Export(scene, props, pre, true).outcome.Finished? ==>
            Export(scene, props, pre, false).outcome == Export(scene, props, pre, true).outcome
    ensures !Export(scene, props, pre, false).outcome.Finished?
  {
  }

  // ---------------------------------------------------------------------------
  // The traces of a finished export

  /** One trace per selected pose bone over all selected armatures, plus one per selected empty. */
  lemma TraceCount(scene: Scene, props: Props, pre: HostState, writeOk: bool)
    requires Export(scene, props, pre, writeOk).outcome.Finished?
    ensures |Export(scene, props, pre, writeOk).outcome.traces| ==
            |SelectedPairs(OfKind(scene.selectedObjects, Armature))| + |KindPositions(scene.selectedObjects, Empty)|
  {
    BoneSlotsCount(OfKind(scene.selectedObjects, Armature));
    KindCount(scene.selectedObjects, Empty);
  }

  /** A finished export carries the traces of its entities. */
  lemma FinishedTraces(scene: Scene, props: Props, pre: HostState, writeOk: bool)
    requires Export(scene, props, pre, writeOk).outcome.Finished?
    ensures scene.camera.Some? && writeOk
    ensures var arms := OfKind(scene.selectedObjects, Armature);
            Export(scene, props, pre, writeOk).outcome.traces ==
            Traces(scene, scene.camera.value, ChooseConfig(scene, props),
                   Entities(arms, BoneSlots(arms), OfKind(scene.selectedObjects, Empty)))
  {
  }

  /**
    * `traces` holds first the traces of the bones of `slots`, in that order, and
    * then those of `empties`, in that order.
    */
  predicate LaidOut(traces: seq<seq<Pixel>>, scene: Scene, camera: string, cfg: Config,
                    arms: seq<SceneObject>, slots: seq<Slot>, empties: seq<SceneObject>)
    requires forall s :: s in slots ==> IsSelectedSlot(arms, s)
  {
    |traces| == |slots| + |empties| &&
    (forall k :: 0 <= k < |slots| ==>
       traces[k] == TraceOf(scene, camera, cfg, BoneEntityOf(arms, slots[k]), cfg.frameEnd)) &&
    (forall j :: 0 <= j < |empties| ==>
       traces[|slots| + j] == TraceOf(scene, camera, cfg, EmptyEntity(empties[j].name), cfg.frameEnd))
  }

  lemma TracesOfEntities(scene: Scene, camera: string, cfg: Config,
                         arms: seq<SceneObject>, slots: seq<Slot>, empties: seq<SceneObject>)
    requires forall s :: s in slots ==> IsSelectedSlot(arms, s)
    ensures LaidOut(Traces(scene, camera, cfg, Entities(arms, slots, empties)), scene, camera, cfg, arms, slots, empties)
  {
    var ents := Entities(arms, slots, empties);
    forall k | 0 <= k < |slots| ensures ents[k] == BoneEntityOf(arms, slots[k]) {
      assert ents[k] == BoneEntities(arms, slots)[k];
    }
    forall j | 0 <= j < |empties| ensures ents[|slots| + j] == EmptyEntity(empties[j].name) {
      assert ents[|slots| + j] == EmptyEntities(empties)[j];
    }
  }

  /**
    * Bone traces come first, one per selected bone in the order of the selected
    * bones: armature order, then pose-bone order (see `BoneSlotsOrdered`); the
    * traces of the empties follow, in selection order.
    */
  lemma TraceOrder(scene: Scene, props: Props, pre: HostState, writeOk: bool)
    requires Export(scene, props, pre, writeOk).outcome.Finished?
    ensures scene.camera.Some?
    ensures LaidOut(Export(scene, props, pre, writeOk).outcome.traces, scene, scene.camera.value,
                    ChooseConfig(scene, props), OfKind(scene.selectedObjects, Armature),
                    BoneSlots(OfKind(scene.selectedObjects, Armature)), OfKind(scene.selectedObjects, Empty))
  {
    var arms := OfKind(scene.selectedObjects, Armature);
    FinishedTraces(scene, props, pre, writeOk);
    TracesOfEntities(scene, scene.camera.value, ChooseConfig(scene, props),
                     arms, BoneSlots(arms), OfKind(scene.selectedObjects, Empty));
  }

  /**
    * Every trace has one pixel per frame of `range(frame_start, frame_end + 1)`,
    * element i sampled at frame `frame_start + i`.
    */
  lemma TraceShape(scene: Scene, props: Props, pre: HostState, writeOk: bool, k: nat)
    requires Export(scene, props, pre, writeOk).outcome.Finished?
    requires k < |Export(scene, props, pre, writeOk).outcome.traces|
    ensures var cfg := ChooseConfig(scene, props);
            var arms := OfKind(scene.selectedObjects, Armature);
            var ents := Entities(arms, BoneSlots(arms), OfKind(scene.selectedObjects, Empty));
            var t := Export(scene, props, pre, writeOk).outcome.traces[k];
            k < |ents| &&
            |t| == (if cfg.frameEnd < cfg.frameStart then 0 else cfg.frameEnd - cfg.frameStart + 1) &&
            forall i :: 0 <= i < |t| ==> t[i] == Sample(scene, scene.camera.value, cfg, ents[k], cfg.frameStart + i)
  {
  }

  /**
    * A reversed frame range is not an error: nothing is sampled, so nothing can
    * raise, and a finished export has only empty traces, while its report gives
    * `frame_end - frame_start + 1`, a number below zero unless the range is one short.
    */
  lemma ReversedRangeGivesEmptyTraces(scene: Scene, props: Props, pre: HostState, writeOk: bool)
    requires ChooseConfig(scene, props).frameEnd < ChooseConfig(scene, props).frameStart
    ensures var o := Export(scene, props, pre, writeOk).outcome;
            !o.Raised? &&
            (o.Finished? ==> (forall k :: 0 <= k < |o.traces| ==> o.traces[k] == []) &&
                             o.report.framesEach <= 0)
  {
    var cfg := ChooseConfig(scene, props);
    forall e ensures !Faults(scene, e, cfg.frameStart, cfg.frameEnd) {
    }
  }

  /**
    * The report counts the traces, the selected armatures and empties, and
    * `frame_end - frame_start + 1` frames, which is each trace's length whenever
    * the range runs forwards.
    */
  lemma ReportMatchesTraces(scene: Scene, props: Props, pre: HostState, writeOk: bool)
    requires Export(scene, props, pre, writeOk).outcome.Finished?
    ensures var o := Export(scene, props, pre, writeOk).outcome;
            var cfg := ChooseConfig(scene, props);
            o.report.traces == |o.traces| &&
            o.report.objects == |KindPositions(scene.selectedObjects, Armature)| + |KindPositions(scene.selectedObjects, Empty)| &&
            o.report.framesEach == cfg.frameEnd - cfg.frameStart + 1 &&
            (cfg.frameStart <= cfg.frameEnd + 1 ==> forall k :: 0 <= k < |o.traces| ==> |o.traces[k]| == o.report.framesEach)
  {
    KindCount(scene.selectedObjects, Armature);
    KindCount(scene.selectedObjects, Empty);
  }

  // ---------------------------------------------------------------------------
  // The traced points and pixels

  /**
    * HEAD traces the head and TAIL the tail, both through the armature's world
    * matrix; CENTER traces the world point midway between those two.
    */
  lemma BonePointChoice(scene: Scene, arm: string, bone: string, frame: int)
    ensures var m := scene.matrixWorld(arm, frame);
            var head := Transform(m, scene.poseHead(arm, bone, frame));
            var tail := Transform(m, scene.poseTail(arm, bone, frame));
            WorldPosition(scene, Head, BoneEntity(arm, bone), frame) == head &&
            WorldPosition(scene, Tail, BoneEntity(arm, bone), frame) == tail &&
            WorldPosition(scene, Center, BoneEntity(arm, bone), frame) == Midpoint(head, tail)
  {
    TransformMidpoint(scene.matrixWorld(arm, frame), scene.poseHead(arm, bone, frame), scene.poseTail(arm, bone, frame));
  }

  /** An empty's trace does not depend on `bone_point`. */
  lemma {:induction false} EmptyTraceIgnoresBonePoint(scene: Scene, camera: string, cfg: Config, name: string,
                                                     point: BonePoint, upTo: int)
    ensures TraceOf(scene, camera, cfg, EmptyEntity(name), upTo) ==
            TraceOf(scene, camera, cfg.(bonePoint := point), EmptyEntity(name), upTo)
    decreases upTo - cfg.frameStart
  {
    if upTo >= cfg.frameStart {
      EmptyTraceIgnoresBonePoint(scene, camera, cfg, name, point, upTo - 1);
    }
  }

  /**
    * A pixel depends only on the camera coordinate and the resolution: bones and
    * empties, at any frames, whose points the camera sees at the same place get
    * the same pixel.
    */
  lemma PixelDependsOnlyOnCameraCoordinate(scene: Scene, camera: string, cfg: Config,
                                          e1: Entity, f1: int, e2: Entity, f2: int)
    requires var v1 := scene.cameraView(camera, f1, WorldPosition(scene, cfg.bonePoint, e1, f1));
             var v2 := scene.cameraView(camera, f2, WorldPosition(scene, cfg.bonePoint, e2, f2));
             v1.x == v2.x && v1.y == v2.y
    ensures Sample(scene, camera, cfg, e1, f1) == Sample(scene, camera, cfg, e2, f2)
  {
  }

  /** A point the camera sees inside its frame is traced to a pixel inside the image. */
  lemma SampleInImage(scene: Scene, camera: string, cfg: Config, e: Entity, frame: int)
    requires var v := scene.cameraView(camera, frame, WorldPosition(scene, cfg.bonePoint, e, frame));
             0.0 <= v.x < 1.0 && 0.0 < v.y <= 1.0
    ensures 0 <= Sample(scene, camera, cfg, e, frame).x < cfg.resX
    ensures 0 <= Sample(scene, camera, cfg, e, frame).y < cfg.resY
  {
    var v := scene.cameraView(camera, frame, WorldPosition(scene, cfg.bonePoint, e, frame));
    InFrameIsInImage(v.x, v.y, cfg.resX, cfg.resY);
  }

  // ---------------------------------------------------------------------------
  // Running the export again

  /**
    * Exporting again from the state an export leaves behind gives the same
    * outcome and the same state: the export is deterministic and its only
    * lasting changes (pose mode, and the active armature on the no-bones exit)
    * do not affect a second run.
    */
  lemma ExportIdempotent(scene: Scene, props: Props, pre: HostState, writeOk: bool)
    ensures Export(scene, props, Export(scene, props, pre, writeOk).post, writeOk) ==
            Export(scene, props, pre, writeOk)
  {
  }
}
