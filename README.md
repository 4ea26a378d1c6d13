# Bone Tracer export, modelled in Dafny

The Bone Tracer is a Blender add-on. Its export operator, `BONE_TRACER_OT_export.execute`, turns an animation into 2D pixel tracks for an image-generation pipeline. It works in five steps:

1. It picks the output resolution and the frame range, each from the scene or from the add-on's properties.
2. It gathers the selected armatures, each one's selected pose bones, and the selected empties.
3. It steps the host's current frame through `range(frame_start, frame_end + 1)` for every bone and empty. At each frame it resolves the traced point and projects it through the scene camera.
4. It turns the camera coordinate into a pixel with its origin at the top-left, by truncation toward zero and with no clamping.
5. It puts the current frame and the active object back in a `finally`, then writes the traces to a file.

The project has six modules:

- `Wrappers` (`wrappers.dfy`): `Option`.
- `Geometry` (`geometry.dfy`): vectors, the world matrix as three affine rows, `matrix_world @ v`, and the translation of a matrix.
- `Pixels` (`pixels.dfy`): Python's `int()` as truncation toward zero, and the pixel map.
- `Selection` (`selection.dfy`): the type filter over `selected_objects`, and the selected pose bones as (armature, bone) index pairs in loop order.
- `Tracer` (`tracer.dfy`): the properties, the scene the operator reads and the sampling of one entity at one frame. It also holds the specification function `Export` (one run from a host state to an outcome and a new host state), and the class `Host`. `Host` has the mutable current frame, active object and mode. Its method `Execute` performs the operator step by step, and is proved to do exactly what `Export` says.
- `ExportLaws` (`export_laws.dfy`): the laws of `Export`. These cover the exits and what each leaves behind, the count, order and length of the traces, the bone-point choice, the pixel bounds, the report, and running the export twice.

The host's per-frame lookups are fields of the `Scene` datatype holding functions, each taking the frame as an explicit argument:

- the pose head and tail;
- `matrix_world`;
- `world_to_camera_view`;
- whether the host raises an exception while an entity is sampled at a frame.

The file write is a boolean `writeOk` that says whether it succeeds.

Points of the code's behaviour that are easy to misread:

- The pixel map truncates toward zero rather than flooring: the code uses `int()` (`Pixels.Trunc`, `Pixels.TowardZeroFoldsOntoEdge`).
- The frame and the active object are put back only inside the `try`/`finally`:
  - The "no bones and no empties" cancel comes after the armature loop. It leaves the last selected armature active (`ExportLaws.NoBonesLeavesLastArmatureActive`).
  - The mode is recorded but never put back (`ExportLaws.ModeLeftInPose`).
- There is no check for a non-positive resolution or for a position that is not finite. The properties carry `min=1`, which the model keeps as the type `Positive`. The model has no non-finite values.
- A reversed frame range is no error. It gives empty traces, and a report whose frame count is `frame_end - frame_start + 1` (`ExportLaws.ReversedRangeGivesEmptyTraces`).

## Model

The operator appears twice, in two byte-identical files, and a row may cite either copy.

| member | source | states |
|---|---|---|
| Tracer.ChooseConfig | 250613_PoseControl/250713_MICKMUMPITZ_BLENDER_BONE_TRACER_v24.py:95-108 | The resolution is the render resolution when `use_render_resolution` is set, otherwise the properties. The frame range is the scene's range when `use_scene_frame_range` is set, otherwise the properties. The bone point is the property's. |
| Tracer.BonePosition | 250613_PoseControl/250713_MICKMUMPITZ_BLENDER_BONE_TRACER_v24.py:156-161 | Definition of the bone point in armature space. Its law is `ExportLaws.BonePointChoice`. |
| Tracer.WorldPosition | 250613_PoseControl/250713_MICKMUMPITZ_BLENDER_BONE_TRACER_v24.py:164-188 | Definition of the world point of a bone (`matrix_world @ bone_pos`) or an empty (`matrix_world.translation`). Its laws are `ExportLaws.BonePointChoice` and `ExportLaws.EmptyTraceIgnoresBonePoint`. |
| Tracer.Sample | 250613_PoseControl/250713_MICKMUMPITZ_BLENDER_BONE_TRACER_v24.py:164-173 | Definition of the pixel of an entity at a frame. Its laws are `ExportLaws.PixelDependsOnlyOnCameraCoordinate` and `ExportLaws.SampleInImage`. |
| Tracer.FrameCount | 250613_PoseControl/250713_MICKMUMPITZ_BLENDER_BONE_TRACER_v24.py:152 | Definition of the length of `range(frame_start, frame_end + 1)`. Its use is in `Tracer.TraceOf` and `ExportLaws.TraceShape`. |
| Geometry.Translation | 250613_PoseControl/250713_MICKMUMPITZ_BLENDER_BONE_TRACER_v24.py:188 | An empty's position, `matrix_world.translation`, is the image of the origin under its world matrix. |
| Geometry.TransformMidpoint | 250613_PoseControl/250713_MICKMUMPITZ_BLENDER_BONE_TRACER_v24.py:161-164 | The world matrix maps the midpoint of head and tail to the midpoint of their images. |
| Pixels.Trunc | 250613_PoseControl/250713_MICKMUMPITZ_BLENDER_BONE_TRACER_v24.py:171-172 | `int()` of a non-negative number is the whole number at or just below it. `int()` of a negative number is the whole number at or just above it: truncation toward zero. |
| Pixels.Column | 250613_PoseControl/250713_MICKMUMPITZ_BLENDER_BONE_TRACER_v24.py:171 | Definition of `int(cam_pos.x * res_x)`. Its laws are in `Pixels.InFrameIsInImage`, `Pixels.ColumnInImage`, `Pixels.NoClamping` and `Pixels.ColumnTowardZero`. |
| Pixels.RowOf | 250613_PoseControl/250713_MICKMUMPITZ_BLENDER_BONE_TRACER_v24.py:172 | Definition of `int((1.0 - cam_pos.y) * res_y)`. Its laws are in `Pixels.InFrameIsInImage`, `Pixels.RowInImage`, `Pixels.NoClamping` and `Pixels.RowTowardZero`. |
| Pixels.ToPixel | 250613_PoseControl/250713_MICKMUMPITZ_BLENDER_BONE_TRACER_v24.py:170-173 | Definition of the pixel of a camera coordinate. Its laws are in `Pixels.InFrameIsInImage`, `Pixels.FrameCorners`, `Pixels.NoClamping` and `Pixels.TowardZeroFoldsOntoEdge`. |
| Pixels.InFrameIsInImage | 250613_PoseControl/250713_MICKMUMPITZ_BLENDER_BONE_TRACER_v24.py:170-173 | For 0 <= nx < 1 and 0 < ny <= 1, the pixel lies in [0, res_x) x [0, res_y). |
| Pixels.FrameCorners | 250613_PoseControl/250713_MICKMUMPITZ_BLENDER_BONE_TRACER_v24.py:170-173 | (0, 1) maps to pixel (0, 0). (1, 0) maps to (res_x, res_y), one past the image and not clamped. |
| Pixels.TruncInRange | 250613_PoseControl/250713_MICKMUMPITZ_BLENDER_BONE_TRACER_v24.py:171-172 | `int()` lands in [0, res) exactly for arguments strictly between -1 and res. |
| Pixels.ColumnInImage | 250613_PoseControl/250713_MICKMUMPITZ_BLENDER_BONE_TRACER_v24.py:171 | The column is inside the image exactly when -1 < nx * res_x < res_x. So a point less than one pixel left of the frame still lands in column 0, and every other off-frame point lands outside, unclamped. |
| Pixels.RowInImage | 250613_PoseControl/250713_MICKMUMPITZ_BLENDER_BONE_TRACER_v24.py:172 | The row is inside the image exactly when -1 < (1 - ny) * res_y < res_y. So a point less than one pixel above the frame still lands in row 0, and every other off-frame point lands outside, unclamped. |
| Pixels.NoClamping | 250613_PoseControl/250713_MICKMUMPITZ_BLENDER_BONE_TRACER_v24.py:194-197 | Coordinates a full frame or more off the frame give pixels off the image, unclamped: nx >= 1 gives x >= res_x, nx <= -1 gives x <= -res_x, ny <= 0 gives y >= res_y, and ny >= 2 gives y <= -res_y. The exact bands are in `Pixels.ColumnInImage` and `Pixels.RowInImage`. |
| Pixels.TruncOfSmallNegative | 250613_PoseControl/250713_MICKMUMPITZ_BLENDER_BONE_TRACER_v24.py:171 | Strictly between -1 and 0, `int()` gives 0, where flooring gives -1. |
| Pixels.ColumnTowardZero | 250613_PoseControl/250713_MICKMUMPITZ_BLENDER_BONE_TRACER_v24.py:171 | A point less than one pixel left of the frame is in column 0, not -1. |
| Pixels.RowTowardZero | 250613_PoseControl/250713_MICKMUMPITZ_BLENDER_BONE_TRACER_v24.py:172 | A point less than one pixel above the frame is in row 0, not -1. |
| Pixels.TowardZeroFoldsOntoEdge | 250613_PoseControl/250713_MICKMUMPITZ_BLENDER_BONE_TRACER_v24.py:170-173 | A point just outside the top-left corner lands on pixel (0, 0), while flooring would give (-1, -1). |
| Pixels.CentreOfSquareFrame | 250613_PoseControl/250713_MICKMUMPITZ_BLENDER_BONE_TRACER_v24.py:194-197 | The centre of a 1024 x 1024 frame is pixel (512, 512). |
| Selection.KindIndices | 250613_PoseControl/250713_MICKMUMPITZ_BLENDER_BONE_TRACER_v24.py:112 | Every position it lists holds an object of the requested type. |
| Selection.OfKind | 250613_PoseControl/250713_MICKMUMPITZ_BLENDER_BONE_TRACER_v24.py:112-115 | The filter keeps only selected objects of the requested type. |
| Selection.KindIndicesIncreasing | 250613_PoseControl/250713_MICKMUMPITZ_BLENDER_BONE_TRACER_v24.py:112 | The kept positions are strictly increasing, so selection order is kept. |
| Selection.KindIndicesComplete | 250613_PoseControl/250713_MICKMUMPITZ_BLENDER_BONE_TRACER_v24.py:115 | Every selected object of the type is kept. |
| Selection.OfKindInSelectionOrder | 250613_PoseControl/250713_MICKMUMPITZ_BLENDER_BONE_TRACER_v24.py:112-115 | The j-th filtered object is the selected object at the j-th kept position. |
| Selection.OfKindEmpty | 250613_PoseControl/250713_MICKMUMPITZ_BLENDER_BONE_TRACER_v24.py:117 | The filter is empty exactly when no selected object has that type. |
| Selection.OfKindLast | 250713_MICKMUMPITZ_BLENDER_BONE_TRACER_v24.py:125-127 | The last filtered armature is the selected armature at the last armature position. It is the one the loop leaves active. |
| Selection.SlotsIn | 250613_PoseControl/250713_MICKMUMPITZ_BLENDER_BONE_TRACER_v24.py:132-134 | Each slot collected from one armature is a selected pose bone of that armature, among the bones visited so far. |
| Selection.BoneSlots | 250613_PoseControl/250713_MICKMUMPITZ_BLENDER_BONE_TRACER_v24.py:125-134 | Every collected (armature, bone) pair is a selected pose bone of a selected armature. |
| Selection.SlotsInOrdered | 250613_PoseControl/250713_MICKMUMPITZ_BLENDER_BONE_TRACER_v24.py:132 | Within one armature, bones are collected in `pose.bones` order. |
| Selection.SlotsInComplete | 250613_PoseControl/250713_MICKMUMPITZ_BLENDER_BONE_TRACER_v24.py:133-134 | Every selected bone among those visited is collected. |
| Selection.BoneSlotsOrdered | 250613_PoseControl/250713_MICKMUMPITZ_BLENDER_BONE_TRACER_v24.py:125-134 | The pairs are strictly ordered by armature, then by pose bone, so none repeats. |
| Selection.BoneSlotsComplete | 250613_PoseControl/250713_MICKMUMPITZ_BLENDER_BONE_TRACER_v24.py:125-134 | Every selected pose bone of every selected armature is collected. |
| Selection.BoneSlotsCount | 250613_PoseControl/250713_MICKMUMPITZ_BLENDER_BONE_TRACER_v24.py:125-134 | There are as many pairs as selected pose bones over all selected armatures. |
| Selection.KindCount | 250613_PoseControl/250713_MICKMUMPITZ_BLENDER_BONE_TRACER_v24.py:115 | The filter holds as many objects as there are selected objects of that type. |
| Tracer.TraceOf | 250613_PoseControl/250713_MICKMUMPITZ_BLENDER_BONE_TRACER_v24.py:152-175 | A trace has one pixel per frame of `range(frame_start, upTo + 1)`, so none when the range is reversed. Pixel i is the sample at frame `frame_start + i`. |
| Tracer.Traces | 250613_PoseControl/250713_MICKMUMPITZ_BLENDER_BONE_TRACER_v24.py:148-201 | There is one trace per entity, in entity order, each the full trace of its entity. |
| Tracer.EntitiesAreSelected | 250613_PoseControl/250713_MICKMUMPITZ_BLENDER_BONE_TRACER_v24.py:148-180 | Every traced entity is a selected pose bone of a selected armature, or a selected empty; the bones come first. |
| Tracer.TracesAppend | 250613_PoseControl/250713_MICKMUMPITZ_BLENDER_BONE_TRACER_v24.py:177-201 | Tracing the bones and then the empties into one list gives the traces of their concatenation. |
| Tracer.AnyFaultAppend | 250613_PoseControl/250713_MICKMUMPITZ_BLENDER_BONE_TRACER_v24.py:146-201 | The try body raises over the concatenation exactly when it raises over the bones or over the empties. |
| Tracer.Host.FrameSet | 250613_PoseControl/250713_MICKMUMPITZ_BLENDER_BONE_TRACER_v24.py:153 | `frame_set` moves the current frame and nothing else. |
| Tracer.Export | 250613_PoseControl/250713_MICKMUMPITZ_BLENDER_BONE_TRACER_v24.py:85-222 | Definition of one run of the operator, from a host state to an outcome and a new host state. `Tracer.Host.Execute` is proved to perform it; its laws are in `ExportLaws`. |
| Tracer.ExportSelection | 250713_MICKMUMPITZ_BLENDER_BONE_TRACER_v24.py:122-222 | Definition of a run from the armature loop on. `Tracer.Host.ExecuteSelection` is proved to perform it. |
| Tracer.Finish | 250713_MICKMUMPITZ_BLENDER_BONE_TRACER_v24.py:141-222 | Definition of the tracing, the file write and the report once every guard has passed. `Tracer.Host.TraceAndSave` is proved to perform it. |
| Tracer.Host.ModeSetPose | 250613_PoseControl/250713_MICKMUMPITZ_BLENDER_BONE_TRACER_v24.py:129 | `mode_set(mode='POSE')` enters pose mode and changes nothing else. |
| Tracer.Host.TraceEntity | 250613_PoseControl/250713_MICKMUMPITZ_BLENDER_BONE_TRACER_v24.py:149-177 | The frame loop raises exactly when the host raises at some frame of the range, and then stops at the first such frame, leaving it current. Otherwise it returns the entity's full trace and leaves `frame_end` current. A reversed range leaves the frame untouched. |
| Tracer.Host.TraceEntities | 250613_PoseControl/250713_MICKMUMPITZ_BLENDER_BONE_TRACER_v24.py:148-201 | The entity loop raises exactly when some entity faults; it stops at the first such entity, at its first faulting frame. Otherwise it returns `Traces` of the entities and leaves `frame_end` current. With no entity or a reversed range the frame is untouched. |
| Tracer.Host.CollectBones | 250613_PoseControl/250713_MICKMUMPITZ_BLENDER_BONE_TRACER_v24.py:125-134 | The armature loop collects exactly `BoneSlots`. It leaves the last armature active and the host in pose mode, and with no armature it changes nothing. |
| Tracer.Host.TraceAndSave | 250713_MICKMUMPITZ_BLENDER_BONE_TRACER_v24.py:141-222 | After the `try`/`finally` and the write, the frame is the saved one and the active object is the original. The outcome is `Raised`, `CANCELLED` on a failed write, or the traces and the report, as `Finish` says. |
| Tracer.Host.ExecuteSelection | 250713_MICKMUMPITZ_BLENDER_BONE_TRACER_v24.py:122-222 | From the armature loop on, the outcome and the new host state are those of `ExportSelection`. |
| Tracer.Host.Execute | 250613_PoseControl/250713_MICKMUMPITZ_BLENDER_BONE_TRACER_v24.py:85-222 | The operator's outcome and the host state it leaves are exactly those of `Export` from the state it started in. |
| ExportLaws.NoCameraCancelsUntouched | 250613_PoseControl/250713_MICKMUMPITZ_BLENDER_BONE_TRACER_v24.py:89-92 | Without a camera the export is cancelled and frame, active object and mode are unchanged. |
| ExportLaws.NothingSelectedCancelsUntouched | 250613_PoseControl/250713_MICKMUMPITZ_BLENDER_BONE_TRACER_v24.py:112-119 | With no armature and no empty selected, the export is cancelled with no state change. |
| ExportLaws.NoBonesLeavesLastArmatureActive | 250713_MICKMUMPITZ_BLENDER_BONE_TRACER_v24.py:123-138 | With armatures but no selected bone and no empty, the export is cancelled. The last selected armature is left active in pose mode, and the frame is unchanged. |
| ExportLaws.SelectionFacts | 250713_MICKMUMPITZ_BLENDER_BONE_TRACER_v24.py:112-136 | No collected bone exactly when no selected armature has a selected pose bone; an empty filter exactly when no object of that type is selected. |
| ExportLaws.CancelReasons | 250713_MICKMUMPITZ_BLENDER_BONE_TRACER_v24.py:89-138 | Each cancel happens exactly when its guard holds: no camera; a camera but no armature and no empty; armatures but no selected bone and no empty. |
| ExportLaws.ExportFinishes | 250713_MICKMUMPITZ_BLENDER_BONE_TRACER_v24.py:85-222 | An export finishes exactly when there is a camera and something to trace, no sampled frame raises, and the write succeeds. |
| ExportLaws.ExportRaises | 250713_MICKMUMPITZ_BLENDER_BONE_TRACER_v24.py:146-206 | The host's exception leaves the operator exactly when there is a camera and something to trace, and some traced entity faults at a frame of the range. |
| ExportLaws.FrameAlwaysRestored | 250713_MICKMUMPITZ_BLENDER_BONE_TRACER_v24.py:141-205 | On every exit the current frame is the one the export started with. |
| ExportLaws.ActiveRestoredOnceTracing | 250713_MICKMUMPITZ_BLENDER_BONE_TRACER_v24.py:123-206 | Once tracing has started, whether by exception, failed write or success, frame and active object are the original ones. |
| ExportLaws.ModeLeftInPose | 250713_MICKMUMPITZ_BLENDER_BONE_TRACER_v24.py:122-206 | The mode is not restored. After the camera check, any selected armature leaves pose mode on every exit, and otherwise the mode is unchanged. |
| ExportLaws.WriteFailureOnlyCancels | 250713_MICKMUMPITZ_BLENDER_BONE_TRACER_v24.py:203-220 | A failed write leaves the same host state as a good one. It cancels exactly where a good write finishes, discarding the traces, and leaves every other exit alone. |
| ExportLaws.TraceCount | 250613_PoseControl/250713_MICKMUMPITZ_BLENDER_BONE_TRACER_v24.py:125-201 | A finished export has one trace per selected pose bone over all selected armatures, plus one per selected empty. |
| ExportLaws.FinishedTraces | 250613_PoseControl/250713_MICKMUMPITZ_BLENDER_BONE_TRACER_v24.py:148-212 | A finished export had a camera and a good write, and its traces are those of the collected bones followed by the empties. |
| ExportLaws.TracesOfEntities | 250613_PoseControl/250713_MICKMUMPITZ_BLENDER_BONE_TRACER_v24.py:148-201 | The traces of bones followed by empties lay out the bone traces first, in slot order, then the traces of the empties. |
| ExportLaws.TraceOrder | 250613_PoseControl/250713_MICKMUMPITZ_BLENDER_BONE_TRACER_v24.py:125-201 | Bone traces come first, by armature and then pose-bone order. The traces of the empties follow, in selection order. |
| ExportLaws.TraceShape | 250613_PoseControl/250713_MICKMUMPITZ_BLENDER_BONE_TRACER_v24.py:152-199 | Every trace has max(0, frame_end - frame_start + 1) pixels. Pixel i is the sample right after `frame_set(frame_start + i)`. |
| ExportLaws.ReversedRangeGivesEmptyTraces | 250613_PoseControl/250713_MICKMUMPITZ_BLENDER_BONE_TRACER_v24.py:152-184 | A reversed range raises nothing. A finished export then has only empty traces, and a report frame count of at most 0. |
| ExportLaws.ReportMatchesTraces | 250713_MICKMUMPITZ_BLENDER_BONE_TRACER_v24.py:214-215 | The report counts the traces, the selected armatures plus empties, and `frame_end - frame_start + 1` frames. That count is each trace's length whenever the range is not reversed by more than one. |
| ExportLaws.BonePointChoice | 250613_PoseControl/250713_MICKMUMPITZ_BLENDER_BONE_TRACER_v24.py:156-164 | HEAD traces the head and TAIL the tail, through the armature's world matrix. Anything else traces the world midpoint of the two. |
| ExportLaws.EmptyTraceIgnoresBonePoint | 250613_PoseControl/250713_MICKMUMPITZ_BLENDER_BONE_TRACER_v24.py:184-199 | An empty's trace is the same whatever `bone_point` is. |
| ExportLaws.PixelDependsOnlyOnCameraCoordinate | 250713_MICKMUMPITZ_BLENDER_BONE_TRACER_v24.py:167-197 | Bones and empties, at any frames, seen at the same camera coordinate get the same pixel. |
| ExportLaws.SampleInImage | 250613_PoseControl/250713_MICKMUMPITZ_BLENDER_BONE_TRACER_v24.py:167-173 | A point the camera sees inside its frame is traced to a pixel inside the image. |
| ExportLaws.ExportIdempotent | 250613_PoseControl/250713_MICKMUMPITZ_BLENDER_BONE_TRACER_v24.py:85-222 | Exporting again from the state an export leaves gives the same outcome and the same state. |

## Left out

- Blender's own evaluation is not modelled: pose evaluation behind `frame_set`, `matrix_world`, `world_to_camera_view`, and the pose bones' head and tail. Each is a function field of `Scene`, so the laws hold for any host behaviour.
- Floating point is not modelled. Coordinates are exact reals, and no IEEE rounding is claimed.
- JSON serialisation, `bpy.path.abspath`, `output_path` and the file write are not modelled. The write is a boolean `writeOk`, and a finished outcome carries the traces that would be written.
- The report's strings are not modelled. `Report` keeps its three numbers, and the path is left out with the file.
- Exceptions are modelled as one host-decided event per entity and frame, after `frame_set` and before the sample. An exception thrown inside the `finally`, by `mode_set`, or by the file write beyond its failure flag is not modelled.
- Tracer.Host.ModeSetPose: `mode_set` is assumed to succeed. The mode is one host field, not something Blender derives from the active object.
- Geometry.Transform: only the three upper rows of `matrix_world` are kept. `matrix @ vector` on a 3-vector pads it with w = 1, keeps the first three components of the product and divides by nothing, so the fourth row never affects the result.
- Tracer.Host.TraceEntity: the source has two copies of the frame loop, one for bones and one for empties. They differ only in how the point is resolved, and the model has one loop over an `Entity` datatype.
- The scene's render resolution is typed as at least 1. Blender's own lower bound is higher, and the model does not rely on it.
- The panel (`BONE_TRACER_PT_panel.draw`) is left out as user interface only; its counts repeat those proved here.
- `get_bone_chains` is left out as dead code: nothing calls it.
- `register`/`unregister`, `bl_info` and the unused imports are left out as plumbing.
- The second source file is a byte-identical copy. It is modelled once, by the same modules.
