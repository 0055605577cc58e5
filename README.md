# Pose overlay demo: a Dafny model of its decision logic

The program is a small browser demo that feeds frames to a pose-estimation
library and draws on a canvas. The live-camera estimator runs one tick per
animation frame and draws a watch image on the right wrist of every confident
pose. The still-image estimator draws dots and a three-part skeleton for one
pose. This project models the parts of the program that make decisions and
the canvas commands they issue.

- `canvas.dfy` (`Canvas`) models a 2D context as a recorder class,
  `Context2D`. It keeps the list of commands issued and the drawing state that
  `save` pushes and `restore` pops. The floating-point arguments (`d / 500`,
  `Math.atan2`, `360 * Math.PI / 180`) are kept as symbolic `Number` terms and
  never evaluated.
- `posenet.dfy` (`PoseNet`) holds the values the library returns (keypoints,
  poses, the per-frame answer `Frame`) and an opaque model `Handle`. The calls
  made into the library are recorded as `Call` entries instead of being
  performed. `FindPart` models lodash's `_.find` by part name.
- `canvas_helper.dfy` (`CanvasHelper`) models `drawCircle` and the
  `drawPolyline` loop.
- `estimate_pose_from_image.dfy` (`PoseFromImage`) models:
  - the keypoint selections by fixed index sets;
  - the dots-then-polylines render order;
  - the `_canEstimate` flag that `clearCanvas` uses to cancel a pending render.
- `estimate_pose_from_movie.dfy` (`PoseFromMovie`) merges the module-level
  `guiState` and the fields of `EstimatePoseFromMovie` into one class. A ghost
  event log records every library call, every `_drawWrist` call, every canvas
  clear and every frame request.
  - One tick (`PoseDetectionFrame`) is proved against the pure specification
    `TickEvents`. The lemmas then state what a tick does: its swap, its one
    estimator call, its one clear, the poses it draws, its `_isEstimatedPose`
    verdict, and its reschedule.
  - The class invariant `Valid` says that handles are never reused and no
    model is disposed twice. It also says that the model in `guiState.net` is
    never one that was disposed.
- `sequences.dfy` and `wrappers.dfy` hold sequence predicates and `Option`.

The pose library's outputs are parameters. Each tick receives a `Frame`: the
pose `estimateSinglePose` would return and the list `estimateMultiplePoses`
would return. `setup` receives whether camera access is granted and whether
the overlay image loads. `renderCanvas` receives the estimated pose and
whether `clearCanvas` ran during its await.

The model follows the code, including these behaviours a reader may not expect:

- The architecture marker `guiState.changeToArchitecture` is set by the panel
  and never cleared. Once an architecture has been chosen, every later tick
  disposes the current model and loads a new one (`TwoTicksAfterChange`).
- `releaseEstimate` never disposes the model. It only clears `_canEstimated`,
  destroys the panel and stops the camera. With no panel it throws after
  clearing the flag (`ReleaseEstimate`).
- `_canEstimated` is read at the end of a tick, not at its start. A tick
  during whose await `releaseEstimate` ran still clears and draws, but does
  not request another frame (`TickInterruptedByRelease`).
- A per-frame failure is not recovered from. One failure the model
  represents is a confident pose with no `rightWrist` or `rightElbow`
  keypoint: `_drawWrist` then dereferences an undefined result and throws.
  That ends the `_.each` loop and the tick, before any new frame is requested
  (`Each`, `EachCompletes`, `TickReschedules`). The poses drawn before the
  throw are still only confident ones (`TickDrawsOnlyQualifying`).
- The variables in `_drawWrist` named `leftWrist` and `leftElbow` hold the
  keypoints whose part is `"rightWrist"` and `"rightElbow"`. The overlay is
  anchored on the right arm.
- The thresholds are read after the estimator's await, not once at the start
  of the tick. Panel writes during a tick are not modelled, so this makes no
  difference to the model.

## Model

| member | source | states |
|---|---|---|
| CanvasHelper.DrawCircle | src/lib/canvasHelper.js:1-6 | `drawCircle` issues `beginPath`, an `arc` centred on (x, y) with radius 5 from 0 to 360 degrees, the red `fillStyle`, then `fill`; only the fill style changes |
| CanvasHelper.DrawPolyline | src/lib/canvasHelper.js:8-19 | the loop issues `beginPath`, one path command per point in order, the red `strokeStyle`, then `stroke`; only the stroke style changes |
| CanvasHelper.PathCmdsAt | src/lib/canvasHelper.js:10-16 | there is one path command per point; point 0 gives `moveTo` and every later point gives `lineTo` at its own position |
| CanvasHelper.PolylineShape | src/lib/canvasHelper.js:8-19 | a polyline has the points' count plus three commands; `beginPath` comes first, `strokeStyle` just before the final `stroke`; the only `moveTo` is at position 1, and `beginPath`/`stroke` occur only at the ends, so an empty list gives just the bracket and the style |
| CanvasHelper.PolylineVertices | src/lib/canvasHelper.js:8-19 | reading the vertices back from a polyline's commands gives the points' positions in order, with exactly one stroke and no arc |
| CanvasHelper.PathViews | src/lib/canvasHelper.js:10-16 | the path commands visit exactly the points' positions, with no stroke and no arc |
| PoseNet.FindPartFirst | src/lib/estimatePoseFromMovie.js:160-161 | `_.find` by part gives nothing exactly when no keypoint has that part; otherwise it gives the first such keypoint |
| PoseFromImage.SelectedIndicesSpec | src/lib/estimatePoseFromImage.js:54-62 | the indices a filter keeps increase, stay in range, and are exactly the listed indices that exist |
| PoseFromImage.SelectAt | src/lib/estimatePoseFromImage.js:54-62 | the k-th kept element is the element at the k-th kept index |
| PoseFromImage.SelectIsSubsequence | src/lib/estimatePoseFromImage.js:54-62 | each selection is an order-preserving subsequence of the keypoints and keeps no index outside its set |
| PoseFromImage.PickBeyond | src/lib/estimatePoseFromImage.js:54-62 | listed indices past the end select nothing |
| PoseFromImage.PickExtend | src/lib/estimatePoseFromImage.js:54-62 | with increasing indices, walking the index list gives the same selection as filtering the keypoints one by one |
| PoseFromImage.SelectByIncreasingIds | src/lib/estimatePoseFromImage.js:54-62 | for an increasing index list, filtering the keypoints by membership equals picking the listed indices in list order |
| PoseFromImage.IdsIncreasing | src/lib/estimatePoseFromImage.js:9-11 | the three index sets are listed in increasing order |
| PoseFromImage.PickBody | src/lib/estimatePoseFromImage.js:9 | picking 5, 6, 11, 12 from a list of at least 13 keypoints gives those four keypoints in order |
| PoseFromImage.PickArm | src/lib/estimatePoseFromImage.js:10-11 | picking three increasing in-range indices gives those three keypoints in order |
| PoseFromImage.BodySelection | src/lib/estimatePoseFromImage.js:54-56 | `bodyArray` is the keypoints at 5, 6, 11, 12 in that order, and exactly those four keypoints when there are at least 13 |
| PoseFromImage.RightArmSelection | src/lib/estimatePoseFromImage.js:57-59 | `rightArmArray` is the keypoints at 6, 8, 10 in that order, and exactly those three keypoints when there are at least 11 |
| PoseFromImage.LeftArmSelection | src/lib/estimatePoseFromImage.js:60-62 | `leftArmArray` is the keypoints at 5, 7, 9 in that order, and exactly those three keypoints when there are at least 10 |
| PoseFromImage.CircleViews | src/lib/canvasHelper.js:1-6 | a dot is one arc centred on its point, with no stroke and no path vertex |
| PoseFromImage.CirclesShape | src/lib/estimatePoseFromImage.js:50-52 | the dot loop issues four commands per keypoint, one arc per keypoint at its position in keypoint order, and no `moveTo`, `lineTo` or `stroke` |
| PoseFromImage.PolylineArcFree | src/lib/canvasHelper.js:8-19 | a polyline issues no arc |
| PoseFromImage.RenderViews | src/lib/estimatePoseFromImage.js:50-66 | a render draws one dot per keypoint at its position, exactly three strokes, and the vertices of the body, right-arm and left-arm selections in that order |
| PoseFromImage.ArcFreeAppend | src/lib/estimatePoseFromImage.js:64-66 | concatenated arc-free command lists are arc-free |
| PoseFromImage.DotsThenLines | src/lib/estimatePoseFromImage.js:50-66 | in path-free dots followed by arc-free lines, every arc precedes every path command |
| PoseFromImage.RenderDotsFirst | src/lib/estimatePoseFromImage.js:50-66 | in a render every dot comes before any `moveTo`, `lineTo` or `stroke` |
| PoseFromImage.EstimatePoseFromImage.constructor | src/lib/estimatePoseFromImage.js:14-16 | `_canEstimate` starts false and nothing has been called |
| PoseFromImage.EstimatePoseFromImage.Init | src/lib/estimatePoseFromImage.js:18-23 | the canvas is 564 by 564 |
| PoseFromImage.EstimatePoseFromImage.EstimatePoseOnImage | src/lib/estimatePoseFromImage.js:25-42 | it sets `_canEstimate`, loads a model with no multiplier, and asks that model for one pose with scale 0.5, no flip and stride 16 |
| PoseFromImage.RenderState | src/lib/estimatePoseFromImage.js:50-66 | after a render the fill style is red when there was a keypoint and unchanged otherwise, the stroke style is red, and the transform and saved stack are untouched |
| PoseFromImage.EstimatePoseFromImage.DrawDots | src/lib/estimatePoseFromImage.js:50-52 | the loop draws one dot per keypoint, in order; the fill style is red afterwards unless there were no keypoints, and nothing else of the drawing state changes |
| PoseFromImage.EstimatePoseFromImage.ClearCanvas | src/lib/estimatePoseFromImage.js:69-72 | `_canEstimate` becomes false and the whole canvas is cleared; the drawing state is unchanged |
| PoseFromImage.EstimatePoseFromImage.DrawSkeleton | src/lib/estimatePoseFromImage.js:54-66 | the body, right-arm and left-arm polylines are drawn in that order; only the stroke style changes, to red |
| PoseFromImage.EstimatePoseFromImage.DrawPose | src/lib/estimatePoseFromImage.js:50-66 | the dots, then the three polylines, leaving the drawing state `RenderState` describes |
| PoseFromImage.EstimatePoseFromImage.RenderCanvas | src/lib/estimatePoseFromImage.js:44-67 | after estimating, it draws the full render when `clearCanvas` did not run during the await; otherwise the only command is that clear, nothing is drawn and the drawing state is unchanged |
| PoseFromMovie.ProjectionsAppend | src/lib/estimatePoseFromMovie.js:207-276 | the disposed handles and the drawn keypoint lists of a concatenated log are those of its parts, in order |
| PoseFromMovie.DrawEventsShape | src/lib/estimatePoseFromMovie.js:259-268 | the recorded `_drawWrist` calls are one per drawn keypoint list, in order |
| PoseFromMovie.DrawEventsProjections | src/lib/estimatePoseFromMovie.js:259-268 | reading the drawn lists back from the recorded calls gives those lists; the calls dispose nothing |
| PoseFromMovie.FirstWithPartUnique | src/lib/estimatePoseFromMovie.js:160-161 | the first keypoint with a given part is unique |
| PoseFromMovie.WristAnchors | src/lib/estimatePoseFromMovie.js:159-193 | `_drawWrist` draws exactly when some keypoint is a right wrist and some is a right elbow; the overlay is anchored on the first of each |
| PoseFromMovie.OverlayBalanced | src/lib/estimatePoseFromMovie.js:184-192 | the overlay's `save` is matched by its `restore`, so the drawing state after it, saved stack and transform included, equals the state before it |
| PoseFromMovie.ThrowEndsLoop | src/lib/estimatePoseFromMovie.js:259-268 | once `_drawWrist` has thrown, later poses change nothing |
| PoseFromMovie.QualifyingIndicesSpec | src/lib/estimatePoseFromMovie.js:261 | the indices of poses whose score reaches the threshold increase and are exactly those poses |
| PoseFromMovie.EachCompletes | src/lib/estimatePoseFromMovie.js:259-268 | the loop completes exactly when no pose reaching the threshold lacks a right wrist or elbow |
| PoseFromMovie.EachDrawsQualifying | src/lib/estimatePoseFromMovie.js:259-268 | a completed loop calls `_drawWrist` once per pose reaching the threshold, in list order, and for no other pose |
| PoseFromMovie.EachVerdict | src/lib/estimatePoseFromMovie.js:259-268 | `_isEstimatedPose` is unchanged by an empty list; after a completed loop it says whether the last pose reached the threshold; it is true after a throw |
| PoseFromMovie.EachBalanced | src/lib/estimatePoseFromMovie.js:259-268 | the overlays of a whole loop leave the drawing state as it was |
| PoseFromMovie.HeadShape | src/lib/estimatePoseFromMovie.js:207-258 | before its loop a tick issues the swap's library calls, then one estimator call, then a clear |
| PoseFromMovie.Layout | src/lib/estimatePoseFromMovie.js:207-276 | a log made of a head, the `_drawWrist` calls and a tail has those parts at consecutive positions |
| PoseFromMovie.TickLayout | src/lib/estimatePoseFromMovie.js:207-276 | a tick's events are its head, then one `_drawWrist` call per drawn pose, then at most a frame request |
| PoseFromMovie.TickClearsOnce | src/lib/estimatePoseFromMovie.js:258 | a tick clears the canvas exactly once, right after the estimator call and before any `_drawWrist` call |
| PoseFromMovie.TickEstimatesOnce | src/lib/estimatePoseFromMovie.js:213-256 | a tick makes exactly one estimator call: `estimateSinglePose` with scale, flip and stride in single-pose mode, and `estimateMultiplePoses` with those plus `maxPoseDetections`, `minPartConfidence` and `nmsRadius` in multi-pose mode |
| PoseFromMovie.NoDisposals | src/lib/estimatePoseFromMovie.js:207-276 | events without `dispose` calls dispose nothing |
| PoseFromMovie.NoDraws | src/lib/estimatePoseFromMovie.js:207-276 | events without `_drawWrist` calls draw nothing |
| PoseFromMovie.SwapProjections | src/lib/estimatePoseFromMovie.js:209-212 | the swap disposes the current model when a change is pending and nothing otherwise; it draws nothing |
| PoseFromMovie.TickSwap | src/lib/estimatePoseFromMovie.js:209-212 | with a change pending, a tick first disposes `guiState.net`, then loads the chosen architecture, and estimates with the new model; with none it neither loads nor disposes |
| PoseFromMovie.HeadDisposes | src/lib/estimatePoseFromMovie.js:209-258 | the head of a tick disposes only the current model, and only when a change is pending |
| PoseFromMovie.Projections | src/lib/estimatePoseFromMovie.js:207-276 | if head and tail contain no `_drawWrist` call and the tail no `dispose`, the log draws exactly the drawn lists and disposes what the head disposes |
| PoseFromMovie.TickDisposes | src/lib/estimatePoseFromMovie.js:209-212 | a whole tick disposes the current model when a change is pending, and nothing else |
| PoseFromMovie.InterruptedTickStops | src/lib/estimatePoseFromMovie.js:272-275 | a tick interrupted by `releaseEstimate` draws what an uninterrupted tick draws and never requests another frame |
| PoseFromMovie.TickDrawn | src/lib/estimatePoseFromMovie.js:259-268 | the keypoint lists a tick hands to `_drawWrist` are those of its loop |
| PoseFromMovie.TickDraws | src/lib/estimatePoseFromMovie.js:221-268 | when no confident pose lacks a wrist or elbow, a tick calls `_drawWrist` once per pose whose score reaches the mode's threshold, in list order, and for no other; the threshold is `singlePoseDetection.minPoseConfidence` in single-pose mode and `multiPoseDetection.minPoseConfidence` in multi-pose mode |
| PoseFromMovie.EachDrawsQualifyingPrefix | src/lib/estimatePoseFromMovie.js:259-268 | whether or not `_drawWrist` threw, the lists it was given are those of the first poses reaching the threshold, in list order; no pose below the threshold is drawn |
| PoseFromMovie.TickDrawsOnlyQualifying | src/lib/estimatePoseFromMovie.js:221-268 | in every tick, cut short or not, the lists handed to `_drawWrist` are those of the first poses reaching the mode's threshold, in list order |
| PoseFromMovie.TwoSwapsDispose | src/lib/estimatePoseFromMovie.js:209-212 | two ticks with a change pending each dispose the model they started with, in order, and nothing else |
| PoseFromMovie.TickRequest | src/lib/estimatePoseFromMovie.js:272-275 | a tick requests the next frame exactly when its loop completed and `_canEstimated` was set; the request is its last event |
| PoseFromMovie.TickReschedules | src/lib/estimatePoseFromMovie.js:259-275 | a tick requests the next frame exactly when `_canEstimated` is set and no confident pose made `_drawWrist` throw |
| PoseFromMovie.TickVerdict | src/lib/estimatePoseFromMovie.js:259-268 | after a tick `_isEstimatedPose` says whether the last pose reached the threshold, or is unchanged when there are no poses; in single-pose mode that is the one pose |
| PoseFromMovie.LoadKeepsSound | src/lib/estimatePoseFromMovie.js:211 | a model loaded under a fresh handle keeps the handles sound, whether it is kept privately or published |
| PoseFromMovie.SwapKeepsSound | src/lib/estimatePoseFromMovie.js:209-212 | disposing `guiState.net` and publishing a freshly loaded model keeps every model disposed at most once and `guiState.net` live |
| PoseFromMovie.EstimatePoseFromMovie.constructor | src/lib/estimatePoseFromMovie.js:12-49 | the panel defaults (multi-pose mode, thresholds, stride 16, scale 0.5) and the cleared instance fields |
| PoseFromMovie.EstimatePoseFromMovie.LoadNet | src/lib/estimatePoseFromMovie.js:279 | `setup` loads a model with multiplier 0.75 as `_net` |
| PoseFromMovie.EstimatePoseFromMovie.PlayCamera | src/lib/estimatePoseFromMovie.js:51-73 | the camera starts when access is granted; when refused the returned promise never settles |
| PoseFromMovie.EstimatePoseFromMovie.SetupGui | src/lib/estimatePoseFromMovie.js:75-82 | `_net` becomes `guiState.net` and the panel exists |
| PoseFromMovie.EstimatePoseFromMovie.SetupCanvas | src/lib/estimatePoseFromMovie.js:149-157 | the canvas is sized 600 by 500, then the overlay image is loaded from its fixed URL |
| PoseFromMovie.EstimatePoseFromMovie.Setup | src/lib/estimatePoseFromMovie.js:278-289 | model, camera, panel and canvas are set up in that order; `_canEstimated` becomes true only when all of them succeeded, and a refused camera or a failed image stops `setup` where it failed; with a refused camera the canvas keeps its size |
| PoseFromMovie.EstimatePoseFromMovie.OnArchitectureChange | src/lib/estimatePoseFromMovie.js:126-128 | choosing an architecture sets the pending marker |
| PoseFromMovie.EstimatePoseFromMovie.ReleaseEstimate | src/lib/estimatePoseFromMovie.js:291-303 | `_canEstimated` becomes false; with a panel, the panel is destroyed and the camera stopped; without one it throws after clearing the flag; no model is disposed |
| PoseFromMovie.EstimatePoseFromMovie.DrawWrist | src/lib/estimatePoseFromMovie.js:159-193 | `_drawWrist` issues the overlay anchored on the first right wrist and elbow, and leaves the drawing state as it found it; it throws, drawing nothing, when either is missing |
| PoseFromMovie.EstimatePoseFromMovie.EachPose | src/lib/estimatePoseFromMovie.js:259-268 | the `_.each` loop does what `Each` specifies: the `_drawWrist` calls, the overlay commands, the `_isEstimatedPose` verdict, and stopping at a throw |
| PoseFromMovie.EstimatePoseFromMovie.SwapArchitecture | src/lib/estimatePoseFromMovie.js:209-212 | with a change pending, `guiState.net` is disposed and replaced by a newly loaded model of the chosen architecture, and the marker stays set |
| PoseFromMovie.EstimatePoseFromMovie.Estimate | src/lib/estimatePoseFromMovie.js:213-256 | the estimator call of the configured mode on `guiState.net`, the resulting pose list, and that mode's threshold |
| PoseFromMovie.EstimatePoseFromMovie.ClearFrame | src/lib/estimatePoseFromMovie.js:258 | the whole canvas is cleared |
| PoseFromMovie.EstimatePoseFromMovie.Reschedule | src/lib/estimatePoseFromMovie.js:272-275 | the next frame is requested exactly when the loop completed and `_canEstimated` is set |
| PoseFromMovie.EstimatePoseFromMovie.BeginFrame | src/lib/estimatePoseFromMovie.js:207-258 | swap, then estimate, then clear |
| PoseFromMovie.EstimatePoseFromMovie.FinishFrame | src/lib/estimatePoseFromMovie.js:259-275 | the loop, then the conditional frame request |
| PoseFromMovie.EstimatePoseFromMovie.PoseDetectionFrame | src/lib/estimatePoseFromMovie.js:207-276 | one tick logs exactly `TickEvents` of the state it starts in; the canvas gets one clear then the loop's overlays; the verdict, the pose list, the swapped model and the disposed models are as specified; handles stay sound |
| PoseFromMovie.EstimatePoseFromMovie.BeginReleasedFrame | src/lib/estimatePoseFromMovie.js:207-258 | swap and estimate; `releaseEstimate` runs during the await; then the clear; the swapped model, the disposed models and the handle counter are as in an uninterrupted tick |
| PoseFromMovie.EstimatePoseFromMovie.TickInterruptedByRelease | src/lib/estimatePoseFromMovie.js:272-275 | a tick during whose await `releaseEstimate` ran logs `InterruptedTickEvents`: it still clears and draws but leaves estimation disabled; the verdict, the pose list, the drawing state, the swapped model and the disposed models are as in an uninterrupted tick |
| PoseFromMovie.EstimatePoseFromMovie.TwoTicksAfterChange | src/lib/estimatePoseFromMovie.js:126-128 | after one architecture choice, two ticks each swap the model: the second disposes the model the first loaded, both in the ghost `disposed` list and in the `dispose` calls of the log |

## Left out

- Camera acquisition, video playback and track stopping (`getUserMedia`,
  `onloadedmetadata`) are browser I/O. Only their outcome is modelled: started
  or not, and stopped.
- The dat.GUI panel's construction and its algorithm `onChange` handler,
  which only opens and closes folders, are UI. The panel is one flag. Only the
  architecture setter is modelled.
- The Stats FPS meter, `console.log` diagnostics and `_drawFinding` (its only
  call is commented out) have no effect on the modelled behaviour.
- `detectPoseInRealTime` only starts the first tick and is not modelled
  separately.
- The pose library (`load`, `dispose`, `estimateSinglePose`,
  `estimateMultiplePoses`) is foreign code. Its calls are recorded; its answers
  are parameters; a load always succeeds and returns a new handle.
- The overlay's geometry (`Math.sqrt`, `Math.pow`, `d / 500`, `Math.atan2`)
  and the circle's end angle are floating point. They are kept as symbolic
  terms; only the order of the commands and save/restore balance are proved.
- `requestAnimationFrame` is one logged event. The next tick is a further
  call to `PoseDetectionFrame`.
- Async interleavings: only two are modelled. A tick with `releaseEstimate`
  during its estimator await (`TickInterruptedByRelease`), and `renderCanvas`
  with `clearCanvas` during its await (`RenderCanvas`). Other interleavings
  and panel writes during a tick are not modelled.
- Rejections of `estimateSinglePose` or `estimateMultiplePoses` are not
  modelled. There is no catch in the tick, so such a rejection ends the tick
  without a frame request.
- A model load or image load that fails is modelled only for the overlay
  image in `setup`. Failures of `posenet.load` are not modelled.
- src/lib/imageHelper.js (`preloadImage`) is browser image loading. It is
  reduced to the `imageLoads` outcome of `Setup`.
- src/main.js and src/router.js are application bootstrapping and are not
  part of this model.
- PoseFromMovie.EstimatePoseFromMovie.Valid: the link between the ghost
  `disposed` list and the `dispose` calls in the log is proved for one tick by
  `TickDisposes`. It is not a conjunct of the class invariant.
- PoseFromMovie.EstimatePoseFromMovie.PlayCamera: a refused camera is an
  outcome (`CameraPending`), not a promise that stays pending forever.
