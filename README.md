# SpaceEngineersVR: device poses, the stereo frame, IPD correction and the control mapping

This project models the decision logic of the SpaceEngineersVR plugin. The plugin renders Space
Engineers through SteamVR and drives the player's character from VR controllers. The model
covers four parts:

- **Per-device pose state machine** (`tracked_device.dfy`, module `Tracking`). A tracked device
  takes one raw runtime sample per update.
  - Its stored pose takes over the sample's connected and valid flags.
  - The geometry (device-to-absolute transform with its inverse, velocity, angular velocity) is
    overwritten only while the device is tracked.
  - Each flag change is reported as an edge: connected, disconnected, started tracking, lost
    tracking.
  - A main-pose update turns the edges into calls of the four overridable hooks, recorded as a
    trace. A render-pose update only refreshes the render pose.
  - Lemmas over whole runs of samples prove three things. Each hook fires exactly once per
    actual edge. Connections and disconnections balance. The geometry is that of the last valid
    sample.
- **Stereo frame coordinator** (`headset_frame.dfy`, module `Stereo`). `Headset.FrameUpdate` is
  the render callback, and it has three behaviours:
  - With no game camera it waits.
  - On the first frame with a camera it re-creates the screen resources.
  - In the steady state it swaps the borrowed render target: it releases the old texture, then
    borrows a new one. It then draws and submits the right eye, then the left eye. For each draw
    the camera's world matrix is overwritten and the view matrix set to its inverse. Both are
    restored afterwards.
  - What the renderer, the texture pool and the compositor are asked to do is kept as a trace of
    effects. The headset's invariant proves two things about that trace: every draw and submit
    uses the texture currently held, and every view matrix is the inverse of its world matrix.
- **IPD correction** (same module). A counter moves by one step per frame while Ctrl+Alt is held:
  up on Add below 0.1, down on Subtract above 0.1. The correction is added to the measured IPD;
  the sum, negated for the left eye, is each eye's horizontal projection offset. From zero, the
  correction never decreases and stays within [0, 0.1].
- **Input to command mapping** (`headset_controls.dfy`, module `Controls`). Each simulation tick
  maps a snapshot of the controller actions to the calls it makes:
  - in flight or walk mode, one clamped `MoveAndRotate` call;
  - then the calls of the buttons, in source order.

  The source's quirks are kept as written:
  - WalkBackward adds WalkForward's position.
  - Roll is gated by ThrustRoll but reads ThrustRotate's X.
  - ThrustLRUD is read before the flight actions are refreshed.
  - A held crouch overrides a held jump.

Three details of the code shape the model:
- The IPD correction is not clamped to a symmetric range: both guards compare against +0.1
  (SpaceEngineersVR/Player/Headset.cs:141, 147).
- An eye's transform multiplies the head orientation first, then the eye-to-head transform, then
  the camera's world matrix (SpaceEngineersVR/Player/Headset.cs:100-106, `EyeWorld`).
- `new()` of `TrackedDevice.Pose` is `default(Pose)`: the struct declares a constructor with
  parameters and none without, so its field initialisers do not run. A device that has never been
  tracked holds the default matrix (with a default inverse), not the identity. This takes
  `MatrixAndInvert`, whose definition is not part of this model, to be a struct.

Matrices are a free term algebra (`Transforms.Matrix`): runtime samples, the default matrix, product,
inverse, orientation. No numerics are modelled. Vectors and the IPD are reals. `Options` holds
the usual `Option` type.

## Model

| member | source | states |
|---|---|---|
| Tracking.SetPoseData | SpaceEngineersVR/Player/TrackedDevice.cs:75-108 | The stored flags become the sample's flags. Each edge flag holds iff its flag changed in that direction. Connected and disconnected are never both set, and neither are started and lost. The geometry is the sample's while tracked and unchanged otherwise, lost tracking included. |
| Tracking.TrackedDevice.SetMainPoseData | SpaceEngineersVR/Player/TrackedDevice.cs:55-68 | The main pose advances by one sample, and the render pose is untouched. The hook trace grows by exactly the hooks of the edges, in the order connected, disconnected, started, lost. |
| Tracking.TrackedDevice.SetRenderPoseData | SpaceEngineersVR/Player/TrackedDevice.cs:70-73 | Only the render pose changes. The main pose and the hook trace stay as they were. |
| Tracking.TrackedDevice.constructor | SpaceEngineersVR/Player/TrackedDevice.cs:11-30 | Both poses start as `default(Pose)`: disconnected, untracked, default transform, zero vectors. The device id is the invalid index, and no hook has been called. |
| Tracking.ConnectThenTrack | SpaceEngineersVR/Player/TrackedDevice.cs:13-100 | A fresh device is fed (disconnected, untracked), then (connected, untracked), then (connected, tracked). It calls OnConnected once, then OnStartTracking once, and nothing else. It ends tracked at the sample's transform. |
| Tracking.RepeatedSampleIsSilent | SpaceEngineersVR/Player/TrackedDevice.cs:82-100 | Applying the same sample a second time reports no edge, calls no hook and leaves the pose as it was. |
| Tracking.TrackedDevice.DeviceToPlayer | SpaceEngineersVR/Player/TrackedDevice.cs:9 | The device-to-player transform is the main pose's device-to-absolute matrix times the player's inverse. It reads the main pose only, never the render pose. |
| Tracking.NeverTrackedHoldsDefault | SpaceEngineersVR/Player/TrackedDevice.cs:9-28 | After any run without a valid sample, a new device still holds the default transform, so its device-to-player transform is the default matrix times the player's inverse. |
| Tracking.DeviceToPlayerFrozenWhileUntracked | SpaceEngineersVR/Player/TrackedDevice.cs:9 | The device-to-player transform is built from the main pose's transform and the player's inverse alone. An untracked sample leaves it unchanged. A tracked sample makes it the sample's transform times the player's inverse. |
| Tracking.HooksForCounts | SpaceEngineersVR/Player/TrackedDevice.cs:59-67 | One update calls each hook exactly once if its edge is set, and never otherwise. |
| Tracking.HooksCountEdges | SpaceEngineersVR/Player/TrackedDevice.cs:55-100 | Over any run of samples, OnConnected and OnDisconnected fire exactly as often as connectivity rises and falls. OnStartTracking and OnLostTracking fire exactly as often as validity rises and falls. |
| Tracking.HooksBalance | SpaceEngineersVR/Player/TrackedDevice.cs:55-100 | Over any run, the connect count minus the disconnect count equals the change of the connected flag from start to end. The same holds for the tracking hooks. |
| Tracking.GeometryIsLastValidSample | SpaceEngineersVR/Player/TrackedDevice.cs:102-107 | After any run, the geometry is that of the last valid sample. With no valid sample it is the geometry held before the run: a lost device keeps its last pose. |
| Stereo.IpdCorrectionMovesOneStep | SpaceEngineersVR/Player/Headset.cs:138-151 | One update changes the correction by at most one step, and only while Alt and Ctrl are both held. Add alone below 0.1 adds a step. Subtract alone above 0.1 removes one. |
| Stereo.IpdCorrectionNeverDecreasesAtOrBelowThreshold | SpaceEngineersVR/Player/Headset.cs:147-151 | The subtract guard is `> 0.1`, so a correction at or below 0.1 never decreases, whatever keys are held. |
| Stereo.IpdCorrectionRangeIsInvariant | SpaceEngineersVR/Player/Headset.cs:138-151 | A correction in [0, 0.1 + step) stays in that range over any sequence of frames. |
| Stereo.NextIpdCorrectionOnSteps | SpaceEngineersVR/Player/Headset.cs:141-151 | From k steps, at or below 0.1, one update gives k steps or k + 1 steps, and never more than 0.1. |
| Stereo.IpdCorrectionFromSteps | SpaceEngineersVR/Player/Headset.cs:141-151 | From k steps, at or below 0.1, any sequence of frames ends on a whole number j of steps, with j at least k and j steps at or below 0.1. |
| Stereo.IpdCorrectionFromZero | SpaceEngineersVR/Player/Headset.cs:141-151 | Starting from the initial 0, the correction stays in [0, 0.1] for ever. |
| Stereo.Headset.UpdateIpdCorrection | SpaceEngineersVR/Player/Headset.cs:135-159 | The correction becomes the one-step update of the old value under the keys held, and stays in range. |
| Stereo.Headset.UploadCameraViewMatrix | SpaceEngineersVR/Player/Headset.cs:176-207 | The camera's view matrix becomes the inverse of its world matrix. The projection X offset is -(ipd + correction) for the left eye and +(ipd + correction) for the right. |
| Stereo.Headset.DrawEye | SpaceEngineersVR/Player/Headset.cs:161-174 | One draw into the held texture is recorded, with the eye's world matrix, its inverse as the view and the eye's offset. Then one submission of that texture over the full bounds. The trace invariant is kept. |
| Stereo.Headset.SwapTexture | SpaceEngineersVR/Player/Headset.cs:109-110 | The texture held, if any, is released before a new one is borrowed at the headset's size. The new texture is then held. |
| Stereo.Headset.GetNewPositions | SpaceEngineersVR/Player/Headset.cs:209-238 | The head pose becomes device 0's render transform when that sample is valid and connected. Otherwise it keeps its old value. |
| Stereo.Headset.RenderEyes | SpaceEngineersVR/Player/Headset.cs:97-126 | The ipd becomes the measured one. The effects are the swap, then the right eye, then the left eye, each drawn with its own world matrix. Both camera matrices end as they started. |
| Stereo.Headset.FrameUpdate | SpaceEngineersVR/Player/Headset.cs:75-133 | Three cases. No camera: the flag is set again and true is returned, with no effect. First frame with a camera: SetResolution(width, height) and CreateScreenResources are recorded, the flag is cleared and true is returned. Steady state: exactly the steady-frame effects are recorded, the camera is restored, the correction steps once and false is returned. The invariant is kept in every case. |
| Stereo.WaitForCamera | SpaceEngineersVR/Player/Headset.cs:81-95 | Any number of frames without a camera, then one with a camera, only re-create the screen resources. Nothing is borrowed, drawn or submitted, and every frame asks for the default draw. |
| Stereo.Headset.constructor | SpaceEngineersVR/Player/Headset.cs:50-73 | The headset starts with the full texture bounds, no texture, an empty trace, the first-update flag set and a zero correction. The invariant holds. |
| Stereo.SwapKeepsDiscipline | SpaceEngineersVR/Player/Headset.cs:109-110 | A swap keeps the borrow/release discipline from any held texture and ends holding the new one. |
| Stereo.EyeKeepsDiscipline | SpaceEngineersVR/Player/Headset.cs:161-174 | An eye's draw and submission use only the held texture and keep it held. |
| Stereo.SteadyFrameKeepsDiscipline | SpaceEngineersVR/Player/Headset.cs:109-122 | A steady frame keeps the discipline from any held texture and ends holding the texture it borrowed. |
| Stereo.SteadyFrameSubmitsRightThenLeft | SpaceEngineersVR/Player/Headset.cs:119-122 | A steady frame submits the right eye, then the left eye, each exactly once. |
| Stereo.ResourceEffectsKeepDiscipline | SpaceEngineersVR/Player/Headset.cs:88-95 | Re-creating the screen resources touches no texture and records no draw. |
| Controls.ClampUnit | SpaceEngineersVR/Player/Headset.cs:307 | The clamped axis lies in [-1, 1]. It is unchanged inside that range and saturates outside it. |
| Controls.WalkCommands | SpaceEngineersVR/Player/Headset.cs:267-309 | Jump is called iff jump has a press edge, and Crouch iff crouch does. The call list ends with one MoveAndRotate whose move is clamped per axis and whose roll is 0. A held crouch forces move.Y to -1, and a held jump alone forces it to 1. |
| Controls.FlightCommands | SpaceEngineersVR/Player/Headset.cs:311-362 | SwitchDamping is called iff the dampeners have a press edge. The call list ends with one MoveAndRotate built from the flight movement, clamped per axis, and from the ThrustRotate rotation and roll. |
| Controls.ShootCommands | SpaceEngineersVR/Player/Headset.cs:368-384 | A shoot slot calls BeginShoot iff there is an entity and a press edge. It calls EndShoot iff there is an entity and a release edge without a press edge. It makes at most one call. |
| Controls.ControlCommonFunctions | SpaceEngineersVR/Player/Headset.cs:364-551 | ToggleView flips the character's first-person flag, and Pause flips the game's paused flag. Otherwise both are left as they are. |
| Controls.SlotCommandsMembers | SpaceEngineersVR/Player/Headset.cs:386-551 | A call is made by the press slots iff some slot that makes it fires: a press edge on its button, plus an entity when it calls through one. |
| Controls.PressCalls | SpaceEngineersVR/Player/Headset.cs:391-550 | A press slot makes at most two calls, none of them a shoot, a move, a jump, a crouch or a dampener switch. It makes an entity call iff it is one of the slots written with `controlledEntity?.`. The TODO slots make no call. |
| Controls.SlotCalls | SpaceEngineersVR/Player/Headset.cs:386-551 | The press slots never make a shoot or a move call. They make an entity call only when there is a controlled entity. |
| Controls.SlotCommandsIgnoreInert | SpaceEngineersVR/Player/Headset.cs:386-551 | The press slots make the same calls with the TODO buttons removed from the press edges. |
| Controls.ShootPairing | SpaceEngineersVR/Player/Headset.cs:368-384 | Over all button calls, Primary and Secondary each call BeginShoot on a press edge, or else EndShoot on a release edge. Never both, and only with a controlled entity. |
| Controls.InertButtonsDoNothing | SpaceEngineersVR/Player/Headset.cs:386-551 | Pressing any TODO button (Reload, CubeSize, BuildPlanner, ToolbarConfig, BlockSelector, Contract, Chat, VoiceChat, SignalMode, SpectatorMode, Teleport) changes no call and no flag. |
| Controls.ButtonCommands | SpaceEngineersVR/Player/Headset.cs:368-551 | The button calls contain no MoveAndRotate, Jump, Crouch or SwitchDamping. Without a controlled entity, none of the `controlledEntity?.` calls is made. |
| Controls.UpdateBeforeSimulation | SpaceEngineersVR/Player/Headset.cs:247-265 | Without a character a tick makes no call and changes nothing. With one, only the chosen mode's actions are refreshed, together with the buttons. The view and pause flags flip on their buttons. |
| Controls.TickCommands | SpaceEngineersVR/Player/Headset.cs:247-265 | With a character, a tick's calls are the chosen mode's calls followed by the button calls. |
| Controls.TickMovesOnce | SpaceEngineersVR/Player/Headset.cs:247-265 | Without a character a tick makes no call. With one, it makes exactly one MoveAndRotate call, clamped per axis: the flight movement iff thrusts are enabled, otherwise the walk movement with roll 0. |
| Controls.TickModeCalls | SpaceEngineersVR/Player/Headset.cs:247-362 | Over a whole tick, Jump and Crouch are called iff in walk mode with their press edge, and SwitchDamping iff in flight mode with the dampeners' press edge. |
| Controls.TickEntityCalls | SpaceEngineersVR/Player/Headset.cs:247-384 | Over a whole tick, each shoot slot calls BeginShoot iff there is an entity and a press edge, and EndShoot iff there is an entity and a release edge without a press edge. Without an entity no call of the tick goes through one. |
| Controls.WalkSaturates | SpaceEngineersVR/Player/Headset.cs:274-308 | A walk stick at (1, 1) plus a forward trigger at 1 gives an unclamped Z of -2, which the clamp turns into the move (1, 0, -1). |
| Controls.WalkBackwardReadsForwardPosition | SpaceEngineersVR/Player/Headset.cs:281-285 | WalkBackward's own position never matters. With both triggers active and no stick, forward and backward cancel on Z. |
| Controls.RollReadsRotateStick | SpaceEngineersVR/Player/Headset.cs:345-355 | The roll stick's position never matters. With both active, the roll equals the yaw taken from ThrustRotate's X. |
| Controls.FlightReadsStaleLRUD | SpaceEngineersVR/Player/Headset.cs:317-324 | In flight mode this tick's fresh ThrustLRUD value has no effect on any call. The value read is the one left by the previous refresh. |

## Left out

- OpenVR runtime calls are not modelled; their results are inputs. The render poses returned by `WaitGetPoses` are the `renderPositions` parameter, and the game poses are unused. The eye-to-head transforms are parameters. The eye-output viewport size is given to the `Headset` constructor.
- The IPD the source measures as the distance between the eye translations is the `measuredIpd` parameter, because matrix numerics are not modelled. The same holds for the orientation, the products and the inverse, which are kept as terms.
- The texture pool, `DrawGameScene`, `SetupCameraMatrices` and `Compositor.Submit` are effects in the trace. The pool's texture id is the `pooled` parameter. The remaining camera-message fields are not modelled: FOV via `Atan`, near and far planes, projection matrices, camera position.
- Frame timing, the dropped-frame diagnostics and every log line are left out, because they are output only.
- The haptics and action handle lookups of the `TrackedDevice` constructor and `Vibrate` are left out, because they are foreign calls. `MainUpdate` is left out too, because it is empty.
- The hook bodies are empty virtual methods, so a hook is recorded as a trace entry. Overrides in subclasses are not part of this model.
- Controls.cs is not part of this model. Its refresh methods are modelled as takeovers:
  - `UpdateWalk` takes over the walk actions and `UpdateFlight` the flight actions, from values given as parameters.
  - Either refresh is assumed to update the button edges.
  - The press and release edges of a button are given as sets.
- The calls on the character, the controlled entity, the clipboard, the cube builder and the radial-menu actions are recorded by name. Their effects on the game are not modelled, and neither is `SwitchThrusts` changing the mode of later ticks.
- Float32 arithmetic and rounding are not modelled (reals are used), including the 5e-5f step and the 32-bit id. In particular, no claim is made that 0.1 is reached exactly in single precision.
- `CreatePopup` is left out, because it is file, bitmap and overlay I/O.
- The camera disabler patch in SpaceEngineersVR/Patches is left out, because it only returns a configuration flag.
- Event subscription and the render-thread versus simulation-thread scheduling are left out, because each call is modelled as one atomic step.
