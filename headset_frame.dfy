/**
 * The stereo frame coordinator of SpaceEngineersVR/Player/Headset.cs
 * (its "DrawingLogic" region and the IPD correction).
 *
 * Once per render callback the headset takes the latest head pose, and then
 * either waits (no game camera), (re)creates the screen resources (first
 * frame with a camera), or renders and submits both eyes into one borrowed
 * texture, bracketing each eye's draw by a save / overwrite / restore of the
 * camera matrices.  What the renderer and the compositor are asked to do is
 * recorded as a trace of effects.
 */
module Stereo {
  import opened Options
  import opened Transforms
  import opened Tracking

  /** OpenVR.k_unMaxTrackedDeviceCount: the length of the pose arrays. */
  const MaxTrackedDeviceCount: nat := 64

  /** IpdCorrectionStep (5e-5f); float32 rounding is not modelled. */
  const IpdCorrectionStep: real := 0.00005

  /** The constant both guards of UpdateIpdCorrection compare against. */
  const IpdCorrectionThreshold: real := 0.1

  datatype Eye = Left | Right

  /** VRTextureBounds_t */
  datatype TextureBounds = TextureBounds(uMin: real, vMin: real, uMax: real, vMax: real)

  /** The whole texture, (0,0)-(1,1), as the constructor sets it up. */
  const FullTexture: TextureBounds := TextureBounds(0.0, 0.0, 1.0, 1.0)

  /** What one frame asks of the renderer, the texture pool and the compositor. */
  datatype Effect =
    | SetResolution(width: nat, height: nat)
    | CreateScreenResources
    | Borrow(texture: nat, width: nat, height: nat)
    | Release(texture: nat)
      /** DrawGameScene into `target`, with the camera state the renderer was given */
    | Draw(eye: Eye, target: nat, world: Matrix, view: Matrix, projectionOffsetX: real)
    | Submit(eye: Eye, target: nat, bounds: TextureBounds)

  /** The keyboard state UpdateIpdCorrection reads. */
  datatype IpdKeys = IpdKeys(anyAlt: bool, anyCtrl: bool, add: bool, subtract: bool)

  // ---------------------------------------------------------------------------
  // IPD correction

  /** The correction after one UpdateIpdCorrection. */
  function NextIpdCorrection(correction: real, keys: IpdKeys): real
  {
    if keys.anyAlt && keys.anyCtrl then
      var raised := if keys.add && correction < IpdCorrectionThreshold
                    then correction + IpdCorrectionStep else correction;
      if keys.subtract && raised > IpdCorrectionThreshold
      then raised - IpdCorrectionStep else raised
    else correction
  }

  /** The correction after one UpdateIpdCorrection per element of `keys`. */
  function IpdCorrectionAfter(correction: real, keys: seq<IpdKeys>): real
    decreases |keys|
  {
    if keys == [] then correction
    else IpdCorrectionAfter(NextIpdCorrection(correction, keys[0]), keys[1..])
  }

  /** The range any correction reached from zero lies in. */
  ghost predicate IpdCorrectionInRange(correction: real)
  {
    0.0 <= correction < IpdCorrectionThreshold + IpdCorrectionStep
  }

  /** One update moves the correction by at most one step, and only under Ctrl+Alt. */
  lemma IpdCorrectionMovesOneStep(correction: real, keys: IpdKeys)
    ensures var next := NextIpdCorrection(correction, keys);
            next == correction || next == correction + IpdCorrectionStep || next == correction - IpdCorrectionStep
    ensures !(keys.anyAlt && keys.anyCtrl) ==> NextIpdCorrection(correction, keys) == correction
    ensures keys.anyAlt && keys.anyCtrl && keys.add && !keys.subtract && correction < IpdCorrectionThreshold
            ==> NextIpdCorrection(correction, keys) == correction + IpdCorrectionStep
    ensures keys.anyAlt && keys.anyCtrl && keys.subtract && !keys.add && correction > IpdCorrectionThreshold
            ==> NextIpdCorrection(correction, keys) == correction - IpdCorrectionStep
  {
  }

  /**
   * The subtract guard compares against +0.1, not -0.1: at or below the
   * threshold a correction never decreases, whatever keys are held.
   */
  lemma IpdCorrectionNeverDecreasesAtOrBelowThreshold(correction: real, keys: IpdKeys)
    requires correction <= IpdCorrectionThreshold
    ensures NextIpdCorrection(correction, keys) >= correction
  {
  }

  /** Holding the chord for any number of frames keeps the correction in range. */
  lemma {:induction false} IpdCorrectionRangeIsInvariant(correction: real, keys: seq<IpdKeys>)
    requires IpdCorrectionInRange(correction)
    ensures IpdCorrectionInRange(IpdCorrectionAfter(correction, keys))
    decreases |keys|
  {
    if keys != [] {
      IpdCorrectionRangeIsInvariant(NextIpdCorrection(correction, keys[0]), keys[1..]);
    }
  }

  /** From a whole number of steps up to the threshold, one update gives the same or the next step. */
  lemma NextIpdCorrectionOnSteps(k: nat, keys: IpdKeys)
    requires k as real * IpdCorrectionStep <= IpdCorrectionThreshold
    ensures var next := NextIpdCorrection(k as real * IpdCorrectionStep, keys);
            next == k as real * IpdCorrectionStep
            || (next == (k + 1) as real * IpdCorrectionStep && next <= IpdCorrectionThreshold)
  {
  }

  /**
   * Starting from the constructor's 0, the correction only ever sits on a
   * whole number of steps between 0 and the threshold.
   */
  lemma {:induction false} IpdCorrectionFromSteps(k: nat, keys: seq<IpdKeys>)
    requires k as real * IpdCorrectionStep <= IpdCorrectionThreshold
    ensures exists j: nat {:trigger j as real} :: k <= j
              && IpdCorrectionAfter(k as real * IpdCorrectionStep, keys) == j as real * IpdCorrectionStep
              && j as real * IpdCorrectionStep <= IpdCorrectionThreshold
    decreases |keys|
  {
    if keys == [] {
      assert k as real == k as real;
    } else {
      NextIpdCorrectionOnSteps(k, keys[0]);
      var next := NextIpdCorrection(k as real * IpdCorrectionStep, keys[0]);
      if next == k as real * IpdCorrectionStep {
        IpdCorrectionFromSteps(k, keys[1..]);
      } else {
        IpdCorrectionFromSteps(k + 1, keys[1..]);
      }
    }
  }

  lemma IpdCorrectionFromZero(keys: seq<IpdKeys>)
    ensures 0.0 <= IpdCorrectionAfter(0.0, keys) <= IpdCorrectionThreshold
  {
    IpdCorrectionFromSteps(0, keys);
  }

  /** ProjectionOffsetX of the camera message for `eye`. */
  function ProjectionOffsetX(eye: Eye, ipd: real, correction: real): real
  {
    (if eye == Left then -1.0 else 1.0) * (ipd + correction)
  }

  // ---------------------------------------------------------------------------
  // What one frame does

  /** The world matrix of an eye: head orientation, eye-to-head, then the camera's world matrix. */
  function EyeWorld(head: Matrix, eyeToHead: Matrix, cameraWorld: Matrix): Matrix
  {
    Mul(Mul(Orientation(Invert(head)), eyeToHead), cameraWorld)
  }

  /** DrawEye: draw with the eye's world matrix and its inverse as the view, then submit. */
  function EyeEffects(eye: Eye, target: nat, world: Matrix, ipd: real, correction: real): seq<Effect>
  {
    [Draw(eye, target, world, Invert(world), ProjectionOffsetX(eye, ipd, correction)),
     Submit(eye, target, FullTexture)]
  }

  /** Release the texture held, if any, then borrow a new one from the pool. */
  function SwapEffects(held: Option<nat>, target: nat, width: nat, height: nat): seq<Effect>
  {
    (match held case Some(t) => [Release(t)] case None => []) + [Borrow(target, width, height)]
  }

  /** The effects of a steady-state frame. */
  function SteadyFrame(held: Option<nat>, target: nat, width: nat, height: nat,
                       rightWorld: Matrix, leftWorld: Matrix, ipd: real, correction: real): seq<Effect>
  {
    SwapEffects(held, target, width, height)
    + EyeEffects(Right, target, rightWorld, ipd, correction)
    + EyeEffects(Left, target, leftWorld, ipd, correction)
  }

  // ---------------------------------------------------------------------------
  // The borrow / release discipline on the texture

  /**
   * The texture held after one effect, or None when the effect breaks the
   * discipline: borrowing while holding, releasing what is not held, or
   * drawing into or submitting a texture that is not held.
   */
  function ApplyEffect(held: Option<nat>, e: Effect): Option<Option<nat>>
  {
    match e
    case Borrow(t, _, _) => if held.None? then Some(Some(t)) else None
    case Release(t) => if held == Some(t) then Some(None) else None
    case Draw(_, t, _, _, _) => if held == Some(t) then Some(held) else None
    case Submit(_, t, _) => if held == Some(t) then Some(held) else None
    case _ => Some(held)
  }

  /** The texture held after a trace that keeps the discipline, or None. */
  function TextureRun(held: Option<nat>, effects: seq<Effect>): Option<Option<nat>>
    decreases |effects|
  {
    if effects == [] then Some(held)
    else match ApplyEffect(held, effects[0])
      case None => None
      case Some(h) => TextureRun(h, effects[1..])
  }

  lemma {:induction false} TextureRunAppend(held: Option<nat>, a: seq<Effect>, b: seq<Effect>)
    ensures TextureRun(held, a + b)
            == match TextureRun(held, a) case None => None case Some(h) => TextureRun(h, b)
    decreases |a|
  {
    if a == [] {
      assert a + b == b;
    } else {
      assert (a + b)[0] == a[0] && (a + b)[1..] == a[1..] + b;
      match ApplyEffect(held, a[0])
      case None =>
      case Some(h) => TextureRunAppend(h, a[1..], b);
    }
  }

  lemma TextureRunCons(held: Option<nat>, e: Effect, rest: seq<Effect>)
    ensures TextureRun(held, [e] + rest)
            == match ApplyEffect(held, e) case None => None case Some(h) => TextureRun(h, rest)
  {
    assert ([e] + rest)[0] == e && ([e] + rest)[1..] == rest;
  }

  /** Swapping releases what was held before the new texture is borrowed. */
  lemma SwapKeepsDiscipline(held: Option<nat>, target: nat, width: nat, height: nat)
    ensures TextureRun(held, SwapEffects(held, target, width, height)) == Some(Some(target))
  {
    var release := match held case Some(t) => [Release(t)] case None => [];
    TextureRunAppend(held, release, [Borrow(target, width, height)]);
    if held.Some? {
      TextureRunCons(held, Release(held.value), []);
    }
    TextureRunCons(None, Borrow(target, width, height), []);
  }

  /** Drawing and submitting an eye uses the held texture and keeps it held. */
  lemma EyeKeepsDiscipline(eye: Eye, target: nat, world: Matrix, ipd: real, correction: real)
    ensures TextureRun(Some(target), EyeEffects(eye, target, world, ipd, correction)) == Some(Some(target))
  {
    var drawAndSubmit := EyeEffects(eye, target, world, ipd, correction);
    assert drawAndSubmit == [drawAndSubmit[0]] + ([drawAndSubmit[1]] + []);
    TextureRunCons(Some(target), drawAndSubmit[0], [drawAndSubmit[1]]);
    TextureRunCons(Some(target), drawAndSubmit[1], []);
  }

  /**
   * A steady-state frame releases what was held, then holds the new
   * texture, and draws into and submits nothing else.
   */
  lemma SteadyFrameKeepsDiscipline(held: Option<nat>, target: nat, width: nat, height: nat,
                                   rightWorld: Matrix, leftWorld: Matrix, ipd: real, correction: real)
    ensures TextureRun(held, SteadyFrame(held, target, width, height, rightWorld, leftWorld, ipd, correction))
            == Some(Some(target))
  {
    var swap := SwapEffects(held, target, width, height);
    var right := EyeEffects(Right, target, rightWorld, ipd, correction);
    var left := EyeEffects(Left, target, leftWorld, ipd, correction);
    TextureRunAppend(held, swap + right, left);
    TextureRunAppend(held, swap, right);
    SwapKeepsDiscipline(held, target, width, height);
    EyeKeepsDiscipline(Right, target, rightWorld, ipd, correction);
    EyeKeepsDiscipline(Left, target, leftWorld, ipd, correction);
  }

  /** The eyes submitted to the compositor, in order. */
  function Submissions(effects: seq<Effect>): seq<Eye>
    decreases |effects|
  {
    if effects == [] then []
    else (if effects[0].Submit? then [effects[0].eye] else []) + Submissions(effects[1..])
  }

  lemma {:induction false} SubmissionsAppend(a: seq<Effect>, b: seq<Effect>)
    ensures Submissions(a + b) == Submissions(a) + Submissions(b)
    decreases |a|
  {
    if a == [] {
      assert a + b == b;
    } else {
      assert (a + b)[0] == a[0] && (a + b)[1..] == a[1..] + b;
      SubmissionsAppend(a[1..], b);
    }
  }

  /** A steady-state frame submits the right eye, then the left eye, each once. */
  lemma SteadyFrameSubmitsRightThenLeft(held: Option<nat>, target: nat, width: nat, height: nat,
                                        rightWorld: Matrix, leftWorld: Matrix, ipd: real, correction: real)
    ensures Submissions(SteadyFrame(held, target, width, height, rightWorld, leftWorld, ipd, correction))
            == [Right, Left]
  {
    var release := match held case Some(t) => [Release(t)] case None => [];
    var swap := SwapEffects(held, target, width, height);
    var right := EyeEffects(Right, target, rightWorld, ipd, correction);
    var left := EyeEffects(Left, target, leftWorld, ipd, correction);
    SubmissionsAppend(swap + right, left);
    SubmissionsAppend(swap, right);
    SubmissionsAppend(release, [Borrow(target, width, height)]);
    assert Submissions(right) == [Right] by {
      assert right[1..][1..] == [];
    }
    assert Submissions(left) == [Left] by {
      assert left[1..][1..] == [];
    }
  }

  /** Every draw in the trace used the inverse of its world matrix as its view matrix. */
  ghost predicate ViewsInvertWorlds(effects: seq<Effect>)
  {
    forall i :: 0 <= i < |effects| && effects[i].Draw? ==> effects[i].view == Invert(effects[i].world)
  }

  /** The trace invariant of a headset, carried over an appended stretch of effects. */
  lemma TraceInvariantAppend(effects: seq<Effect>, held: Option<nat>, more: seq<Effect>, after: Option<nat>)
    requires TextureRun(None, effects) == Some(held) && ViewsInvertWorlds(effects)
    requires TextureRun(held, more) == Some(after) && ViewsInvertWorlds(more)
    ensures TextureRun(None, effects + more) == Some(after) && ViewsInvertWorlds(effects + more)
  {
    TextureRunAppend(None, effects, more);
    var all := effects + more;
    forall i | 0 <= i < |all| && all[i].Draw?
      ensures all[i].view == Invert(all[i].world)
    {
      if i < |effects| {
        assert all[i] == effects[i];
      } else {
        assert all[i] == more[i - |effects|];
      }
    }
  }

  /** Recreating the screen resources touches neither the texture nor any draw. */
  lemma ResourceEffectsKeepDiscipline(held: Option<nat>, width: nat, height: nat)
    ensures TextureRun(held, [SetResolution(width, height), CreateScreenResources]) == Some(held)
    ensures ViewsInvertWorlds([SetResolution(width, height), CreateScreenResources])
  {
    TextureRunCons(held, SetResolution(width, height), [CreateScreenResources]);
    TextureRunCons(held, CreateScreenResources, []);
    assert [SetResolution(width, height), CreateScreenResources]
           == [SetResolution(width, height)] + [CreateScreenResources];
    assert [CreateScreenResources] == [CreateScreenResources] + [];
  }

  /** The game camera (MySector.MainCamera): the two matrices the frame overwrites and restores. */
  class Camera {
    var worldMatrix: Matrix
    var viewMatrix: Matrix

    constructor (worldMatrix: Matrix, viewMatrix: Matrix)
      ensures this.worldMatrix == worldMatrix && this.viewMatrix == viewMatrix
    {
      this.worldMatrix := worldMatrix;
      this.viewMatrix := viewMatrix;
    }
  }

  class Headset {
    var realWorldPos: Matrix
    /** The per-eye output viewport the runtime reports at construction. */
    const width: nat
    const height: nat
    const textureBounds: TextureBounds
    var ipd: real
    var ipdCorrection: real
    var firstUpdate: bool
    /** The borrowed render target, if any. */
    var texture: Option<nat>
    /** Everything asked of the renderer, the pool and the compositor so far. */
    var effects: seq<Effect>

    ghost predicate Valid()
      reads this
    {
      && textureBounds == FullTexture
      && TextureRun(None, effects) == Some(texture)
      && ViewsInvertWorlds(effects)
      && IpdCorrectionInRange(ipdCorrection)
    }

    constructor (width: nat, height: nat)
      ensures Valid()
      ensures this.width == width && this.height == height
      ensures firstUpdate && texture == None && effects == []
      ensures ipd == 0.0 && ipdCorrection == 0.0 && realWorldPos == Zero
    {
      this.width := width;
      this.height := height;
      textureBounds := FullTexture;
      realWorldPos := Zero;
      ipd := 0.0;
      ipdCorrection := 0.0;
      firstUpdate := true;
      texture := None;
      effects := [];
    }

    /**
     * The render callback.  Returns true when the game should draw its own
     * single view this frame.
     */
    method FrameUpdate(cam: Camera?, renderPositions: seq<DevicePose>, eyeToHeadRight: Matrix,
                       eyeToHeadLeft: Matrix, measuredIpd: real, pooled: nat, keys: IpdKeys)
      returns (useDefaultDraw: bool)
      requires Valid()
      requires |renderPositions| == MaxTrackedDeviceCount
      modifies this, cam
      ensures Valid()
      ensures renderPositions[0].poseIsValid && renderPositions[0].deviceIsConnected
              ==> realWorldPos == renderPositions[0].deviceToAbsoluteTracking
      ensures !(renderPositions[0].poseIsValid && renderPositions[0].deviceIsConnected)
              ==> realWorldPos == old(realWorldPos)
      // no camera: wait for one
      ensures cam == null ==>
                && useDefaultDraw && firstUpdate
                && effects == old(effects) && texture == old(texture)
                && ipd == old(ipd) && ipdCorrection == old(ipdCorrection)
      // first frame with a camera: resources only
      ensures cam != null && old(firstUpdate) ==>
                && useDefaultDraw && !firstUpdate
                && effects == old(effects) + [SetResolution(width, height), CreateScreenResources]
                && texture == old(texture) && ipd == old(ipd) && ipdCorrection == old(ipdCorrection)
                && cam.worldMatrix == old(cam.worldMatrix) && cam.viewMatrix == old(cam.viewMatrix)
      // steady state: both eyes, camera restored
      ensures cam != null && !old(firstUpdate) ==>
                && !useDefaultDraw && !firstUpdate
                && texture == Some(pooled) && ipd == measuredIpd
                && ipdCorrection == NextIpdCorrection(old(ipdCorrection), keys)
                && cam.worldMatrix == old(cam.worldMatrix) && cam.viewMatrix == old(cam.viewMatrix)
                && effects == old(effects)
                   + SteadyFrame(old(texture), pooled, width, height,
                                 EyeWorld(realWorldPos, eyeToHeadRight, old(cam.worldMatrix)),
                                 EyeWorld(realWorldPos, eyeToHeadLeft, old(cam.worldMatrix)),
                                 measuredIpd, old(ipdCorrection))
    {
      GetNewPositions(renderPositions);

      if cam == null {
        firstUpdate := true;
        return true;
      }

      if firstUpdate {
        ResourceEffectsKeepDiscipline(texture, width, height);
        TraceInvariantAppend(effects, texture, [SetResolution(width, height), CreateScreenResources], texture);
        effects := effects + [SetResolution(width, height), CreateScreenResources];
        firstUpdate := false;
        return true;
      }

      RenderEyes(cam, eyeToHeadRight, eyeToHeadLeft, measuredIpd, pooled);
      UpdateIpdCorrection(keys);
      return false;
    }

    /**
     * The steady-state part of FrameUpdate: derive both eye transforms,
     * swap the borrowed texture, and draw and submit the right eye, then the
     * left eye, restoring the camera's matrices afterwards.
     */
    method RenderEyes(cam: Camera, eyeToHeadRight: Matrix, eyeToHeadLeft: Matrix, measuredIpd: real, pooled: nat)
      requires Valid()
      modifies this`ipd, this`texture, this`effects, cam
      ensures Valid()
      ensures texture == Some(pooled) && ipd == measuredIpd
      ensures cam.worldMatrix == old(cam.worldMatrix) && cam.viewMatrix == old(cam.viewMatrix)
      ensures effects == old(effects)
                         + SteadyFrame(old(texture), pooled, width, height,
                                       EyeWorld(realWorldPos, eyeToHeadRight, old(cam.worldMatrix)),
                                       EyeWorld(realWorldPos, eyeToHeadLeft, old(cam.worldMatrix)),
                                       measuredIpd, ipdCorrection)
    {
      var orientation := Orientation(Invert(realWorldPos));
      var rightEye := Mul(orientation, eyeToHeadRight);
      var leftEye := Mul(orientation, eyeToHeadLeft);
      ipd := measuredIpd;
      rightEye := Mul(rightEye, cam.worldMatrix);
      leftEye := Mul(leftEye, cam.worldMatrix);

      SwapTexture(pooled);

      // save, overwrite per eye, restore
      var originalWm := cam.worldMatrix;
      var originalVm := cam.viewMatrix;
      cam.worldMatrix := rightEye;
      DrawEye(Right, cam);
      cam.worldMatrix := leftEye;
      DrawEye(Left, cam);
      cam.worldMatrix := originalWm;
      cam.viewMatrix := originalVm;
    }

    /** `texture?.Release()` followed by a fresh borrow from the pool. */
    method SwapTexture(pooled: nat)
      requires Valid()
      modifies this`texture, this`effects
      ensures Valid() && texture == Some(pooled)
      ensures effects == old(effects) + SwapEffects(old(texture), pooled, width, height)
    {
      SwapKeepsDiscipline(texture, pooled, width, height);
      TraceInvariantAppend(effects, texture, SwapEffects(texture, pooled, width, height), Some(pooled));
      if texture.Some? {
        effects := effects + [Release(texture.value)];
      }
      effects := effects + [Borrow(pooled, width, height)];
      texture := Some(pooled);
      assert effects == old(effects) + SwapEffects(old(texture), pooled, width, height);
    }

    method UpdateIpdCorrection(keys: IpdKeys)
      requires IpdCorrectionInRange(ipdCorrection)
      modifies this`ipdCorrection
      ensures ipdCorrection == NextIpdCorrection(old(ipdCorrection), keys)
      ensures IpdCorrectionInRange(ipdCorrection)
    {
      if keys.anyAlt && keys.anyCtrl {
        if keys.add && ipdCorrection < IpdCorrectionThreshold {
          ipdCorrection := ipdCorrection + IpdCorrectionStep;
        }
        if keys.subtract && ipdCorrection > IpdCorrectionThreshold {
          ipdCorrection := ipdCorrection - IpdCorrectionStep;
        }
      }
    }

    /** Draw one eye into the held texture, then submit it. */
    method DrawEye(eye: Eye, cam: Camera)
      requires Valid() && texture.Some?
      modifies this`effects, cam`viewMatrix
      ensures Valid()
      ensures cam.viewMatrix == Invert(cam.worldMatrix)
      ensures effects == old(effects) + EyeEffects(eye, texture.value, cam.worldMatrix, ipd, ipdCorrection)
    {
      EyeKeepsDiscipline(eye, texture.value, cam.worldMatrix, ipd, ipdCorrection);
      TraceInvariantAppend(effects, texture, EyeEffects(eye, texture.value, cam.worldMatrix, ipd, ipdCorrection),
                           texture);
      var offsetX := UploadCameraViewMatrix(eye, cam);
      effects := effects + [Draw(eye, texture.value, cam.worldMatrix, cam.viewMatrix, offsetX)];
      effects := effects + [Submit(eye, texture.value, textureBounds)];
      assert effects == old(effects) + EyeEffects(eye, texture.value, cam.worldMatrix, ipd, ipdCorrection);
    }

    /**
     * Set the camera's view matrix from its world matrix and give the
     * horizontal projection offset the camera message carries.
     */
    method UploadCameraViewMatrix(eye: Eye, cam: Camera) returns (offsetX: real)
      modifies cam`viewMatrix
      ensures cam.viewMatrix == Invert(cam.worldMatrix)
      ensures eye == Left ==> offsetX == -(ipd + ipdCorrection)
      ensures eye == Right ==> offsetX == ipd + ipdCorrection
      ensures offsetX == ProjectionOffsetX(eye, ipd, ipdCorrection)
    {
      cam.viewMatrix := Invert(cam.worldMatrix);
      offsetX := (if eye == Left then -1.0 else 1.0) * (ipd + ipdCorrection);
    }

    /** Refresh the head pose from device 0's render pose, if it is valid and connected. */
    method GetNewPositions(renderPositions: seq<DevicePose>)
      requires |renderPositions| == MaxTrackedDeviceCount
      modifies this`realWorldPos
      ensures renderPositions[0].poseIsValid && renderPositions[0].deviceIsConnected
              ==> realWorldPos == renderPositions[0].deviceToAbsoluteTracking
      ensures !(renderPositions[0].poseIsValid && renderPositions[0].deviceIsConnected)
              ==> realWorldPos == old(realWorldPos)
    {
      if !renderPositions[0].poseIsValid || !renderPositions[0].deviceIsConnected {
        return;
      }
      realWorldPos := renderPositions[0].deviceToAbsoluteTracking;
    }
  }

  /**
   * Frames without a camera, then one with a camera: nothing is borrowed,
   * drawn or submitted, and the camera frame only (re)creates the screen
   * resources.
   */
  method WaitForCamera(h: Headset, framesWithoutCamera: nat, cam: Camera, renderPositions: seq<DevicePose>,
                       eyeToHeadRight: Matrix, eyeToHeadLeft: Matrix, measuredIpd: real, pooled: nat,
                       keys: IpdKeys)
    returns (allDefault: bool)
    requires h.Valid() && framesWithoutCamera > 0
    requires |renderPositions| == MaxTrackedDeviceCount
    modifies h, cam
    ensures h.Valid() && allDefault && !h.firstUpdate
    ensures h.effects == old(h.effects) + [SetResolution(h.width, h.height), CreateScreenResources]
    ensures h.texture == old(h.texture)
    ensures Submissions(h.effects) == Submissions(old(h.effects))
    ensures cam.worldMatrix == old(cam.worldMatrix) && cam.viewMatrix == old(cam.viewMatrix)
  {
    allDefault := true;
    var i := 0;
    while i < framesWithoutCamera
      invariant 0 <= i <= framesWithoutCamera
      invariant h.Valid() && h.effects == old(h.effects) && h.texture == old(h.texture)
      invariant i > 0 ==> h.firstUpdate
      invariant allDefault
      invariant cam.worldMatrix == old(cam.worldMatrix) && cam.viewMatrix == old(cam.viewMatrix)
    {
      var d := h.FrameUpdate(null, renderPositions, eyeToHeadRight, eyeToHeadLeft, measuredIpd, pooled, keys);
      allDefault := allDefault && d;
      i := i + 1;
    }
    var d := h.FrameUpdate(cam, renderPositions, eyeToHeadRight, eyeToHeadLeft, measuredIpd, pooled, keys);
    allDefault := allDefault && d;
    SubmissionsAppend(old(h.effects), [SetResolution(h.width, h.height), CreateScreenResources]);
    ghost var init := [SetResolution(h.width, h.height), CreateScreenResources];
    assert init[1..] == [CreateScreenResources] && init[1..][1..] == [];
    assert Submissions(init[1..][1..]) == [];
    assert Submissions(init[1..]) == [];
    assert Submissions(init) == [];
  }
}
