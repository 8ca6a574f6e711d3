/**
 * The per-device pose state machine of SpaceEngineersVR/Player/TrackedDevice.cs.
 *
 * Every update hands the device one raw sample of the tracking runtime.
 * The stored pose takes over the sample's two flags, its geometry only while
 * the device is tracked, and the change of each flag is reported as an edge:
 * connected / disconnected, started / lost tracking.  The main pose turns
 * those edges into calls of four overridable hooks, recorded here as a trace.
 */
module Tracking {
  import opened Options
  import opened Transforms

  /** OpenVR.k_unTrackedDeviceIndexInvalid, the id of a device not bound yet. */
  const TrackedDeviceIndexInvalid: nat := 0xFFFF_FFFF

  /**
   * One raw sample of the runtime (TrackedDevicePose_t).  The runtime's 3x4
   * matrix and vectors appear already converted (ToMatrix, ToVector).
   */
  datatype DevicePose = DevicePose(
    deviceIsConnected: bool,
    poseIsValid: bool,
    deviceToAbsoluteTracking: Matrix,
    velocity: Vector3,
    angularVelocity: Vector3)

  /** The stored pose of a device (the struct TrackedDevice.Pose). */
  datatype Pose = Pose(
    isConnected: bool,
    isTracked: bool,
    deviceToAbsolute: MatrixAndInvert,
    velocity: Vector3,
    angularVelocity: Vector3)

  /**
   * The value `new()` gives a Pose.  Pose declares a constructor with
   * parameters and none without, so in C# `new()` is `default(Pose)` and
   * the field initialisers (identity transform) do not run: every field
   * holds its default, and the transform is the default matrix, not the
   * identity.
   */
  const NewPose: Pose := Pose(false, false, DefaultAndInvert, Zero3, Zero3)

  /** The four out-flags of SetPoseData. */
  datatype Edges = Edges(wasConnected: bool, wasDisconnected: bool, startedTracking: bool, lostTracking: bool)

  const NoEdges: Edges := Edges(false, false, false, false)

  /** The overridable hooks a main-pose update may call. */
  datatype Hook = OnConnected | OnDisconnected | OnStartTracking | OnLostTracking

  /** The pose an update leaves behind. */
  function NextPose(pose: Pose, value: DevicePose): Pose
  {
    if value.poseIsValid then
      Pose(value.deviceIsConnected, true, WithInverse(value.deviceToAbsoluteTracking),
           value.velocity, value.angularVelocity)
    else
      pose.(isConnected := value.deviceIsConnected, isTracked := false)
  }

  /** The edges an update reports: a flag that changes, in the direction it changes. */
  function EdgesOf(pose: Pose, value: DevicePose): Edges
  {
    Edges(!pose.isConnected && value.deviceIsConnected,
          pose.isConnected && !value.deviceIsConnected,
          !pose.isTracked && value.poseIsValid,
          pose.isTracked && !value.poseIsValid)
  }

  /** The hooks SetMainPoseData calls for the given edges, in its order. */
  function HooksFor(e: Edges): seq<Hook>
  {
    (if e.wasConnected then [OnConnected] else [])
    + (if e.wasDisconnected then [OnDisconnected] else [])
    + (if e.startedTracking then [OnStartTracking] else [])
    + (if e.lostTracking then [OnLostTracking] else [])
  }

  /**
   * TrackedDevice.SetPoseData.  The source updates the pose through a ref
   * parameter; here the old pose goes in and the new one comes out.
   */
  method SetPoseData(pose: Pose, value: DevicePose)
    returns (newPose: Pose, wasConnected: bool, wasDisconnected: bool, startedTracking: bool, lostTracking: bool)
    ensures newPose.isConnected == value.deviceIsConnected
    ensures newPose.isTracked == value.poseIsValid
    ensures wasConnected <==> !pose.isConnected && value.deviceIsConnected
    ensures wasDisconnected <==> pose.isConnected && !value.deviceIsConnected
    ensures startedTracking <==> !pose.isTracked && value.poseIsValid
    ensures lostTracking <==> pose.isTracked && !value.poseIsValid
    ensures !(wasConnected && wasDisconnected) && !(startedTracking && lostTracking)
    // geometry is refreshed while tracked, and frozen otherwise
    ensures newPose.isTracked ==>
              && newPose.deviceToAbsolute == WithInverse(value.deviceToAbsoluteTracking)
              && newPose.velocity == value.velocity
              && newPose.angularVelocity == value.angularVelocity
    ensures !newPose.isTracked ==>
              && newPose.deviceToAbsolute == pose.deviceToAbsolute
              && newPose.velocity == pose.velocity
              && newPose.angularVelocity == pose.angularVelocity
    ensures newPose == NextPose(pose, value)
    ensures Edges(wasConnected, wasDisconnected, startedTracking, lostTracking) == EdgesOf(pose, value)
  {
    newPose := pose;
    wasConnected, wasDisconnected, startedTracking, lostTracking := false, false, false, false;

    if newPose.isConnected != value.deviceIsConnected {
      newPose := newPose.(isConnected := value.deviceIsConnected);
      if value.deviceIsConnected {
        wasConnected := true;
      } else {
        wasDisconnected := true;
      }
    }

    if newPose.isTracked != value.poseIsValid {
      newPose := newPose.(isTracked := value.poseIsValid);
      if value.poseIsValid {
        startedTracking := true;
      } else {
        lostTracking := true;
      }
    }

    if newPose.isTracked {
      newPose := newPose.(deviceToAbsolute := WithInverse(value.deviceToAbsoluteTracking),
                          velocity := value.velocity,
                          angularVelocity := value.angularVelocity);
    }
  }

  /**
   * TrackedDevice.deviceToPlayer for a device whose main pose is `pose`:
   * the device's absolute transform followed by the inverse of the player's.
   */
  function DeviceToPlayerOf(pose: Pose, playerToAbsolute: MatrixAndInvert): Matrix
  {
    Mul(pose.deviceToAbsolute.matrix, playerToAbsolute.inverted)
  }

  class TrackedDevice {
    var renderPose: Pose
    var pose: Pose
    var deviceId: nat
    /** The hook calls made so far, oldest first. */
    var hooks: seq<Hook>

    /** The OpenVR handle lookups of the source constructor are not modelled. */
    constructor ()
      ensures renderPose == NewPose && pose == NewPose
      ensures deviceId == TrackedDeviceIndexInvalid && hooks == []
    {
      renderPose := NewPose;
      pose := NewPose;
      deviceId := TrackedDeviceIndexInvalid;
      hooks := [];
    }

    /** deviceToPlayer reads the main pose only, never the render pose. */
    function DeviceToPlayer(playerToAbsolute: MatrixAndInvert): (r: Matrix)
      reads this`pose
      ensures r.Mul? && r.left == pose.deviceToAbsolute.matrix && r.right == playerToAbsolute.inverted
    {
      DeviceToPlayerOf(pose, playerToAbsolute)
    }

    method SetMainPoseData(value: DevicePose)
      modifies this`pose, this`hooks
      ensures pose == NextPose(old(pose), value)
      ensures hooks == old(hooks) + HooksFor(EdgesOf(old(pose), value))
      ensures renderPose == old(renderPose)
    {
      var p, wasConnected, wasDisconnected, startedTracking, lostTracking := SetPoseData(pose, value);
      pose := p;

      if wasConnected {
        hooks := hooks + [OnConnected];
      }
      if wasDisconnected {
        hooks := hooks + [OnDisconnected];
      }

      if startedTracking {
        hooks := hooks + [OnStartTracking];
      }
      if lostTracking {
        hooks := hooks + [OnLostTracking];
      }
    }

    method SetRenderPoseData(value: DevicePose)
      modifies this`renderPose
      ensures renderPose == NextPose(old(renderPose), value)
      ensures pose == old(pose) && hooks == old(hooks)
    {
      var p, _, _, _, _ := SetPoseData(renderPose, value);
      renderPose := p;
    }
  }

  /**
   * A fresh device fed (disconnected, untracked), (connected, untracked),
   * (connected, tracked) calls OnConnected once, then OnStartTracking once,
   * and nothing else.
   */
  method ConnectThenTrack(m: Matrix, v: Vector3, w: Vector3) returns (hooks: seq<Hook>, pose: Pose)
    ensures hooks == [OnConnected, OnStartTracking]
    ensures pose.isConnected && pose.isTracked && pose.deviceToAbsolute == WithInverse(m)
  {
    var d := new TrackedDevice();
    d.SetMainPoseData(DevicePose(false, false, m, v, w));
    d.SetMainPoseData(DevicePose(true, false, m, v, w));
    d.SetMainPoseData(DevicePose(true, true, m, v, w));
    hooks, pose := d.hooks, d.pose;
  }

  /** Applying the same sample twice: the second update changes nothing and reports nothing. */
  lemma RepeatedSampleIsSilent(pose: Pose, value: DevicePose)
    ensures EdgesOf(NextPose(pose, value), value) == NoEdges
    ensures HooksFor(EdgesOf(NextPose(pose, value), value)) == []
    ensures NextPose(NextPose(pose, value), value) == NextPose(pose, value)
  {
  }

  /** While the sample is not tracked, the device's player-space transform stays put. */
  lemma DeviceToPlayerFrozenWhileUntracked(pose: Pose, value: DevicePose, playerToAbsolute: MatrixAndInvert)
    ensures !value.poseIsValid ==>
              DeviceToPlayerOf(NextPose(pose, value), playerToAbsolute) == DeviceToPlayerOf(pose, playerToAbsolute)
    ensures value.poseIsValid ==>
              DeviceToPlayerOf(NextPose(pose, value), playerToAbsolute)
              == Mul(value.deviceToAbsoluteTracking, playerToAbsolute.inverted)
  {
  }

  // ---------------------------------------------------------------------------
  // A run of main-pose updates

  /** The main pose after the samples, in order. */
  function PoseAfter(pose: Pose, samples: seq<DevicePose>): Pose
    decreases |samples|
  {
    if samples == [] then pose else PoseAfter(NextPose(pose, samples[0]), samples[1..])
  }

  /** The hooks called along the way. */
  function HooksAfter(pose: Pose, samples: seq<DevicePose>): seq<Hook>
    decreases |samples|
  {
    if samples == [] then []
    else HooksFor(EdgesOf(pose, samples[0])) + HooksAfter(NextPose(pose, samples[0]), samples[1..])
  }

  function Count(h: Hook, hs: seq<Hook>): nat
    decreases |hs|
  {
    if hs == [] then 0 else (if hs[0] == h then 1 else 0) + Count(h, hs[1..])
  }

  lemma {:induction false} CountAppend(h: Hook, a: seq<Hook>, b: seq<Hook>)
    ensures Count(h, a + b) == Count(h, a) + Count(h, b)
    decreases |a|
  {
    if a == [] {
      assert a + b == b;
    } else {
      assert (a + b)[1..] == a[1..] + b;
      CountAppend(h, a[1..], b);
    }
  }

  /** The connectivity flags of the samples. */
  function Connectivity(samples: seq<DevicePose>): (bs: seq<bool>)
    ensures |bs| == |samples|
    ensures forall i :: 0 <= i < |samples| ==> bs[i] == samples[i].deviceIsConnected
    decreases |samples|
  {
    if samples == [] then [] else [samples[0].deviceIsConnected] + Connectivity(samples[1..])
  }

  /** The validity flags of the samples. */
  function Validity(samples: seq<DevicePose>): (bs: seq<bool>)
    ensures |bs| == |samples|
    ensures forall i :: 0 <= i < |samples| ==> bs[i] == samples[i].poseIsValid
    decreases |samples|
  {
    if samples == [] then [] else [samples[0].poseIsValid] + Validity(samples[1..])
  }

  /** How often a boolean signal that starts at `prev` goes from false to true. */
  function Rises(prev: bool, bs: seq<bool>): nat
    decreases |bs|
  {
    if bs == [] then 0 else (if !prev && bs[0] then 1 else 0) + Rises(bs[0], bs[1..])
  }

  /** How often it goes from true to false. */
  function Falls(prev: bool, bs: seq<bool>): nat
    decreases |bs|
  {
    if bs == [] then 0 else (if prev && !bs[0] then 1 else 0) + Falls(bs[0], bs[1..])
  }

  function Bit(b: bool): int { if b then 1 else 0 }

  /** The hooks of one update, counted. */
  lemma HooksForCounts(e: Edges)
    ensures Count(OnConnected, HooksFor(e)) == Bit(e.wasConnected)
    ensures Count(OnDisconnected, HooksFor(e)) == Bit(e.wasDisconnected)
    ensures Count(OnStartTracking, HooksFor(e)) == Bit(e.startedTracking)
    ensures Count(OnLostTracking, HooksFor(e)) == Bit(e.lostTracking)
  {
    var c := if e.wasConnected then [OnConnected] else [];
    var d := if e.wasDisconnected then [OnDisconnected] else [];
    var s := if e.startedTracking then [OnStartTracking] else [];
    var l := if e.lostTracking then [OnLostTracking] else [];
    assert HooksFor(e) == c + d + s + l;
    forall h: Hook
      ensures Count(h, HooksFor(e)) == Count(h, c) + Count(h, d) + Count(h, s) + Count(h, l)
    {
      CountAppend(h, c + d + s, l);
      CountAppend(h, c + d, s);
      CountAppend(h, c, d);
    }
    forall h: Hook, x: Hook ensures Count(h, [x]) == if x == h then 1 else 0 {
      assert [x][1..] == [];
    }
  }

  /**
   * Every hook fires exactly once per actual edge of its flag over a run of
   * samples, and never on a repeated value.
   */
  lemma {:induction false} HooksCountEdges(pose: Pose, samples: seq<DevicePose>)
    ensures Count(OnConnected, HooksAfter(pose, samples)) == Rises(pose.isConnected, Connectivity(samples))
    ensures Count(OnDisconnected, HooksAfter(pose, samples)) == Falls(pose.isConnected, Connectivity(samples))
    ensures Count(OnStartTracking, HooksAfter(pose, samples)) == Rises(pose.isTracked, Validity(samples))
    ensures Count(OnLostTracking, HooksAfter(pose, samples)) == Falls(pose.isTracked, Validity(samples))
    decreases |samples|
  {
    if samples != [] {
      var e := EdgesOf(pose, samples[0]);
      var next := NextPose(pose, samples[0]);
      HooksCountEdges(next, samples[1..]);
      HooksForCounts(e);
      forall h: Hook
        ensures Count(h, HooksAfter(pose, samples))
                == Count(h, HooksFor(e)) + Count(h, HooksAfter(next, samples[1..]))
      {
        CountAppend(h, HooksFor(e), HooksAfter(next, samples[1..]));
      }
      assert Connectivity(samples)[1..] == Connectivity(samples[1..]);
      assert Validity(samples)[1..] == Validity(samples[1..]);
    }
  }

  /**
   * Connections and disconnections alternate: over any run their counts
   * differ exactly by how connectivity moved from start to end; the same
   * holds for starting and losing tracking.
   */
  lemma {:induction false} HooksBalance(pose: Pose, samples: seq<DevicePose>)
    ensures Count(OnConnected, HooksAfter(pose, samples)) - Count(OnDisconnected, HooksAfter(pose, samples))
            == Bit(PoseAfter(pose, samples).isConnected) - Bit(pose.isConnected)
    ensures Count(OnStartTracking, HooksAfter(pose, samples)) - Count(OnLostTracking, HooksAfter(pose, samples))
            == Bit(PoseAfter(pose, samples).isTracked) - Bit(pose.isTracked)
    decreases |samples|
  {
    if samples != [] {
      var e := EdgesOf(pose, samples[0]);
      var next := NextPose(pose, samples[0]);
      HooksBalance(next, samples[1..]);
      HooksForCounts(e);
      forall h: Hook
        ensures Count(h, HooksAfter(pose, samples))
                == Count(h, HooksFor(e)) + Count(h, HooksAfter(next, samples[1..]))
      {
        CountAppend(h, HooksFor(e), HooksAfter(next, samples[1..]));
      }
    }
  }

  /** The last sample of a run that carried a valid pose, if any. */
  function LastValid(samples: seq<DevicePose>): Option<DevicePose>
    decreases |samples|
  {
    if samples == [] then None
    else match LastValid(samples[1..])
      case Some(v) => Some(v)
      case None => if samples[0].poseIsValid then Some(samples[0]) else None
  }

  /**
   * After a run of samples the geometry is that of the last valid sample,
   * or, when there was none, the geometry held before the run: a lost
   * device keeps its last known pose and is never reset.
   */
  lemma {:induction false} GeometryIsLastValidSample(pose: Pose, samples: seq<DevicePose>)
    ensures var after := PoseAfter(pose, samples);
            match LastValid(samples)
            case None =>
              after.deviceToAbsolute == pose.deviceToAbsolute
              && after.velocity == pose.velocity && after.angularVelocity == pose.angularVelocity
            case Some(v) =>
              after.deviceToAbsolute == WithInverse(v.deviceToAbsoluteTracking)
              && after.velocity == v.velocity && after.angularVelocity == v.angularVelocity
    decreases |samples|
  {
    if samples != [] {
      GeometryIsLastValidSample(NextPose(pose, samples[0]), samples[1..]);
    }
  }

  /**
   * A device that has never had a valid sample still holds the default
   * transform of `new()`: its device-to-player matrix is the default
   * matrix times the player's inverse, whatever the run of samples.
   */
  lemma NeverTrackedHoldsDefault(samples: seq<DevicePose>, playerToAbsolute: MatrixAndInvert)
    requires LastValid(samples) == None
    ensures PoseAfter(NewPose, samples).deviceToAbsolute == DefaultAndInvert
    ensures DeviceToPlayerOf(PoseAfter(NewPose, samples), playerToAbsolute) == Mul(Zero, playerToAbsolute.inverted)
  {
    GeometryIsLastValidSample(NewPose, samples);
  }
}
