/**
 * The idle ("waiting") motion: a fixed keyframe table of small rotations,
 * applied to seven upper-body bones about one axis each, some mirrored.
 * Angles are kept in units of π, so the table is exact.
 */
module IdleMotion {
  import opened VrmSchema

  datatype Axis = X | Y | Z

  /** The `Axis` enum's numeric value. */
  function AxisIndex(a: Axis): (i: nat)
    ensures i < 3
    ensures (a == X <==> i == 0) && (a == Y <==> i == 1) && (a == Z <==> i == 2)
  {
    match a
    case X => 0
    case Y => 1
    case Z => 2
  }

  /** A keyframe: its time in seconds and its angle in units of π. */
  datatype Keyframe = Keyframe(time: real, angle: real)

  /** `waitingAnimationFrameVal`, in key order. */
  const WaitingFrames: seq<Keyframe> := [
    Keyframe(0.0, 0.0),
    Keyframe(0.8, 1.0 / 108.0),
    Keyframe(1.8, 1.0 / 64.0),
    Keyframe(2.2, 1.0 / 72.0),
    Keyframe(3.4, 0.0),
    Keyframe(4.0, -1.0 / 212.0),
    Keyframe(4.5, -1.0 / 256.0),
    Keyframe(4.8, 0.0)
  ]

  /** One track of the idle clip: the bone, the axis it turns about, and whether it is mirrored. */
  datatype Track = Track(bone: BoneName, axis: Axis, inverse: bool)

  /** The hierarchy playWaitingAnimation builds, in order. */
  const WaitingTracks: seq<Track> := [
    Track(Neck, X, false),
    Track(Chest, X, false),
    Track(Spine, X, true),
    Track(RightShoulder, Z, false),
    Track(RightUpperArm, Z, true),
    Track(LeftShoulder, Z, true),
    Track(LeftUpperArm, Z, false)
  ]

  function Sign(inverse: bool): real
  {
    if inverse then -1.0 else 1.0
  }

  /** The Euler triple of one keyframe: the angle on the track's axis, zero on the others. */
  function EulerTriple(v: real, axis: Axis): (e: seq<real>)
    ensures |e| == 3
  {
    seq(3, i requires 0 <= i < 3 => if i == AxisIndex(axis) then v else 0.0)
  }

  /** The loop of getWaitingAnimationFrameVal that builds `eulerArray`. */
  method EulerArray(frameVal: real, axis: Axis, sign: real) returns (e: seq<real>)
    ensures e == EulerTriple(frameVal * sign, axis)
    ensures e[AxisIndex(axis)] == frameVal * sign
    ensures forall i :: 0 <= i < 3 && i != AxisIndex(axis) ==> e[i] == 0.0
  {
    e := [];
    var i := 0;
    while i < 3
      invariant 0 <= i <= 3
      invariant |e| == i
      invariant forall j :: 0 <= j < i ==> e[j] == if j == AxisIndex(axis) then frameVal * sign else 0.0
    {
      if i == AxisIndex(axis) {
        e := e + [frameVal * sign];
      } else {
        e := e + [0.0];
      }
      i := i + 1;
    }
  }

  /** A key of a track: its time and its Euler triple (the composition with the rest pose is not modelled). */
  datatype TrackKey = TrackKey(time: real, euler: seq<real>)

  /** getWaitingAnimation: one key per keyframe. */
  function TrackKeys(t: Track): (keys: seq<TrackKey>)
    ensures |keys| == |WaitingFrames|
  {
    seq(|WaitingFrames|, k requires 0 <= k < |WaitingFrames| =>
      TrackKey(WaitingFrames[k].time, EulerTriple(WaitingFrames[k].angle * Sign(t.inverse), t.axis)))
  }

  /** Keyframe times strictly increase, so the clip is well ordered. */
  lemma WaitingFramesOrdered(j: nat, k: nat)
    requires j < k < |WaitingFrames|
    ensures WaitingFrames[j].time < WaitingFrames[k].time
  {
  }

  /** Each key turns its bone about the track's axis only, and the loop starts and ends at rest. */
  lemma TrackKeysShape(t: Track, k: nat, i: nat)
    requires k < |WaitingFrames| && i < 3
    ensures i != AxisIndex(t.axis) ==> TrackKeys(t)[k].euler[i] == 0.0
    ensures TrackKeys(t)[0].euler == TrackKeys(t)[|WaitingFrames| - 1].euler == [0.0, 0.0, 0.0]
  {
    assert TrackKeys(t)[k].euler == EulerTriple(WaitingFrames[k].angle * Sign(t.inverse), t.axis);
  }

  /** A mirrored track is the exact negation of the plain one. */
  lemma MirroredTrackNegates(b: BoneName, a: Axis, k: nat, i: nat)
    requires k < |WaitingFrames| && i < 3
    ensures TrackKeys(Track(b, a, true))[k].euler[i] == -TrackKeys(Track(b, a, false))[k].euler[i]
    ensures TrackKeys(Track(b, a, true))[k].time == TrackKeys(Track(b, a, false))[k].time
  {
  }
}
