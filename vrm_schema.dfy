/**
 * The fixed vocabularies the avatar library supplies: the humanoid bone names
 * and the blend-shape (expression) preset names the viewer uses.
 */
module VrmSchema {

  /** The humanoid bone names, in the order the library's enumeration declares them. */
  datatype BoneName =
    | Chest | Head | Hips | Jaw
    | LeftEye | LeftFoot | LeftHand
    | LeftIndexDistal | LeftIndexIntermediate | LeftIndexProximal
    | LeftLittleDistal | LeftLittleIntermediate | LeftLittleProximal
    | LeftLowerArm | LeftLowerLeg
    | LeftMiddleDistal | LeftMiddleIntermediate | LeftMiddleProximal
    | LeftRingDistal | LeftRingIntermediate | LeftRingProximal
    | LeftShoulder
    | LeftThumbDistal | LeftThumbIntermediate | LeftThumbProximal
    | LeftToes | LeftUpperArm | LeftUpperLeg
    | Neck
    | RightEye | RightFoot | RightHand
    | RightIndexDistal | RightIndexIntermediate | RightIndexProximal
    | RightLittleDistal | RightLittleIntermediate | RightLittleProximal
    | RightLowerArm | RightLowerLeg
    | RightMiddleDistal | RightMiddleIntermediate | RightMiddleProximal
    | RightRingDistal | RightRingIntermediate | RightRingProximal
    | RightShoulder
    | RightThumbDistal | RightThumbIntermediate | RightThumbProximal
    | RightToes | RightUpperArm | RightUpperLeg
    | Spine | UpperChest

  /** `Object.values(HumanoidBoneName)`: every bone name, in declaration order. */
  const AllBoneNames: seq<BoneName> :=
    [Chest, Head, Hips, Jaw, LeftEye, LeftFoot, LeftHand, LeftIndexDistal, LeftIndexIntermediate, LeftIndexProximal, LeftLittleDistal] +
    [LeftLittleIntermediate, LeftLittleProximal, LeftLowerArm, LeftLowerLeg, LeftMiddleDistal, LeftMiddleIntermediate, LeftMiddleProximal, LeftRingDistal, LeftRingIntermediate, LeftRingProximal, LeftShoulder] +
    [LeftThumbDistal, LeftThumbIntermediate, LeftThumbProximal, LeftToes, LeftUpperArm, LeftUpperLeg, Neck, RightEye, RightFoot, RightHand, RightIndexDistal] +
    [RightIndexIntermediate, RightIndexProximal, RightLittleDistal, RightLittleIntermediate, RightLittleProximal, RightLowerArm, RightLowerLeg, RightMiddleDistal, RightMiddleIntermediate, RightMiddleProximal, RightRingDistal] +
    [RightRingIntermediate, RightRingProximal, RightShoulder, RightThumbDistal, RightThumbIntermediate, RightThumbProximal, RightToes, RightUpperArm, RightUpperLeg, Spine, UpperChest]

  /** The position of a bone name in the enumeration. */
  function BoneOrdinal(b: BoneName): (k: nat)
    ensures k < |AllBoneNames| && AllBoneNames[k] == b
  {
    match b
    case Chest => 0
    case Head => 1
    case Hips => 2
    case Jaw => 3
    case LeftEye => 4
    case LeftFoot => 5
    case LeftHand => 6
    case LeftIndexDistal => 7
    case LeftIndexIntermediate => 8
    case LeftIndexProximal => 9
    case LeftLittleDistal => 10
    case LeftLittleIntermediate => 11
    case LeftLittleProximal => 12
    case LeftLowerArm => 13
    case LeftLowerLeg => 14
    case LeftMiddleDistal => 15
    case LeftMiddleIntermediate => 16
    case LeftMiddleProximal => 17
    case LeftRingDistal => 18
    case LeftRingIntermediate => 19
    case LeftRingProximal => 20
    case LeftShoulder => 21
    case LeftThumbDistal => 22
    case LeftThumbIntermediate => 23
    case LeftThumbProximal => 24
    case LeftToes => 25
    case LeftUpperArm => 26
    case LeftUpperLeg => 27
    case Neck => 28
    case RightEye => 29
    case RightFoot => 30
    case RightHand => 31
    case RightIndexDistal => 32
    case RightIndexIntermediate => 33
    case RightIndexProximal => 34
    case RightLittleDistal => 35
    case RightLittleIntermediate => 36
    case RightLittleProximal => 37
    case RightLowerArm => 38
    case RightLowerLeg => 39
    case RightMiddleDistal => 40
    case RightMiddleIntermediate => 41
    case RightMiddleProximal => 42
    case RightRingDistal => 43
    case RightRingIntermediate => 44
    case RightRingProximal => 45
    case RightShoulder => 46
    case RightThumbDistal => 47
    case RightThumbIntermediate => 48
    case RightThumbProximal => 49
    case RightToes => 50
    case RightUpperArm => 51
    case RightUpperLeg => 52
    case Spine => 53
    case UpperChest => 54
  }

  lemma AllBoneNamesComplete(b: BoneName)
    ensures b in AllBoneNames
  {
    var k := BoneOrdinal(b);
  }

  /** The bones that never get a manipulator: the jaw and both eyes. */
  const UncontrollableBoneNames: seq<BoneName> := [Jaw, LeftEye, RightEye]

  /** `s.filter(b => !excluded.includes(b))`. */
  function FilterOut(s: seq<BoneName>, excluded: seq<BoneName>): (r: seq<BoneName>)
    ensures |r| <= |s|
  {
    if s == [] then []
    else (if s[0] in excluded then [] else [s[0]]) + FilterOut(s[1..], excluded)
  }

  /** The filter keeps exactly the names not excluded. */
  lemma {:induction false} FilterOutMembers(s: seq<BoneName>, excluded: seq<BoneName>, b: BoneName)
    ensures b in FilterOut(s, excluded) <==> b in s && b !in excluded
  {
    if s != [] {
      FilterOutMembers(s[1..], excluded, b);
      assert s == [s[0]] + s[1..];
    }
  }

  /** `controlableBoneNameArray`, computed once at module load. */
  const ControllableBoneNames: seq<BoneName> := FilterOut(AllBoneNames, UncontrollableBoneNames)

  /** Whether a bone gets a manipulator. */
  predicate Controllable(b: BoneName)
  {
    b !in UncontrollableBoneNames
  }

  /** A bone gets a manipulator exactly when it is not the jaw or an eye. */
  lemma ControllableBoneNamesSpec(b: BoneName)
    ensures b in ControllableBoneNames <==> Controllable(b)
    ensures Controllable(b) <==> b != Jaw && b != LeftEye && b != RightEye
  {
    AllBoneNamesComplete(b);
    FilterOutMembers(AllBoneNames, UncontrollableBoneNames, b);
  }

  /** The blend-shape presets the viewer drives. */
  datatype BlendShapeName =
    | Angry | Fun | Joy | Sorrow
    | Blink | BlinkR | BlinkL
    | A | I | U | E | O

  /** The keys of the initial weight map, in its order. */
  const AllBlendShapeNames: seq<BlendShapeName> := [Angry, Fun, Joy, Sorrow, Blink, BlinkR, BlinkL, A, I, U, E, O]

  lemma AllBlendShapeNamesComplete(n: BlendShapeName)
    ensures n in AllBlendShapeNames
  {
  }
}
