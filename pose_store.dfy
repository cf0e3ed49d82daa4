/**
 * Pose records and the rules of the two pose tables: the read-only preset
 * table shipped with the viewer and the user table kept in local storage.
 */
module PoseStore {
  import opened Wrappers
  import opened VrmSchema
  import Util

  // ---------------------------------------------------------------------------
  // Pose records
  // ---------------------------------------------------------------------------

  datatype Vector3 = Vector3(x: real, y: real, z: real)

  datatype Quaternion = Quaternion(x: real, y: real, z: real, w: real)

  const Origin := Vector3(0.0, 0.0, 0.0)

  function Sub(a: Vector3, b: Vector3): Vector3
  {
    Vector3(a.x - b.x, a.y - b.y, a.z - b.z)
  }

  function Add(a: Vector3, b: Vector3): Vector3
  {
    Vector3(a.x + b.x, a.y + b.y, a.z + b.z)
  }

  /** One bone's entry in a pose: a rotation and, optionally, a position. */
  datatype BoneTransform = BoneTransform(rotation: Quaternion, position: Option<Vector3>)

  /** A pose: bone name to transform, for the bones it mentions. */
  type PoseData = map<BoneName, BoneTransform>

  /** A named pose as listed in the user interface. */
  datatype PosesData = PosesData(id: string, name: string, data: PoseData, isPreset: bool)

  /** The user table: pose id to pose. */
  type UserPosesMap = map<string, PosesData>

  // ---------------------------------------------------------------------------
  // The preset table
  // ---------------------------------------------------------------------------

  datatype PresetPose = TStance | AStance | StandingContrapposto | DoublePeace

  function PresetId(p: PresetPose): string
  {
    match p
    case TStance => "tStance"
    case AStance => "aStance"
    case StandingContrapposto => "standingContrapposto"
    case DoublePeace => "doublePeace"
  }

  function PresetName(p: PresetPose): string
  {
    match p
    case TStance => "Tスタンス"
    case AStance => "Aスタンス"
    case StandingContrapposto => "モデル立ち"
    case DoublePeace => "ダブルピース"
  }

  /** The bone data of the four bundled pose files, which are not part of this model. */
  datatype PresetAssets = PresetAssets(
    tStance: PoseData, aStance: PoseData, standingContrapposto: PoseData, doublePeace: PoseData)

  function PresetData(assets: PresetAssets, p: PresetPose): PoseData
  {
    match p
    case TStance => assets.tStance
    case AStance => assets.aStance
    case StandingContrapposto => assets.standingContrapposto
    case DoublePeace => assets.doublePeace
  }

  function PresetEntry(assets: PresetAssets, p: PresetPose): PosesData
  {
    PosesData(PresetId(p), PresetName(p), PresetData(assets, p), true)
  }

  /** `presetPosesMap`: each preset under its own id, flagged as a preset. */
  function PresetPosesMap(assets: PresetAssets): (m: map<string, PosesData>)
    ensures m.Keys == {"tStance", "aStance", "standingContrapposto", "doublePeace"}
    ensures forall p: PresetPose :: PresetId(p) in m && m[PresetId(p)] == PresetEntry(assets, p)
    ensures forall id :: id in m ==> m[id].id == id && m[id].isPreset
  {
    map[
      PresetId(TStance) := PresetEntry(assets, TStance),
      PresetId(AStance) := PresetEntry(assets, AStance),
      PresetId(StandingContrapposto) := PresetEntry(assets, StandingContrapposto),
      PresetId(DoublePeace) := PresetEntry(assets, DoublePeace)
    ]
  }

  /** No identifier the UUID generator produces names a preset, so user ids never collide with preset ids. */
  lemma {:induction false} GeneratedIdIsNeverPreset(assets: PresetAssets, rand: seq<real>)
    requires |rand| == |Util.UuidTemplate|
    requires forall i :: 0 <= i < |rand| ==> Util.IsRandom(rand[i])
    ensures Util.UuidFrom(rand) !in PresetPosesMap(assets)
  {
    Util.UuidFromIsV4(rand);
    var u := Util.UuidFrom(rand);
    assert |u| == 36;
  }

  // ---------------------------------------------------------------------------
  // Resolution: preset table first, then the user table
  // ---------------------------------------------------------------------------

  datatype PoseSource = FromPreset(pose: PosesData) | FromUser(pose: PosesData) | NotFound

  /** What `setPose(id)` finds for `id`. */
  function ResolvePose(presets: map<string, PosesData>, users: UserPosesMap, id: string): (r: PoseSource)
    ensures r.FromPreset? <==> id in presets
    ensures r.FromUser? <==> id !in presets && id in users
    ensures r.NotFound? <==> id !in presets && id !in users
    ensures r.FromPreset? ==> r.pose == presets[id]
    ensures r.FromUser? ==> r.pose == users[id]
  {
    if id in presets then FromPreset(presets[id])
    else if id in users then FromUser(users[id])
    else NotFound
  }

  /** A user entry stored under a preset id never hides the preset. */
  lemma PresetShadowsUser(presets: map<string, PosesData>, users: UserPosesMap, id: string, p: PosesData)
    requires id in presets
    ensures ResolvePose(presets, users[id := p], id) == ResolvePose(presets, users, id) == FromPreset(presets[id])
  {
  }

  // ---------------------------------------------------------------------------
  // Building the record that savePoseData stores
  // ---------------------------------------------------------------------------

  /**
   * One bone of the live pose as saved: the rotation only, except that the
   * hips keep their position, made relative to the base position.
   */
  function SavedTransform(b: BoneName, t: BoneTransform, base: Vector3): (r: BoneTransform)
    ensures r.rotation == t.rotation
    ensures r.position.Some? <==> b == Hips
  {
    if b == Hips then BoneTransform(t.rotation, Some(Sub(t.position.GetOr(Origin), base)))
    else BoneTransform(t.rotation, None)
  }

  /** The record savePoseData stores: every bone of the live pose, each as SavedTransform gives it. */
  function PoseForSave(live: PoseData, base: Vector3): (data: PoseData)
    ensures data.Keys == live.Keys
    ensures forall b :: b in data ==> data[b].rotation == live[b].rotation
    ensures forall b :: b in data ==> (data[b].position.Some? <==> b == Hips)
  {
    map b | b in live :: SavedTransform(b, live[b], base)
  }

  /** The per-bone loop of savePoseData over the live pose's entries. */
  method ExtractPose(live: PoseData, base: Vector3) returns (data: PoseData)
    ensures data == PoseForSave(live, base)
    ensures data.Keys == live.Keys
    ensures forall b :: b in data ==> data[b].rotation == live[b].rotation
    ensures forall b :: b in data ==> (data[b].position.Some? <==> b == Hips)
  {
    data := map[];
    var todo := live.Keys;
    while todo != {}
      invariant todo <= live.Keys
      invariant data.Keys == live.Keys - todo
      invariant forall b :: b in data ==> data[b] == SavedTransform(b, live[b], base)
      decreases todo
    {
      var b :| b in todo;
      data := data[b := SavedTransform(b, live[b], base)];
      todo := todo - {b};
    }
  }

  /**
   * The stored hips position is the live hips position (the origin when
   * absent) minus the base position: the hips offset it records is measured
   * from the base, so adding the base to it yields the live position again.
   */
  lemma HipsOffsetFromBase(live: PoseData, base: Vector3)
    requires Hips in live
    ensures PoseForSave(live, base)[Hips].position == Some(Sub(live[Hips].position.GetOr(Origin), base))
    ensures Add(base, PoseForSave(live, base)[Hips].position.value) == live[Hips].position.GetOr(Origin)
  {
  }

  // ---------------------------------------------------------------------------
  // Names and ids of saved poses
  // ---------------------------------------------------------------------------

  function DigitChar(d: int): char
    requires 0 <= d < 10
  {
    ('0' as int + d) as char
  }

  predicate IsDigit(c: char)
  {
    '0' <= c <= '9'
  }

  /** The decimal text of `n`, as a template literal prints it. */
  function NatToString(n: nat): (s: string)
    ensures |s| >= 1
    ensures forall i :: 0 <= i < |s| ==> IsDigit(s[i])
    decreases n
  {
    if n < 10 then [DigitChar(n)] else NatToString(n / 10) + [DigitChar(n % 10)]
  }

  /** The number a string of decimal digits denotes. */
  function DigitsValue(s: string): nat
    requires forall i :: 0 <= i < |s| ==> IsDigit(s[i])
  {
    if s == [] then 0
    else
      assert IsDigit(s[|s| - 1]);
      DigitsValue(s[..|s| - 1]) * 10 + (s[|s| - 1] as int - '0' as int)
  }

  lemma {:induction false} NatToStringRoundTrip(n: nat)
    ensures DigitsValue(NatToString(n)) == n
    decreases n
  {
    if n >= 10 {
      NatToStringRoundTrip(n / 10);
      var s := NatToString(n);
      assert s[..|s| - 1] == NatToString(n / 10);
    }
  }

  /** The name given to a pose saved without one: "ポーズ " and the table size plus one. */
  function DefaultPoseName(count: nat): string
  {
    "ポーズ " + NatToString(count + 1)
  }

  /** `poseName || \`ポーズ ${count + 1}\``. */
  function ChosenName(poseName: string, count: nat): (name: string)
    ensures poseName != "" ==> name == poseName
    ensures poseName == "" ==> name == DefaultPoseName(count) && |name| > 0
  {
    if poseName != "" then poseName else DefaultPoseName(count)
  }

  /** `poseId || generateUuid()`. */
  function ChosenId(poseId: Option<string>, freshId: string): (id: string)
    ensures poseId.Some? && poseId.value != "" ==> id == poseId.value
    ensures poseId.None? || poseId.value == "" ==> id == freshId
  {
    if poseId.Some? && poseId.value != "" then poseId.value else freshId
  }

  // ---------------------------------------------------------------------------
  // The user table's two writes
  // ---------------------------------------------------------------------------

  /** The table savePoseData writes back: one entry added or overwritten. */
  function SaveEntry(users: UserPosesMap, id: string, name: string, data: PoseData): (r: UserPosesMap)
    ensures r.Keys == users.Keys + {id}
    ensures r[id] == PosesData(id, name, data, false)
    ensures forall k :: k in users && k != id ==> r[k] == users[k]
    ensures |r| == if id in users then |users| else |users| + 1
  {
    users[id := PosesData(id, name, data, false)]
  }

  /** The table deletePoseData writes back: one entry removed, if present. */
  function DeleteEntry(users: UserPosesMap, id: string): (r: UserPosesMap)
    ensures r.Keys == users.Keys - {id}
    ensures forall k :: k in r ==> r[k] == users[k]
    ensures id !in users ==> r == users
    ensures |r| == if id in users then |users| - 1 else |users|
  {
    users - {id}
  }

  /** Deleting the id a save returned leaves no trace of that save. */
  lemma SaveThenDelete(users: UserPosesMap, id: string, name: string, data: PoseData)
    ensures id !in DeleteEntry(SaveEntry(users, id, name, data), id)
    ensures DeleteEntry(SaveEntry(users, id, name, data), id) == DeleteEntry(users, id)
  {
  }

  /** A saved pose under a non-preset id is what setPose then applies. */
  lemma SaveThenResolve(presets: map<string, PosesData>, users: UserPosesMap, id: string, name: string, data: PoseData)
    requires id !in presets
    ensures ResolvePose(presets, SaveEntry(users, id, name, data), id) == FromUser(PosesData(id, name, data, false))
  {
  }

  // ---------------------------------------------------------------------------
  // Storage outcomes and the results reported to the user interface
  // ---------------------------------------------------------------------------

  /** What `localStorage.setItem` did. */
  datatype StorageOutcome = Written | QuotaExceeded | WriteFailed

  datatype SaveResult = Saved(id: string) | SaveFailed(error: string)

  datatype DeleteResult = Deleted | DeleteFailed(error: string)

  const QuotaExceededMessage: string := "保存可能容量を超えています。"
  const SaveFailedMessage: string := "保存に失敗しました。"
  const DeleteFailedMessage: string := "削除に失敗しました。"

  /** The message of a failed save: a full store is told apart from every other failure. */
  function SaveErrorMessage(outcome: StorageOutcome): (msg: string)
    ensures outcome == QuotaExceeded ==> msg == QuotaExceededMessage
    ensures outcome != QuotaExceeded ==> msg == SaveFailedMessage
    ensures (msg == QuotaExceededMessage) <==> outcome == QuotaExceeded
  {
    if outcome == QuotaExceeded then QuotaExceededMessage else SaveFailedMessage
  }
}
