/**
 * The avatar controller (`VrmManager`) with the 3D engine abstracted away:
 * expression weights and the blink rule, pose resolution, the user pose
 * store, the idle-motion flags and the bone/body manipulator state.
 */
module Controller {
  import opened Wrappers
  import opened VrmSchema
  import opened PoseStore
  import opened Manipulators
  import Util

  // ---------------------------------------------------------------------------
  // Expression weights and the blink rule
  // ---------------------------------------------------------------------------

  type WeightMap = map<BlendShapeName, real>

  /** `initialBlendShapeWeightMap`: every preset at zero. */
  const InitialWeights: WeightMap := map n | n in AllBlendShapeNames :: 0.0

  /** The presets whose weight suppresses automatic blinking. */
  const InterfereBlinkPresets: seq<BlendShapeName> := [Angry, Fun, Joy, Sorrow, BlinkR, BlinkL]

  /** `map[name] || 0`. */
  function Weight(m: WeightMap, n: BlendShapeName): real
  {
    if n in m then m[n] else 0.0
  }

  /** Some blink-interfering preset has a positive weight. */
  predicate BlinkInterfered(m: WeightMap)
  {
    exists p :: p in InterfereBlinkPresets && Weight(m, p) > 0.0
  }

  /** The `reduce` of updateBlendShape: the largest interfering weight, floored at zero. */
  method InterferenceMax(m: WeightMap) returns (mx: real)
    ensures mx >= 0.0
    ensures forall p :: p in InterfereBlinkPresets ==> Weight(m, p) <= mx
    ensures mx == 0.0 || exists p :: p in InterfereBlinkPresets && Weight(m, p) == mx
    ensures mx > 0.0 <==> BlinkInterfered(m)
  {
    mx := 0.0;
    var i := 0;
    while i < |InterfereBlinkPresets|
      invariant 0 <= i <= |InterfereBlinkPresets|
      invariant mx >= 0.0
      invariant forall j :: 0 <= j < i ==> Weight(m, InterfereBlinkPresets[j]) <= mx
      invariant mx == 0.0 || exists j :: 0 <= j < i && Weight(m, InterfereBlinkPresets[j]) == mx
    {
      var w := Weight(m, InterfereBlinkPresets[i]);
      if w > mx {
        mx := w;
      }
      i := i + 1;
    }
  }

  /** Blink and the vowel presets never change whether blinking is suppressed. */
  lemma NonInterferingKeepsFlag(m: WeightMap, n: BlendShapeName, w: real)
    requires n !in InterfereBlinkPresets
    ensures BlinkInterfered(m[n := w]) == BlinkInterfered(m)
  {
    if BlinkInterfered(m) {
      var p :| p in InterfereBlinkPresets && Weight(m, p) > 0.0;
      assert Weight(m[n := w], p) > 0.0;
    }
    if BlinkInterfered(m[n := w]) {
      var p :| p in InterfereBlinkPresets && Weight(m[n := w], p) > 0.0;
      assert Weight(m, p) > 0.0;
    }
  }

  /** An interfering preset set above zero suppresses blinking; set to zero with the others at zero, it releases it. */
  lemma InterferingDecidesFlag(m: WeightMap, n: BlendShapeName, w: real)
    requires n in InterfereBlinkPresets
    ensures w > 0.0 ==> BlinkInterfered(m[n := w])
    ensures w <= 0.0 && (forall p :: p in InterfereBlinkPresets && p != n ==> Weight(m, p) <= 0.0)
      ==> !BlinkInterfered(m[n := w])
  {
    if w > 0.0 {
      assert Weight(m[n := w], n) > 0.0;
    }
  }

  /** The initial weights suppress nothing. */
  lemma InitialWeightsNotInterfered()
    ensures !BlinkInterfered(InitialWeights)
  {
    forall p | p in InterfereBlinkPresets
      ensures Weight(InitialWeights, p) == 0.0
    {
      AllBlendShapeNamesComplete(p);
    }
  }

  /** `blinkValue`: the automatic curve, never below the manual baseline. */
  function BlinkValue(manualBlink: real, curve: real): (v: real)
    ensures v >= manualBlink && v >= curve
    ensures v == manualBlink || v == curve
  {
    if manualBlink >= curve then manualBlink else curve
  }

  /** A map with a manipulator for exactly the controllable bones has one for exactly the listed names. */
  lemma ControllableAllInMap(m: BoneControlsMap)
    requires forall b :: b in m <==> Controllable(b)
    ensures forall b :: b in m <==> b in ControllableBoneNames
  {
    forall b
      ensures b in m <==> b in ControllableBoneNames
    {
      ControllableBoneNamesSpec(b);
    }
  }

  /**
   * The bone manipulator state the controller keeps: a manipulator for
   * exactly the controllable bones while bone control is on and none
   * otherwise; the selected bone, if any, has a manipulator, which is the
   * only one at the default size.
   */
  ghost predicate ControlsValid(controlling: bool, controls: BoneControlsMap, active: Option<BoneName>)
  {
    && (controlling ==> forall b :: b in controls <==> Controllable(b))
    && (!controlling ==> controls == map[])
    && (active.Some? ==> active.value in controls)
    && (forall b :: b in controls ==> controls[b].size == if active == Some(b) then DefaultSize else SmallSize)
  }

  /** Selecting a bone when none is selected keeps the manipulator state valid. */
  lemma FocusKeepsControlsValid(controlling: bool, m: BoneControlsMap, bone: BoneName)
    requires ControlsValid(controlling, m, None) && bone in m
    ensures ControlsValid(controlling, Focus(m, bone), Some(bone))
  {
  }

  /** A tap reset keeps the manipulator state valid and clears the selection. */
  lemma ResetKeepsControlsValid(controlling: bool, m: BoneControlsMap, active: Option<BoneName>)
    requires ControlsValid(controlling, m, active)
    ensures ControlsValid(controlling, ResetControls(m), None)
  {
  }

  /** Showing or hiding every handle keeps the manipulator state valid. */
  lemma SetAllHandlesKeepsControlsValid(controlling: bool, m: BoneControlsMap, active: Option<BoneName>, shown: bool)
    requires ControlsValid(controlling, m, active)
    ensures ControlsValid(controlling, SetAllHandles(m, shown), active)
  {
  }

  /** The press-to-release time (ms) under which an orbit gesture counts as a tap. */
  const TapThreshold: real := 200.0

  /** `initialData.pose`. */
  const InitialPoseId: string := "tStance"

  // ---------------------------------------------------------------------------
  // The controller
  // ---------------------------------------------------------------------------

  class VrmManager {
    /** `_currentBlendShapeWeightMap`. */
    var weights: WeightMap
    /** The weights the avatar's blend-shape proxy currently holds. */
    var appliedWeights: WeightMap
    var manualBlinkVal: real
    var currentPoseId: string
    /** The pose last applied to the skeleton. */
    var appliedPose: PoseData
    var blinkActivated: bool
    var blendShapeModified: bool
    var waitingActivated: bool
    /** Whether the idle clip's action is playing. */
    var idlePlaying: bool
    /** `_boneControlsMap`. */
    var boneControls: BoneControlsMap
    var boneControlling: bool
    /** `_activatingBoneName`. */
    var activeBone: Option<BoneName>
    var boneControlsHidden: bool
    var bodyControl: Option<Control>
    /** `_boneManipulatorTapped`. */
    var manipulatorTapped: bool
    var pointerDownTime: real
    /** Whether camera orbiting is enabled. */
    var orbitEnabled: bool
    /** The `poses` entry of local storage. */
    var userPoses: UserPosesMap
    /** `presetPosesMap`. */
    const presets: map<string, PosesData>
    /** `_basePosition`: the hips position of the loaded model at rest. */
    const basePosition: Vector3

    /** The relations every public method keeps. */
    ghost predicate Valid()
      reads this
    {
      && ControlsValid(boneControlling, boneControls, activeBone)
      && (bodyControl.Some? ==> bodyControl.value.size == DefaultSize)
      && (idlePlaying ==> waitingActivated && !boneControlling && bodyControl.None?)
      && blendShapeModified == BlinkInterfered(weights)
    }

    /** A controller over a loaded model, in the state `initialData` describes. */
    constructor (assets: PresetAssets, storedPoses: UserPosesMap, base: Vector3, restPose: PoseData)
      ensures Valid()
      ensures weights == appliedWeights == InitialWeights
      ensures manualBlinkVal == 0.0 && currentPoseId == InitialPoseId && appliedPose == restPose
      ensures blinkActivated && !blendShapeModified && waitingActivated && !idlePlaying
      ensures boneControls == map[] && !boneControlling && activeBone.None? && !boneControlsHidden
      ensures bodyControl.None? && !manipulatorTapped && pointerDownTime == 0.0 && orbitEnabled
      ensures userPoses == storedPoses && presets == PresetPosesMap(assets) && basePosition == base
    {
      weights := InitialWeights;
      appliedWeights := InitialWeights;
      manualBlinkVal := 0.0;
      currentPoseId := InitialPoseId;
      appliedPose := restPose;
      blinkActivated := true;
      blendShapeModified := false;
      waitingActivated := true;
      idlePlaying := false;
      boneControls := map[];
      boneControlling := false;
      activeBone := None;
      boneControlsHidden := false;
      bodyControl := None;
      manipulatorTapped := false;
      pointerDownTime := 0.0;
      orbitEnabled := true;
      userPoses := storedPoses;
      presets := PresetPosesMap(assets);
      basePosition := base;
      new;
      InitialWeightsNotInterfered();
    }

    // --- expressions -------------------------------------------------------

    /** updateBlendShape: one weight set, the blink baseline and the suppression flag kept in step. */
    method UpdateBlendShape(name: BlendShapeName, weight: real)
      requires Valid()
      modifies this`weights, this`appliedWeights, this`manualBlinkVal, this`blendShapeModified
      ensures Valid()
      ensures weights == old(weights)[name := weight]
      ensures appliedWeights == old(appliedWeights)[name := weight]
      ensures manualBlinkVal == if name == Blink then weight else old(manualBlinkVal)
      ensures blendShapeModified <==> exists p :: p in InterfereBlinkPresets && Weight(weights, p) > 0.0
    {
      weights := weights[name := weight];
      appliedWeights := appliedWeights[name := weight];
      if name == Blink {
        manualBlinkVal := weight;
      }
      var mx := InterferenceMax(weights);
      blendShapeModified := mx > 0.0;
    }

    /** toggleBlinkActivated: switching blinking off puts exactly the manual baseline on Blink. */
    method ToggleBlinkActivated(on: bool)
      requires Valid()
      modifies this`blinkActivated, this`appliedWeights
      ensures Valid()
      ensures blinkActivated == on
      ensures appliedWeights == if on then old(appliedWeights) else old(appliedWeights)[Blink := manualBlinkVal]
    {
      blinkActivated := on;
      if !on {
        appliedWeights := appliedWeights[Blink := manualBlinkVal];
      }
    }

    /** The blink step of one rendered frame, given the value of the automatic blink curve. */
    method RenderFrame(curve: real)
      requires Valid()
      modifies this`appliedWeights
      ensures Valid()
      ensures blinkActivated && !blendShapeModified ==>
        appliedWeights == old(appliedWeights)[Blink := BlinkValue(manualBlinkVal, curve)]
      ensures !(blinkActivated && !blendShapeModified) ==> appliedWeights == old(appliedWeights)
    {
      if blinkActivated && !blendShapeModified {
        appliedWeights := appliedWeights[Blink := BlinkValue(manualBlinkVal, curve)];
      }
    }

    // --- idle motion -------------------------------------------------------

    /** playWaitingAnimation: starts the clip only while no manipulator is active; always enables idling. */
    method PlayWaitingAnimation()
      requires Valid()
      modifies this`idlePlaying, this`waitingActivated
      ensures Valid()
      ensures waitingActivated
      ensures idlePlaying == if !boneControlling && bodyControl.None? then true else old(idlePlaying)
    {
      if !boneControlling && bodyControl.None? {
        idlePlaying := true;
      }
      waitingActivated := true;
    }

    /** stopWaitingAnimation: stops the clip and disables idling. */
    method StopWaitingAnimation()
      requires Valid()
      modifies this`idlePlaying, this`waitingActivated
      ensures Valid()
      ensures !waitingActivated && !idlePlaying
    {
      idlePlaying := false;
      waitingActivated := false;
    }

    /** toggleWaitingActivated: the clip plays exactly when idling is on and no manipulator is active. */
    method ToggleWaitingActivated(on: bool)
      requires Valid()
      modifies this`idlePlaying, this`waitingActivated
      ensures Valid()
      ensures waitingActivated == on
      ensures idlePlaying == (on && !boneControlling && bodyControl.None?)
    {
      if on {
        PlayWaitingAnimation();
      } else {
        StopWaitingAnimation();
      }
    }

    // --- poses -------------------------------------------------------------

    /** setPose: the preset table first, then the user table; an unknown id changes nothing. */
    method SetPose(id: string)
      requires Valid()
      modifies this`idlePlaying, this`currentPoseId, this`appliedPose, this`waitingActivated
      ensures Valid()
      ensures waitingActivated == old(waitingActivated)
      ensures ResolvePose(presets, userPoses, id).NotFound? ==>
        currentPoseId == old(currentPoseId) && appliedPose == old(appliedPose) && idlePlaying == old(idlePlaying)
      ensures !ResolvePose(presets, userPoses, id).NotFound? ==>
        && currentPoseId == id
        && appliedPose == ResolvePose(presets, userPoses, id).pose.data
        && idlePlaying == (waitingActivated && !boneControlling && bodyControl.None?)
    {
      var found := ResolvePose(presets, userPoses, id);
      if found.NotFound? {
        return;
      }
      idlePlaying := false;
      currentPoseId := id;
      appliedPose := found.pose.data;
      if waitingActivated && !boneControlling && bodyControl.None? {
        PlayWaitingAnimation();
      }
    }

    /** savePoseData, given what getPose returned, the random source and what the storage write did. */
    method SavePoseData(poseName: string, poseId: Option<string>, live: Option<PoseData>,
                        rand: seq<real>, outcome: StorageOutcome) returns (r: SaveResult)
      requires |rand| == |Util.UuidTemplate|
      requires forall i :: 0 <= i < |rand| ==> Util.IsRandom(rand[i])
      modifies this`userPoses
      ensures live.None? ==> r == SaveFailed(SaveFailedMessage) && userPoses == old(userPoses)
      ensures live.Some? && outcome == Written ==>
        && r == Saved(ChosenId(poseId, Util.UuidFrom(rand)))
        && userPoses == SaveEntry(old(userPoses), r.id, ChosenName(poseName, |old(userPoses)|),
                                  PoseForSave(live.value, basePosition))
      ensures live.Some? && outcome != Written ==>
        r == SaveFailed(SaveErrorMessage(outcome)) && userPoses == old(userPoses)
    {
      if live.None? {
        return SaveFailed(SaveFailedMessage);
      }
      var data := ExtractPose(live.value, basePosition);
      var name := ChosenName(poseName, |userPoses|);
      var id: string;
      if poseId.Some? && poseId.value != "" {
        id := poseId.value;
      } else {
        id := Util.GenerateUuid(rand);
      }
      if outcome == Written {
        userPoses := SaveEntry(userPoses, id, name, data);
        r := Saved(id);
      } else {
        r := SaveFailed(SaveErrorMessage(outcome));
      }
    }

    /** deletePoseData, given what the storage write did; an absent id still succeeds. */
    method DeletePoseData(poseId: string, outcome: StorageOutcome) returns (r: DeleteResult)
      modifies this`userPoses
      ensures outcome == Written ==> r == Deleted && userPoses == DeleteEntry(old(userPoses), poseId)
      ensures outcome != Written ==> r == DeleteFailed(DeleteFailedMessage) && userPoses == old(userPoses)
    {
      if outcome == Written {
        userPoses := DeleteEntry(userPoses, poseId);
        r := Deleted;
      } else {
        r := DeleteFailed(DeleteFailedMessage);
      }
    }

    // --- bone manipulators -------------------------------------------------

    /** activateBoneControls: pauses idling and creates one manipulator per controllable bone, once. */
    method ActivateBoneControls()
      requires Valid()
      modifies this`idlePlaying, this`boneControlling, this`boneControls
      ensures Valid()
      ensures boneControlling && !idlePlaying
      ensures boneControls == if old(boneControls) == map[] then FreshControls() else old(boneControls)
      ensures forall b :: b in boneControls <==> Controllable(b)
    {
      if waitingActivated {
        idlePlaying := false;
      }
      boneControlling := true;
      if boneControls != map[] {
        return;
      }
      AddControls(ControllableBoneNames);
      forall b
        ensures b in boneControls <==> Controllable(b)
      {
        ControllableBoneNamesSpec(b);
      }
    }

    /** The `forEach` of activateBoneControls: a fresh manipulator stored for each name in turn. */
    method AddControls(names: seq<BoneName>)
      modifies this`boneControls
      ensures boneControls.Keys == old(boneControls).Keys + (set b | b in names)
      ensures forall b :: b in boneControls ==>
        boneControls[b] == if b in names then NewBoneControl else old(boneControls)[b]
    {
      var i := 0;
      while i < |names|
        invariant 0 <= i <= |names|
        invariant boneControls.Keys == old(boneControls).Keys + (set b | b in names[..i])
        invariant forall b :: b in boneControls ==>
          boneControls[b] == if b in names[..i] then NewBoneControl else old(boneControls)[b]
      {
        boneControls := boneControls[names[i] := NewBoneControl];
        i := i + 1;
      }
      assert names[..i] == names;
    }

    /** deactivateBoneControls: removes every manipulator and resumes idling if it is enabled. */
    method DeactivateBoneControls()
      requires Valid()
      modifies this`boneControls, this`activeBone, this`boneControlling, this`idlePlaying, this`waitingActivated
      ensures Valid()
      ensures boneControls == map[] && activeBone.None? && !boneControlling
      ensures waitingActivated == old(waitingActivated)
      ensures idlePlaying == (waitingActivated && bodyControl.None?)
    {
      var todo := boneControls.Keys;
      while todo != {}
        invariant boneControls.Keys == todo
        invariant activeBone == old(activeBone) && boneControlling == old(boneControlling)
        invariant idlePlaying == old(idlePlaying) && waitingActivated == old(waitingActivated)
        decreases todo
      {
        var b :| b in todo;
        boneControls := boneControls - {b};
        todo := todo - {b};
      }
      activeBone := None;
      boneControlling := false;
      if waitingActivated {
        PlayWaitingAnimation();
      }
    }

    /** resetBoneControlsManipulator: every manipulator small and fully shown, no bone selected. */
    method ResetBoneControlsManipulator()
      requires Valid()
      modifies this`boneControls, this`activeBone
      ensures Valid()
      ensures boneControls == ResetControls(old(boneControls)) && activeBone.None?
    {
      var todo := boneControls.Keys;
      while todo != {}
        invariant todo <= boneControls.Keys == old(boneControls).Keys
        invariant forall b :: b in boneControls ==>
          boneControls[b] == if b in todo then old(boneControls)[b] else NewBoneControl
        decreases todo
      {
        var b :| b in todo;
        boneControls := boneControls[b := NewBoneControl];
        todo := todo - {b};
      }
      assert boneControls == ResetControls(old(boneControls));
      activeBone := None;
      ResetKeepsControlsValid(boneControlling, old(boneControls), old(activeBone));
    }

    /** showBoneControlsManipulator. */
    method ShowBoneControlsManipulator()
      requires Valid()
      modifies this`boneControls, this`boneControlsHidden
      ensures Valid()
      ensures boneControls == SetAllHandles(old(boneControls), true) && !boneControlsHidden
    {
      SetBoneHandles(true);
      boneControlsHidden := false;
    }

    /** hideBoneControlsManipulator. */
    method HideBoneControlsManipulator()
      requires Valid()
      modifies this`boneControls, this`boneControlsHidden
      ensures Valid()
      ensures boneControls == SetAllHandles(old(boneControls), false) && boneControlsHidden
    {
      SetBoneHandles(false);
      boneControlsHidden := true;
    }

    /** The loop the two methods above share: every bone manipulator's handles set to `shown`. */
    method SetBoneHandles(shown: bool)
      requires Valid()
      modifies this`boneControls
      ensures Valid()
      ensures boneControls == SetAllHandles(old(boneControls), shown)
    {
      var todo := boneControls.Keys;
      while todo != {}
        invariant todo <= boneControls.Keys == old(boneControls).Keys
        invariant forall b :: b in boneControls ==>
          boneControls[b] == if b in todo then old(boneControls)[b] else old(boneControls)[b].WithHandles(shown)
        decreases todo
      {
        var b :| b in todo;
        boneControls := boneControls[b := boneControls[b].WithHandles(shown)];
        todo := todo - {b};
      }
      assert boneControls == SetAllHandles(old(boneControls), shown);
      SetAllHandlesKeepsControlsValid(boneControlling, old(boneControls), activeBone, shown);
    }

    /** A bone manipulator's `mouseDown`: with no bone selected, select this one and hide the others. */
    method BoneMouseDown(bone: BoneName)
      requires Valid()
      requires bone in boneControls
      modifies this`boneControls, this`activeBone
      ensures Valid()
      ensures old(activeBone).None? ==> activeBone == Some(bone) && boneControls == Focus(old(boneControls), bone)
      ensures old(activeBone).Some? ==> activeBone == old(activeBone) && boneControls == old(boneControls)
    {
      if activeBone.Some? {
        return;
      }
      ControllableAllInMap(boneControls);
      SelectBone(bone, ControllableBoneNames);
      FocusKeepsControlsValid(boneControlling, old(boneControls), bone);
    }

    /** The selecting branch of the `mouseDown` handler, over the list of bones it walks. */
    method SelectBone(bone: BoneName, names: seq<BoneName>)
      requires bone in boneControls
      requires forall b :: b in boneControls <==> b in names
      modifies this`boneControls, this`activeBone
      ensures activeBone == Some(bone) && boneControls == Focus(old(boneControls), bone)
    {
      activeBone := Some(bone);
      boneControls := boneControls[bone := boneControls[bone].(size := DefaultSize)];
      HideOthers(names, bone);
      SelectThenHideIsFocus(old(boneControls), bone, names);
    }

    /** The inner `forEach` of the `mouseDown` handler: every listed bone but `bone` loses its handles. */
    method HideOthers(names: seq<BoneName>, bone: BoneName)
      requires forall b :: b in names ==> b in boneControls
      modifies this`boneControls
      ensures boneControls == HideExcept(old(boneControls), names, bone)
    {
      var i := 0;
      assert names[..0] == [];
      while i < |names|
        invariant 0 <= i <= |names|
        invariant boneControls == HideExcept(old(boneControls), names[..i], bone)
      {
        var b := names[i];
        HideExceptSnoc(old(boneControls), names[..i], b, bone);
        assert names[..i + 1] == names[..i] + [b];
        if b != bone {
          boneControls := boneControls[b := boneControls[b].WithHandles(false)];
        }
        i := i + 1;
      }
      assert names[..i] == names;
    }

    /** A bone manipulator's `mouseUp`: remembers that the gesture touched a manipulator. */
    method BoneMouseUp()
      modifies this`manipulatorTapped
      ensures manipulatorTapped
    {
      manipulatorTapped := true;
    }

    /** A manipulator's `dragging-changed`: camera orbiting is off while dragging. */
    method DraggingChanged(dragging: bool)
      modifies this`orbitEnabled
      ensures orbitEnabled == !dragging
    {
      orbitEnabled := !dragging;
    }

    /** The orbit controls' `start` event at time `now` (ms). */
    method OrbitStart(now: real)
      modifies this`pointerDownTime
      ensures pointerDownTime == now
    {
      pointerDownTime := now;
    }

    /** The orbit controls' `end` event at time `now`: a tap on empty space resets the manipulators. */
    method OrbitEnd(now: real)
      requires Valid()
      modifies this`boneControls, this`activeBone, this`manipulatorTapped
      ensures Valid()
      ensures !manipulatorTapped
      ensures now - pointerDownTime < TapThreshold && !boneControlsHidden && !old(manipulatorTapped) ==>
        boneControls == ResetControls(old(boneControls)) && activeBone.None?
      ensures !(now - pointerDownTime < TapThreshold && !boneControlsHidden && !old(manipulatorTapped)) ==>
        boneControls == old(boneControls) && activeBone == old(activeBone)
    {
      if now - pointerDownTime < TapThreshold {
        if !boneControlsHidden && !manipulatorTapped {
          ResetBoneControlsManipulator();
        }
      }
      manipulatorTapped := false;
    }

    // --- body manipulator --------------------------------------------------

    /** activateBodyControls: pauses idling and creates the body manipulator if there is none. */
    method ActivateBodyControls()
      requires Valid()
      modifies this`idlePlaying, this`bodyControl
      ensures Valid()
      ensures !idlePlaying
      ensures bodyControl == if old(bodyControl).None? then Some(NewBodyControl) else old(bodyControl)
    {
      if waitingActivated {
        idlePlaying := false;
      }
      if bodyControl.None? {
        bodyControl := Some(NewBodyControl);
      }
    }

    /** deactivateBodyControls: with a body manipulator, removes it and resumes idling if enabled. */
    method DeactivateBodyControls()
      requires Valid()
      modifies this`bodyControl, this`idlePlaying, this`waitingActivated
      ensures Valid()
      ensures bodyControl.None? && waitingActivated == old(waitingActivated)
      ensures old(bodyControl).None? ==> idlePlaying == old(idlePlaying)
      ensures old(bodyControl).Some? ==> idlePlaying == (waitingActivated && !boneControlling)
    {
      if bodyControl.None? {
        return;
      }
      bodyControl := None;
      if waitingActivated {
        PlayWaitingAnimation();
      }
    }

    /** showBodyControlsManipulator: a no-op without a body manipulator. */
    method ShowBodyControlsManipulator()
      requires Valid()
      modifies this`bodyControl
      ensures Valid()
      ensures bodyControl == if old(bodyControl).None? then None else Some(old(bodyControl).value.WithHandles(true))
    {
      if bodyControl.Some? {
        bodyControl := Some(bodyControl.value.WithHandles(true));
      }
    }

    /** hideBodyControlsManipulator: a no-op without a body manipulator. */
    method HideBodyControlsManipulator()
      requires Valid()
      modifies this`bodyControl
      ensures Valid()
      ensures bodyControl == if old(bodyControl).None? then None else Some(old(bodyControl).value.WithHandles(false))
    {
      if bodyControl.Some? {
        bodyControl := Some(bodyControl.value.WithHandles(false));
      }
    }
  }
}
