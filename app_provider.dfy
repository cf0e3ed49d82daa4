/**
 * The application state provider: the pose-editor status transitions, the
 * loading status and progress rule, and the setters that update the held
 * state and drive the controller.
 */
module AppProvider {
  import opened Wrappers
  import opened VrmSchema
  import opened Contexts
  import opened Manipulators
  import opened Controller
  import PoseStore

  /** The id the pose being added is edited under. */
  const TempId: string := "tempId"

  // ---------------------------------------------------------------------------
  // Status transitions (the `prev => ({...prev, ...})` updates)
  // ---------------------------------------------------------------------------

  /** setPoseAddMode's update. */
  function AddModeStatus(prev: PoseEditorStatus): (s: PoseEditorStatus)
    ensures s.editType == Adding && s.edittingPoseId == TempId
    ensures s.deletingPoseId == InitialPoseEditorStatus.deletingPoseId
    ensures s.controlType == prev.controlType
  {
    prev.(editType := Adding, edittingPoseId := TempId, deletingPoseId := InitialPoseEditorStatus.deletingPoseId)
  }

  /** setEditPoseId's update. */
  function EditStatus(prev: PoseEditorStatus, poseId: string): (s: PoseEditorStatus)
    ensures s.editType == Editing && s.edittingPoseId == poseId
    ensures s.deletingPoseId == InitialPoseEditorStatus.deletingPoseId
    ensures s.controlType == prev.controlType
  {
    prev.(editType := Editing, edittingPoseId := poseId, deletingPoseId := InitialPoseEditorStatus.deletingPoseId)
  }

  /** setDeletePoseId's update: editing ends, the id being edited is remembered. */
  function DeleteStatus(prev: PoseEditorStatus, poseId: string): (s: PoseEditorStatus)
    ensures s.editType == InitialPoseEditorStatus.editType && s.deletingPoseId == poseId
    ensures s.edittingPoseId == prev.edittingPoseId && s.controlType == prev.controlType
  {
    prev.(editType := InitialPoseEditorStatus.editType, deletingPoseId := poseId)
  }

  /** changePoseControlType's update. */
  function ControlTypeStatus(prev: PoseEditorStatus, t: PoseControlType): (s: PoseEditorStatus)
    ensures s.controlType == t
    ensures s.editType == prev.editType && s.edittingPoseId == prev.edittingPoseId
    ensures s.deletingPoseId == prev.deletingPoseId
  {
    prev.(controlType := t)
  }

  /** The control type is independent of the other transitions: choosing it before or after gives the same status. */
  lemma ControlTypeCommutes(s: PoseEditorStatus, t: PoseControlType, poseId: string)
    ensures ControlTypeStatus(AddModeStatus(s), t) == AddModeStatus(ControlTypeStatus(s, t))
    ensures ControlTypeStatus(EditStatus(s, poseId), t) == EditStatus(ControlTypeStatus(s, t), poseId)
    ensures ControlTypeStatus(DeleteStatus(s, poseId), t) == DeleteStatus(ControlTypeStatus(s, t), poseId)
  {
  }

  /** Entering add or edit mode forgets any earlier add, edit or delete, keeping only the control type. */
  lemma EnteringModeForgetsHistory(s: PoseEditorStatus, s': PoseEditorStatus, poseId: string)
    requires s.controlType == s'.controlType
    ensures AddModeStatus(s) == AddModeStatus(s')
    ensures EditStatus(s, poseId) == EditStatus(s', poseId)
  {
  }

  // ---------------------------------------------------------------------------
  // Loading progress
  // ---------------------------------------------------------------------------

  /** `Math.round`: the nearest integer, halves rounded up. */
  function Round(x: real): (n: int)
    ensures n as real - 0.5 <= x < n as real + 0.5
  {
    (x + 0.5).Floor
  }

  /**
   * The percentage loadModel reports for a progress event: `loaded / total`
   * is not finite when `total` is 0, and the rule then reports 100.
   */
  function ProgressPercent(loaded: nat, total: nat): (p: int)
    ensures total == 0 ==> p == 100
    ensures total > 0 ==> p as real - 0.5 <= 100.0 * (loaded as real) / (total as real) < p as real + 0.5
  {
    if total == 0 then 100 else Round(100.0 * (loaded as real) / (total as real))
  }

  /** While no more than the total has arrived the percentage is between 0 and 100. */
  lemma ProgressBounds(loaded: nat, total: nat)
    requires loaded <= total
    ensures 0 <= ProgressPercent(loaded, total) <= 100
  {
    if total > 0 {
      var x := 100.0 * (loaded as real) / (total as real);
      assert 100.0 * (loaded as real) <= 100.0 * (total as real);
      assert x <= 100.0 by {
        assert x * (total as real) == 100.0 * (loaded as real);
      }
      assert 0.0 <= x;
    }
  }

  /** More bytes never lower the percentage. */
  lemma ProgressMonotone(loaded: nat, loaded': nat, total: nat)
    requires loaded <= loaded'
    ensures ProgressPercent(loaded, total) <= ProgressPercent(loaded', total)
  {
    if total > 0 {
      var t := total as real;
      assert 100.0 * (loaded as real) <= 100.0 * (loaded' as real);
      assert 100.0 * (loaded as real) / t <= 100.0 * (loaded' as real) / t;
    }
  }

  /** A finished download reports exactly 100, and so does an unknown total. */
  lemma ProgressComplete(total: nat)
    ensures ProgressPercent(total, total) == 100
    ensures ProgressPercent(0, 0) == 100
  {
    if total > 0 {
      assert 100.0 * (total as real) / (total as real) == 100.0;
    }
  }

  // ---------------------------------------------------------------------------
  // The provider
  // ---------------------------------------------------------------------------

  class Provider {
    /** `vrmManagerRef.current`, taken as set. */
    const manager: VrmManager
    var blendShapeMap: WeightMap
    var poseId: string
    var poseEditorStatus: PoseEditorStatus
    var poseFormData: PoseEditorForm
    var loadingStatus: LoadingStatus

    /**
     * The held weights mirror the controller's, and while a pose is being
     * added or edited both kinds of manipulator exist.
     */
    ghost predicate Valid()
      reads this, manager
    {
      && manager.Valid()
      && blendShapeMap == manager.weights
      && (poseEditorStatus.editType != NotEditing ==> manager.boneControlling && manager.bodyControl.Some?)
    }

    constructor (m: VrmManager)
      requires m.Valid() && m.weights == InitialWeights
      ensures Valid() && manager == m
      ensures blendShapeMap == InitialWeights && poseId == InitialPoseId
      ensures poseEditorStatus == InitialPoseEditorStatus && poseFormData == InitialPoseFormData
      ensures loadingStatus == InitialLoadingStatus
    {
      manager := m;
      blendShapeMap := InitialWeights;
      poseId := InitialPoseId;
      poseEditorStatus := InitialPoseEditorStatus;
      poseFormData := InitialPoseFormData;
      loadingStatus := InitialLoadingStatus;
    }

    /** setBlendShape: one key of the held map, and the same pair forwarded to the controller. */
    method SetBlendShape(name: BlendShapeName, weight: real)
      requires Valid()
      modifies this`blendShapeMap, manager`weights, manager`appliedWeights,
               manager`manualBlinkVal, manager`blendShapeModified
      ensures Valid()
      ensures blendShapeMap == old(blendShapeMap)[name := weight]
      ensures manager.weights == old(manager.weights)[name := weight]
      ensures manager.appliedWeights == old(manager.appliedWeights)[name := weight]
      ensures manager.manualBlinkVal == if name == Blink then weight else old(manager.manualBlinkVal)
      ensures manager.blendShapeModified == BlinkInterfered(manager.weights)
    {
      blendShapeMap := blendShapeMap[name := weight];
      manager.UpdateBlendShape(name, weight);
    }

    /** setPose: the held id always changes; the controller applies it only if it names a pose. */
    method SetPose(id: string)
      requires Valid()
      modifies this`poseId, manager`idlePlaying, manager`currentPoseId,
               manager`appliedPose, manager`waitingActivated
      ensures Valid()
      ensures poseId == id
      ensures manager.waitingActivated == old(manager.waitingActivated)
      ensures PoseStore.ResolvePose(manager.presets, manager.userPoses, id).NotFound? ==>
        && manager.currentPoseId == old(manager.currentPoseId)
        && manager.appliedPose == old(manager.appliedPose)
        && manager.idlePlaying == old(manager.idlePlaying)
      ensures !PoseStore.ResolvePose(manager.presets, manager.userPoses, id).NotFound? ==>
        && manager.currentPoseId == id
        && manager.appliedPose == PoseStore.ResolvePose(manager.presets, manager.userPoses, id).pose.data
        && manager.idlePlaying == (manager.waitingActivated && !manager.boneControlling && manager.bodyControl.None?)
    {
      poseId := id;
      manager.SetPose(id);
    }

    /** The controller calls shared by setPoseAddMode and setEditPoseId. */
    method ActivateEditing()
      requires manager.Valid()
      modifies manager`idlePlaying, manager`boneControlling, manager`boneControls, manager`bodyControl
      ensures manager.Valid()
      ensures manager.boneControlling && !manager.idlePlaying
      ensures manager.boneControls ==
        if old(manager.boneControls) == map[] then FreshControls() else old(manager.boneControls)
      ensures manager.bodyControl ==
        Some((if old(manager.bodyControl).None? then NewBodyControl else old(manager.bodyControl).value).WithHandles(false))
    {
      manager.ActivateBoneControls();
      manager.ActivateBodyControls();
      manager.HideBodyControlsManipulator();
    }

    /** setPoseAddMode: add mode under the temporary id, manipulators on, body handles hidden. */
    method SetPoseAddMode()
      requires Valid()
      modifies this`poseEditorStatus, manager`idlePlaying, manager`boneControlling,
               manager`boneControls, manager`bodyControl
      ensures Valid()
      ensures poseEditorStatus == AddModeStatus(old(poseEditorStatus))
      ensures manager.boneControlling && !manager.idlePlaying
      ensures manager.boneControls ==
        if old(manager.boneControls) == map[] then FreshControls() else old(manager.boneControls)
      ensures manager.bodyControl ==
        Some((if old(manager.bodyControl).None? then NewBodyControl else old(manager.bodyControl).value).WithHandles(false))
    {
      poseEditorStatus := AddModeStatus(poseEditorStatus);
      ActivateEditing();
    }

    /** setEditPoseId: edit mode for `id`, manipulators on, body handles hidden. */
    method SetEditPoseId(id: string)
      requires Valid()
      modifies this`poseEditorStatus, manager`idlePlaying, manager`boneControlling,
               manager`boneControls, manager`bodyControl
      ensures Valid()
      ensures poseEditorStatus == EditStatus(old(poseEditorStatus), id)
      ensures manager.boneControlling && !manager.idlePlaying
      ensures manager.boneControls ==
        if old(manager.boneControls) == map[] then FreshControls() else old(manager.boneControls)
      ensures manager.bodyControl ==
        Some((if old(manager.bodyControl).None? then NewBodyControl else old(manager.bodyControl).value).WithHandles(false))
    {
      poseEditorStatus := EditStatus(poseEditorStatus, id);
      ActivateEditing();
    }

    /** setDeletePoseId: only the status changes (pass "" for the default argument). */
    method SetDeletePoseId(id: string)
      requires Valid()
      modifies this`poseEditorStatus
      ensures Valid()
      ensures poseEditorStatus == DeleteStatus(old(poseEditorStatus), id)
    {
      poseEditorStatus := DeleteStatus(poseEditorStatus, id);
    }

    /** changePoseControlType: the chosen kind of manipulator shows its handles, the other hides them. */
    method ChangePoseControlType(t: PoseControlType)
      requires Valid()
      modifies this`poseEditorStatus, manager`boneControls, manager`boneControlsHidden, manager`bodyControl
      ensures Valid()
      ensures poseEditorStatus == ControlTypeStatus(old(poseEditorStatus), t)
      ensures t == Bone ==>
        && manager.boneControls == SetAllHandles(old(manager.boneControls), true) && !manager.boneControlsHidden
        && manager.bodyControl == (if old(manager.bodyControl).None? then None else Some(old(manager.bodyControl).value.WithHandles(false)))
      ensures t == Body ==>
        && manager.boneControls == SetAllHandles(old(manager.boneControls), false) && manager.boneControlsHidden
        && manager.bodyControl == (if old(manager.bodyControl).None? then None else Some(old(manager.bodyControl).value.WithHandles(true)))
    {
      poseEditorStatus := ControlTypeStatus(poseEditorStatus, t);
      if t == Bone {
        manager.HideBodyControlsManipulator();
        manager.ShowBoneControlsManipulator();
      }
      if t == Body {
        manager.HideBoneControlsManipulator();
        manager.ShowBodyControlsManipulator();
      }
    }

    /** resetPoseEditorStatus: every manipulator removed, idling resumed if enabled, initial status. */
    method ResetPoseEditorStatus()
      requires Valid()
      modifies this`poseEditorStatus, manager`boneControls, manager`activeBone, manager`boneControlling,
               manager`idlePlaying, manager`waitingActivated, manager`bodyControl
      ensures Valid()
      ensures poseEditorStatus == InitialPoseEditorStatus
      ensures manager.boneControls == map[] && manager.activeBone.None? && !manager.boneControlling
      ensures manager.bodyControl.None?
      ensures manager.waitingActivated == old(manager.waitingActivated)
      ensures manager.idlePlaying == manager.waitingActivated
    {
      manager.DeactivateBoneControls();
      manager.DeactivateBodyControls();
      poseEditorStatus := InitialPoseEditorStatus;
    }

    /** setPoseFormData for its only key, `poseName`. */
    method SetPoseFormData(val: string)
      modifies this`poseFormData
      ensures poseFormData == PoseEditorForm(val)
    {
      poseFormData := poseFormData.(poseName := val);
    }

    /** clearPoseFormData. */
    method ClearPoseFormData()
      modifies this`poseFormData
      ensures poseFormData == InitialPoseFormData
    {
      poseFormData := InitialPoseFormData;
    }

    /** startLoading. */
    method StartLoading()
      modifies this`loadingStatus
      ensures loadingStatus == LoadingStatus(true, None)
    {
      loadingStatus := LoadingStatus(true, None);
    }

    /** stopLoading. */
    method StopLoading()
      modifies this`loadingStatus
      ensures loadingStatus == LoadingStatus(false, None)
    {
      loadingStatus := LoadingStatus(false, None);
    }

    /** updateProgress: the flag kept, the progress replaced. */
    method UpdateProgress(progress: int)
      modifies this`loadingStatus
      ensures loadingStatus == LoadingStatus(old(loadingStatus).isLoading, Some(progress))
    {
      loadingStatus := loadingStatus.(progress := Some(progress));
    }

    /** loadModel's progress callback for an event with `loaded` and `total` bytes. */
    method OnLoadProgress(loaded: nat, total: nat)
      modifies this`loadingStatus
      ensures loadingStatus == LoadingStatus(old(loadingStatus).isLoading, Some(ProgressPercent(loaded, total)))
      ensures loaded <= total ==> 0 <= loadingStatus.progress.value <= 100
    {
      if loaded <= total {
        ProgressBounds(loaded, total);
      }
      UpdateProgress(ProgressPercent(loaded, total));
    }
  }
}
