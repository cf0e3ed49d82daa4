/**
 * The pose list: the CSS rule for list items, the add/save/edit/delete
 * handlers and the list-item click rule, driving the provider and, through
 * it, the controller.
 */
module PoseList {
  import opened Wrappers
  import opened Contexts
  import opened PoseStore
  import opened Controller
  import AppProvider

  // ---------------------------------------------------------------------------
  // Joining and splitting class names
  // ---------------------------------------------------------------------------

  /** `tokens.join(' ')`. */
  function Join(tokens: seq<string>): (s: string)
    ensures |tokens| >= 1 ==> |s| >= |tokens[0]|
  {
    if |tokens| == 0 then ""
    else if |tokens| == 1 then tokens[0]
    else tokens[0] + " " + Join(tokens[1..])
  }

  /** `s.split(' ')`: the pieces between spaces; the empty string gives one empty piece. */
  function Split(s: string): (r: seq<string>)
    ensures |r| >= 1
  {
    if s == [] then [[]]
    else
      var rest := Split(s[1..]);
      if s[0] == ' ' then [[]] + rest else [[s[0]] + rest[0]] + rest[1..]
  }

  predicate SpaceFree(t: string)
  {
    forall i :: 0 <= i < |t| ==> t[i] != ' '
  }

  lemma {:induction false} SplitAfterWord(t: string, s: string)
    requires SpaceFree(t)
    ensures Split(t + s) == [t + Split(s)[0]] + Split(s)[1..]
    decreases |t|
  {
    if t != [] {
      assert (t + s)[0] == t[0] != ' ';
      assert (t + s)[1..] == t[1..] + s;
      SplitAfterWord(t[1..], s);
      assert [t[0]] + (t[1..] + Split(s)[0]) == t + Split(s)[0];
    } else {
      var r := Split(s);
      assert t + s == s && t + r[0] == r[0];
      assert r == [r[0]] + r[1..];
    }
  }

  /** Splitting joined space-free class names gives the names back. */
  lemma {:induction false} SplitJoin(tokens: seq<string>)
    requires |tokens| >= 1
    requires forall k :: 0 <= k < |tokens| ==> SpaceFree(tokens[k])
    ensures Split(Join(tokens)) == tokens
    decreases |tokens|
  {
    if |tokens| == 1 {
      assert tokens[0] + "" == tokens[0];
      SplitAfterWord(tokens[0], "");
    } else {
      var rest := Join(tokens[1..]);
      SplitJoin(tokens[1..]);
      assert tokens[0] + " " + rest == tokens[0] + (" " + rest);
      SplitAfterWord(tokens[0], " " + rest);
      assert (" " + rest)[1..] == rest;
      assert Split(" " + rest) == [""] + tokens[1..];
      assert tokens[0] + "" == tokens[0];
      assert tokens == [tokens[0]] + tokens[1..];
    }
  }

  // ---------------------------------------------------------------------------
  // Pure rules of the list
  // ---------------------------------------------------------------------------

  /** The placeholder item shown while adding (`newPoseData`). */
  const NewPoseData: PosesData := PosesData(AppProvider.TempId, "ほげ", map[], false)

  const SavedMessage: string := "保存しました。"
  const ConfirmDeleteMessage: string := "削除しますか？"
  const DeletedMessage: string := "削除しました。"

  /** `messageType`: '' | 'success' | 'error'. */
  datatype MessageType = NoMessage | Success | Failure

  /** `isAddMode`. */
  predicate IsAddMode(status: PoseEditorStatus)
    ensures IsAddMode(status) <==> EditTypeValue(status.editType) == "add"
  {
    assert "add"[0] != "edit"[0];
    status.editType == Adding
  }

  /** The id savePose passes: none while adding, so a new pose is created; otherwise the id being edited. */
  function SaveTargetId(status: PoseEditorStatus): (id: Option<string>)
    ensures id.None? <==> IsAddMode(status)
    ensures id.Some? ==> id.value == status.edittingPoseId
  {
    if IsAddMode(status) then None else Some(status.edittingPoseId)
  }

  /** Saving from add mode always stores a new entry under the freshly generated id. */
  lemma AddModeSavesUnderFreshId(status: PoseEditorStatus, freshId: string)
    requires IsAddMode(status)
    ensures ChosenId(SaveTargetId(status), freshId) == freshId
  {
  }

  /**
   * The classes itemCss pushes, in push order: 'selected' exactly for the
   * current pose, 'editting' exactly for the pose being edited and
   * 'deleting' exactly for the pose being deleted.
   */
  function CssTokens(poseId: string, current: string, status: PoseEditorStatus): (ts: seq<string>)
    ensures |ts| <= 3
    ensures "selected" in ts <==> poseId == current
    ensures "editting" in ts <==> poseId == status.edittingPoseId
    ensures "deleting" in ts <==> poseId == status.deletingPoseId
  {
    assert "selected" != "editting" && "selected" != "deleting" && "editting" != "deleting" by {
      assert "selected"[0] != "editting"[0] && "selected"[0] != "deleting"[0] && "editting"[0] != "deleting"[0];
    }
    (if poseId == current then ["selected"] else [])
    + (if poseId == status.edittingPoseId then ["editting"] else [])
    + (if poseId == status.deletingPoseId then ["deleting"] else [])
  }

  /** `itemCss(poseId)`: empty exactly for an item that is neither current, edited nor deleted. */
  function ItemCss(poseId: string, current: string, status: PoseEditorStatus): (s: string)
    ensures s == "" <==> poseId != current && poseId != status.edittingPoseId && poseId != status.deletingPoseId
  {
    Join(CssTokens(poseId, current, status))
  }

  /** Each pushed class is one of the three class names, which hold no space. */
  lemma CssTokensSpaceFree(poseId: string, current: string, status: PoseEditorStatus)
    ensures forall k :: 0 <= k < |CssTokens(poseId, current, status)| ==> SpaceFree(CssTokens(poseId, current, status)[k])
  {
    assert SpaceFree("selected") && SpaceFree("editting") && SpaceFree("deleting");
  }

  /**
   * An item carries 'selected' exactly when it is the current pose, 'editting'
   * exactly when it is being edited and 'deleting' exactly when it is being
   * deleted; the class string lists them in that order.
   */
  lemma ItemCssClasses(poseId: string, current: string, status: PoseEditorStatus)
    ensures "selected" in Split(ItemCss(poseId, current, status)) <==> poseId == current
    ensures "editting" in Split(ItemCss(poseId, current, status)) <==> poseId == status.edittingPoseId
    ensures "deleting" in Split(ItemCss(poseId, current, status)) <==> poseId == status.deletingPoseId
    ensures CssTokens(poseId, current, status) != [] ==>
      Split(ItemCss(poseId, current, status)) == CssTokens(poseId, current, status)
  {
    var ts := CssTokens(poseId, current, status);
    if ts == [] {
      assert Split(ItemCss(poseId, current, status)) == [""];
    } else {
      CssTokensSpaceFree(poseId, current, status);
      SplitJoin(ts);
    }
  }

  /**
   * Whether a click on `poseId` applies the pose: while the edit type is
   * falsy (no editing), or when another pose than the edited one is clicked.
   */
  predicate ClickApplies(poseId: string, status: PoseEditorStatus)
    ensures ClickApplies(poseId, status) <==> EditTypeValue(status.editType) == "" || poseId != status.edittingPoseId
  {
    EditTypeFalsyIffNotEditing(status.editType);
    status.editType == NotEditing || poseId != status.edittingPoseId
  }

  /**
   * The editor status a click on `poseId` leaves: the initial status when
   * another pose than the current one is clicked, the old status otherwise.
   */
  function StatusAfterClick(poseId: string, current: string, status: PoseEditorStatus): (r: PoseEditorStatus)
    ensures poseId != current ==> r == InitialPoseEditorStatus && EditTypeValue(r.editType) == ""
    ensures poseId == current ==> r == status
  {
    if poseId != current then InitialPoseEditorStatus else status
  }

  /** The current pose after a click on `poseId`: the clicked pose when the click applies it. */
  function PoseAfterClick(poseId: string, current: string, status: PoseEditorStatus): (r: string)
    ensures r == poseId || r == current
    ensures r != current ==> ClickApplies(poseId, status)
  {
    if ClickApplies(poseId, status) then poseId else current
  }

  /**
   * Clicking the current pose while it is being edited neither resets the
   * editor nor reapplies the pose.
   */
  lemma ClickOnEditedItemIsInert(status: PoseEditorStatus, current: string)
    requires status.editType != NotEditing && current == status.edittingPoseId
    ensures !ClickApplies(current, status)
    ensures StatusAfterClick(current, current, status) == status
    ensures PoseAfterClick(current, current, status) == current
  {
  }

  /**
   * The edit button does not apply the pose it edits, so the edited pose can
   * differ from the current one. Clicking the edited pose then resets the
   * editor, and the pose is still not applied.
   */
  lemma ClickOnEditedOtherItemResets(status: PoseEditorStatus, current: string)
    requires status.editType != NotEditing && current != status.edittingPoseId
    ensures !ClickApplies(status.edittingPoseId, status)
    ensures StatusAfterClick(status.edittingPoseId, current, status) == InitialPoseEditorStatus
    ensures PoseAfterClick(status.edittingPoseId, current, status) == current
  {
  }

  // ---------------------------------------------------------------------------
  // The component's held state and handlers
  // ---------------------------------------------------------------------------

  class PoseListControls {
    const provider: AppProvider.Provider
    /** `userPosesList`, as the table it was read from (its order is not modelled). */
    var userPosesList: UserPosesMap
    var confirmMessage: string
    var savedMessage: string
    var messageType: MessageType
    var isDeleted: bool

    ghost predicate Valid()
      reads this, provider, provider.manager
    {
      provider.Valid()
    }

    constructor (p: AppProvider.Provider)
      requires p.Valid()
      ensures Valid() && provider == p
      ensures userPosesList == p.manager.userPoses
      ensures confirmMessage == ConfirmDeleteMessage && savedMessage == ""
      ensures messageType == NoMessage && !isDeleted
    {
      provider := p;
      userPosesList := p.manager.userPoses;
      confirmMessage := ConfirmDeleteMessage;
      savedMessage := "";
      messageType := NoMessage;
      isDeleted := false;
    }

    /** setAddMode: add mode, and the placeholder id becomes the current pose. */
    method SetAddMode()
      requires Valid()
      modifies provider`poseEditorStatus, provider`poseId,
               provider.manager`idlePlaying, provider.manager`boneControlling, provider.manager`boneControls,
               provider.manager`bodyControl, provider.manager`currentPoseId, provider.manager`appliedPose,
               provider.manager`waitingActivated
      ensures Valid()
      ensures provider.poseEditorStatus == AppProvider.AddModeStatus(old(provider.poseEditorStatus))
      ensures provider.poseId == NewPoseData.id
      ensures provider.manager.boneControlling && provider.manager.bodyControl.Some?
      ensures provider.manager.bodyControl.value.AllHidden()
    {
      provider.SetPoseAddMode();
      provider.SetPose(NewPoseData.id);
    }

    /** resetMode: the editor back to its initial status and the form cleared (its delay collapsed). */
    method ResetMode()
      requires Valid()
      modifies provider`poseEditorStatus, provider`poseFormData,
               provider.manager`boneControls, provider.manager`activeBone, provider.manager`boneControlling,
               provider.manager`idlePlaying, provider.manager`waitingActivated, provider.manager`bodyControl
      ensures Valid()
      ensures provider.poseEditorStatus == InitialPoseEditorStatus && provider.poseFormData == InitialPoseFormData
      ensures provider.manager.boneControls == map[] && !provider.manager.boneControlling
      ensures provider.manager.activeBone.None? && provider.manager.bodyControl.None?
      ensures provider.manager.waitingActivated == old(provider.manager.waitingActivated)
      ensures provider.manager.idlePlaying == provider.manager.waitingActivated
    {
      provider.ResetPoseEditorStatus();
      provider.ClearPoseFormData();
    }

    /**
     * savePose, given what the controller's getPose returns, the random
     * source and the storage outcome: the immediate part, before its timers.
     * A failure leaves the editor and the list alone and shows the error.
     */
    method SavePose(live: Option<PoseData>, rand: seq<real>, outcome: StorageOutcome) returns (r: SaveResult)
      requires Valid()
      requires |rand| == |Util.UuidTemplate|
      requires forall i :: 0 <= i < |rand| ==> Util.IsRandom(rand[i])
      modifies this`savedMessage, this`messageType, provider.manager`userPoses
      ensures Valid()
      ensures live.None? || outcome != Written ==> provider.manager.userPoses == old(provider.manager.userPoses)
      ensures live.Some? && outcome == Written ==>
        && r == Saved(ChosenId(SaveTargetId(provider.poseEditorStatus), Util.UuidFrom(rand)))
        && provider.manager.userPoses ==
             SaveEntry(old(provider.manager.userPoses), r.id,
                       ChosenName(provider.poseFormData.poseName, |old(provider.manager.userPoses)|),
                       PoseForSave(live.value, provider.manager.basePosition))
      ensures r.Saved? ==> savedMessage == SavedMessage && messageType == Success
      ensures r.SaveFailed? ==> savedMessage == r.error && messageType == Failure
    {
      r := provider.manager.SavePoseData(provider.poseFormData.poseName, SaveTargetId(provider.poseEditorStatus),
                                         live, rand, outcome);
      if r.Saved? {
        savedMessage := SavedMessage;
        messageType := Success;
      } else {
        savedMessage := r.error;
        messageType := Failure;
      }
    }

    /** savePose's 300 ms callback after a save under `id`: reset, refresh the list, apply the pose. */
    method AfterSave(id: string)
      requires Valid()
      modifies this`userPosesList, provider`poseEditorStatus, provider`poseFormData, provider`poseId,
               provider.manager`boneControls, provider.manager`activeBone, provider.manager`boneControlling,
               provider.manager`idlePlaying, provider.manager`waitingActivated, provider.manager`bodyControl,
               provider.manager`currentPoseId, provider.manager`appliedPose
      ensures Valid()
      ensures provider.poseEditorStatus == InitialPoseEditorStatus && provider.poseFormData == InitialPoseFormData
      ensures userPosesList == provider.manager.userPoses
      ensures provider.poseId == id
      ensures !provider.manager.boneControlling && provider.manager.bodyControl.None?
      ensures !ResolvePose(provider.manager.presets, provider.manager.userPoses, id).NotFound? ==>
        provider.manager.currentPoseId == id
    {
      ResetMode();
      userPosesList := provider.manager.userPoses;
      provider.SetPose(id);
    }

    /** The message timers' callback. */
    method HideMessage()
      modifies this`messageType
      ensures messageType == NoMessage
    {
      messageType := NoMessage;
    }

    /**
     * handleListItemClick: the editor is reset when another pose is clicked,
     * and the pose is applied unless it is the one being edited. Both tests
     * read the state as it was when the item was rendered.
     */
    method HandleListItemClick(poseId: string)
      requires Valid()
      modifies provider`poseEditorStatus, provider`poseFormData, provider`poseId,
               provider.manager`boneControls, provider.manager`activeBone, provider.manager`boneControlling,
               provider.manager`idlePlaying, provider.manager`waitingActivated, provider.manager`bodyControl,
               provider.manager`currentPoseId, provider.manager`appliedPose
      ensures Valid()
      ensures poseId != old(provider.poseId) ==>
        && provider.poseEditorStatus == InitialPoseEditorStatus && provider.poseFormData == InitialPoseFormData
        && !provider.manager.boneControlling && provider.manager.bodyControl.None?
      ensures poseId == old(provider.poseId) ==>
        && provider.poseEditorStatus == old(provider.poseEditorStatus) && provider.poseFormData == old(provider.poseFormData)
        && provider.manager.boneControlling == old(provider.manager.boneControlling)
      ensures provider.poseId == if ClickApplies(poseId, old(provider.poseEditorStatus)) then poseId else old(provider.poseId)
      ensures provider.poseId == PoseAfterClick(poseId, old(provider.poseId), old(provider.poseEditorStatus))
      ensures provider.poseEditorStatus == StatusAfterClick(poseId, old(provider.poseId), old(provider.poseEditorStatus))
      ensures (ClickApplies(poseId, old(provider.poseEditorStatus))
               && !ResolvePose(provider.manager.presets, provider.manager.userPoses, poseId).NotFound?) ==>
        provider.manager.currentPoseId == poseId
      ensures !ClickApplies(poseId, old(provider.poseEditorStatus)) ==>
        provider.manager.currentPoseId == old(provider.manager.currentPoseId)
    {
      var current := provider.poseId;
      var status := provider.poseEditorStatus;
      if poseId != current {
        ResetMode();
      }
      if status.editType == NotEditing || poseId != status.edittingPoseId {
        provider.SetPose(poseId);
      }
    }

    /** handleEditBtnClick: the form takes the pose's name and the editor edits its id. */
    method HandleEditBtnClick(pose: PosesData)
      requires Valid()
      modifies provider`poseFormData, provider`poseEditorStatus,
               provider.manager`idlePlaying, provider.manager`boneControlling, provider.manager`boneControls,
               provider.manager`bodyControl
      ensures Valid()
      ensures provider.poseFormData.poseName == pose.name
      ensures provider.poseEditorStatus == AppProvider.EditStatus(old(provider.poseEditorStatus), pose.id)
      ensures provider.manager.boneControlling && provider.manager.bodyControl.Some?
    {
      provider.SetPoseFormData(pose.name);
      provider.SetEditPoseId(pose.id);
      provider.manager.ActivateBoneControls();
    }

    /** handleDeleteBtnClick: ask for confirmation and mark the pose as being deleted. */
    method HandleDeleteBtnClick(poseId: string)
      requires Valid()
      modifies this`confirmMessage, provider`poseEditorStatus
      ensures Valid()
      ensures confirmMessage == ConfirmDeleteMessage
      ensures provider.poseEditorStatus == AppProvider.DeleteStatus(old(provider.poseEditorStatus), poseId)
    {
      confirmMessage := ConfirmDeleteMessage;
      provider.SetDeletePoseId(poseId);
    }

    /** handleDeleteOkBtnClick, given the storage outcome; a failure changes nothing. */
    method HandleDeleteOkBtnClick(poseId: string, outcome: StorageOutcome)
      requires Valid()
      modifies this`isDeleted, this`confirmMessage, provider.manager`userPoses
      ensures Valid()
      ensures outcome == Written ==>
        && provider.manager.userPoses == DeleteEntry(old(provider.manager.userPoses), poseId)
        && isDeleted && confirmMessage == DeletedMessage
      ensures outcome != Written ==>
        && provider.manager.userPoses == old(provider.manager.userPoses)
        && isDeleted == old(isDeleted) && confirmMessage == old(confirmMessage)
    {
      var r := provider.manager.DeletePoseData(poseId, outcome);
      if r.Deleted? {
        isDeleted := true;
        confirmMessage := DeletedMessage;
      }
    }

    /** handleDeleteOkBtnClick's 1200 ms callback: refresh the list and close the editor. */
    method AfterDelete()
      requires Valid()
      modifies this`userPosesList, this`isDeleted, provider`poseEditorStatus,
               provider.manager`boneControls, provider.manager`activeBone, provider.manager`boneControlling,
               provider.manager`idlePlaying, provider.manager`waitingActivated, provider.manager`bodyControl
      ensures Valid()
      ensures userPosesList == provider.manager.userPoses && !isDeleted
      ensures provider.poseEditorStatus == InitialPoseEditorStatus
      ensures !provider.manager.boneControlling && provider.manager.bodyControl.None?
    {
      userPosesList := provider.manager.userPoses;
      isDeleted := false;
      provider.ResetPoseEditorStatus();
    }

    /** handleDeleteCancelBtnClick. */
    method HandleDeleteCancelBtnClick()
      requires Valid()
      modifies provider`poseEditorStatus,
               provider.manager`boneControls, provider.manager`activeBone, provider.manager`boneControlling,
               provider.manager`idlePlaying, provider.manager`waitingActivated, provider.manager`bodyControl
      ensures Valid()
      ensures provider.poseEditorStatus == InitialPoseEditorStatus
      ensures !provider.manager.boneControlling && provider.manager.bodyControl.None?
    {
      provider.ResetPoseEditorStatus();
    }
  }
}
