/**
 * The shared records the application state is made of: the pose editor's
 * status, the pose form and the loading status, with their initial values.
 */
module Contexts {
  import opened Wrappers

  /** `PoseEditType`: '' | 'add' | 'edit'. */
  datatype PoseEditType = NotEditing | Adding | Editing

  function EditTypeValue(t: PoseEditType): string
  {
    match t
    case NotEditing => ""
    case Adding => "add"
    case Editing => "edit"
  }

  /** `PoseControlType`: 'bone' | 'body'. */
  datatype PoseControlType = Bone | Body

  datatype PoseEditorStatus = PoseEditorStatus(
    editType: PoseEditType,
    controlType: PoseControlType,
    edittingPoseId: string,
    deletingPoseId: string)

  /** `initialPoseEditorStatus`. */
  const InitialPoseEditorStatus: PoseEditorStatus := PoseEditorStatus(NotEditing, Bone, "", "")

  datatype PoseEditorForm = PoseEditorForm(poseName: string)

  /** `initialPoseFormData`. */
  const InitialPoseFormData: PoseEditorForm := PoseEditorForm("")

  /** `LoadingStatus`: the progress is absent until the first progress event. */
  datatype LoadingStatus = LoadingStatus(isLoading: bool, progress: Option<int>)

  /** `initialLoadingStatus`. */
  const InitialLoadingStatus: LoadingStatus := LoadingStatus(false, None)

  /** The only edit type that is falsy is the empty one. */
  lemma EditTypeFalsyIffNotEditing(t: PoseEditType)
    ensures EditTypeValue(t) == "" <==> t == NotEditing
  {
    assert EditTypeValue(Adding) == "add";
    assert EditTypeValue(Editing) == "edit";
  }
}
