# vrm-viewer: controller and editor state, in Dafny

vrm-viewer is a browser viewer for VRM avatars. You can set expression weights, choose a pose, pose the skeleton with on-screen manipulators, and save your own poses. This project models the viewer's state bookkeeping with the 3D engine abstracted away, and proves what that bookkeeping promises.

The modules follow the program's structure:

- **VrmSchema** — the two vocabularies the avatar library supplies:
  - the humanoid bone names;
  - the blend-shape preset names.

  It also holds the list of bones that get a manipulator (every bone except the jaw and both eyes).
- **Util** (`src/util/functions.ts`) — the user-agent mobile check, and UUID version 4 template filling. In the UUID, each random digit is supplied as an input. The result has the textual layout of section 4.4 of RFC 4122: dashes at 8, 13, 18 and 23, a `4` at 14, one of `89ab` at 19, and lower-case hex digits elsewhere.
- **PoseStore** — the pose records and the preset table; pose resolution (presets first, then the user table); and the pure rules of saving and deleting:
  - saving keeps each bone's rotation, plus the hips position relative to the base position;
  - the name and id defaults;
  - the single-key insert and delete on the user table;
  - the error messages.
- **Manipulators** — a manipulator as a record of its size and the visibility of its three handles, with the map-wide updates the controller applies. Examples: enlarge one and hide the rest, a tap reset, show/hide all.
- **IdleMotion** — the idle ("waiting") clip's keyframe table. The per-keyframe Euler triple is built by a loop.
- **Controller** (`class VrmManager`) — the controller as a class whose methods update its fields:
  - the expression-weight map with its blink-interference flag and manual blink baseline;
  - the current pose;
  - the user pose table, held in memory in place of local storage;
  - the idle-motion flags;
  - the bone manipulator map, the selected bone and the optional body manipulator;
  - the tap flag.

  `Valid()` states the invariants every method keeps:
  - a manipulator for exactly the controllable bones while bone control is on, and none otherwise;
  - only the selected bone's manipulator is at the default size;
  - idle motion plays only while enabled and no manipulator is active;
  - the interference flag agrees with the weights.
- **Contexts** — the editor status, form and loading records with their initial values.
- **AppProvider** (`class Provider`) — the pose-editor status transitions as pure record updates. The provider's setters update the held state and drive the controller. It also holds the loading status and the progress-percentage rule.
- **MenuPanels** — the menu-mode toggle and the list of modes offered.
- **PoseList** (`class PoseListControls`) — the list-item class rule and the add/save/edit/delete and click handlers.

Values the program gets from the browser are parameters:

- what the skeleton's `getPose` returns;
- the random numbers;
- the timestamps of pointer events;
- the user-agent string and whether touch events exist;
- the outcome of a storage write;
- the value of the automatic blink curve.

Timer callbacks are separate methods that the environment calls later.

Load progress is reported as a percentage: `Math.round(100 * (loaded / total))`, a value from 0 to 100 while no more than the total has arrived, or 100 when `loaded / total` is not finite (`src/Provider.tsx:164-167`).

## Model

| member | source | states |
|---|---|---|
| VrmSchema.FilterOut | src/VrmManager.ts:124-127 | the filter never lengthens the list (what it keeps is FilterOutMembers) |
| VrmSchema.FilterOutMembers | src/VrmManager.ts:124-127 | the filter keeps a bone name exactly when it is in the list and not excluded |
| VrmSchema.ControllableBoneNamesSpec | src/VrmManager.ts:118-127 | a bone is in `controlableBoneNameArray` exactly when it is not Jaw, LeftEye or RightEye |
| VrmSchema.AllBlendShapeNamesComplete | src/VrmManager.ts:31-44 | every blend-shape preset the viewer uses has an entry in the initial weight map |
| Util.IndexOf | src/util/functions.ts:7-10 | `indexOf > -1` holds exactly when the pattern occurs, and the index is its first occurrence |
| Util.ToLower | src/util/functions.ts:5 | lower-casing keeps the length and maps each character separately |
| Util.ToLowerIdempotent | src/util/functions.ts:5 | lower-casing twice is lower-casing once |
| Util.IsMobileDevice | src/util/functions.ts:4-15 | mobile exactly when the lower-cased UA contains iphone, ipad or android, or contains macintosh while touch end is supported |
| Util.IsMobileDeviceIgnoresCase | src/util/functions.ts:4-15 | the verdict does not depend on the case of the UA string |
| Util.MixedCaseIPhoneIsMobile | src/util/functions.ts:5-7 | a mixed-case "iPhone" UA counts as mobile |
| Util.TemplateLayout | src/util/functions.ts:21 | the template has '-' at 8, 13, 18 and 23, '4' at 14, 'y' at 19 and 'x' elsewhere |
| Util.UuidFrom | src/util/functions.ts:20-33 | the filled identifier has the template's length, keeps every template character other than `x` and `y`, and puts a lower-case hex digit at every `x` and `y` |
| Util.UuidFromIsV4 | src/util/functions.ts:20-33 | any random digits fill the template into a 36-character version-4 UUID: dashes at 8, 13, 18, 23, '4' at 14, one of 8, 9, a, b at 19, lower-case hex elsewhere |
| Util.GenerateUuid | src/util/functions.ts:20-33 | the in-place loop produces exactly the filled template, which is a version-4 UUID |
| PoseStore.PresetPosesMap | src/VrmManager.ts:63-96 | the preset table has exactly the four preset ids, each entry carries its own id and the preset flag |
| PoseStore.GeneratedIdIsNeverPreset | src/VrmManager.ts:703 | a generated UUID is never a preset id |
| PoseStore.ResolvePose | src/VrmManager.ts:364-373 | the preset table wins if it has the id, else the user table if it has it, else nothing is found |
| PoseStore.PresetShadowsUser | src/VrmManager.ts:365-369 | a user pose stored under a preset id never replaces the preset |
| PoseStore.SavedTransform | src/VrmManager.ts:684-694 | a saved bone keeps its rotation and has a position exactly when it is the hips |
| PoseStore.PoseForSave | src/VrmManager.ts:682-697 | the saved record has the live pose's bones, keeps every rotation and has a position for the hips only |
| PoseStore.ExtractPose | src/VrmManager.ts:682-697 | the saved pose has the same bones, keeps every rotation and has a position for the hips only |
| PoseStore.HipsOffsetFromBase | src/VrmManager.ts:687-694 | the stored hips position is the live hips position (the origin when absent) minus the base position, so the base plus the stored offset is the live position |
| PoseStore.NatToString | src/VrmManager.ts:702 | the decimal rendering of a count is a non-empty digit string |
| PoseStore.NatToStringRoundTrip | src/VrmManager.ts:702 | reading back the decimal rendering gives the number |
| PoseStore.ChosenName | src/VrmManager.ts:701-702 | a non-empty name is kept; an empty one becomes "ポーズ {count+1}" |
| PoseStore.ChosenId | src/VrmManager.ts:703 | a given non-empty id is kept; otherwise the fresh id is used |
| PoseStore.SaveEntry | src/VrmManager.ts:709-712 | exactly one key is set, to the new record, and every other entry is unchanged |
| PoseStore.DeleteEntry | src/VrmManager.ts:734 | exactly that key is removed; an absent key leaves the table as it was |
| PoseStore.SaveThenDelete | src/VrmManager.ts:709-734 | deleting what was just saved is the same as deleting from the table before the save |
| PoseStore.SaveThenResolve | src/VrmManager.ts:364-369 | a pose saved under a non-preset id is found in the user table with what was saved |
| PoseStore.SaveErrorMessage | src/VrmManager.ts:715-721 | a quota failure gets its own message, every other failure the generic one |
| Manipulators.Control.WithHandles | src/VrmManager.ts:532-534 | showing or hiding handles sets all three and keeps the size |
| Manipulators.SetAllHandles | src/VrmManager.ts:590-609 | every manipulator's handles are set to shown/hidden with sizes kept |
| Manipulators.ResetControls | src/VrmManager.ts:577-585 | every manipulator becomes small with all handles shown |
| Manipulators.Focus | src/VrmManager.ts:527-536 | the chosen bone is enlarged and every other bone has all handles hidden |
| Manipulators.HideExcept | src/VrmManager.ts:529-536 | hiding the listed bones other than the kept one keeps the keys and the sizes |
| Manipulators.HideExceptSnoc | src/VrmManager.ts:529-536 | hiding one more listed bone extends the hiding by that bone alone |
| Manipulators.SelectThenHideIsFocus | src/VrmManager.ts:527-536 | enlarge-then-hide over every bone is `Focus` |
| Manipulators.FreshControls | src/VrmManager.ts:510-551 | one small, fully shown manipulator for exactly the controllable bones |
| Manipulators.SetAllHandlesIdempotent | src/VrmManager.ts:590-609 | the last show/hide wins whatever came before |
| Manipulators.ResetForgetsFocus | src/VrmManager.ts:577-585 | a reset erases any selection, and resetting twice is resetting once |
| Manipulators.FocusLeavesOnlySelectionVisible | src/VrmManager.ts:527-536 | after a selection only the selected bone can have a visible handle |
| IdleMotion.AxisIndex | src/VrmManager.ts:20-24 | the axis enum values are x = 0, y = 1, z = 2, each value belonging to exactly one axis |
| IdleMotion.EulerTriple | src/VrmManager.ts:872-880 | the triple has three entries |
| IdleMotion.EulerArray | src/VrmManager.ts:872-880 | the loop puts the signed angle on the chosen axis and zero on the other two |
| IdleMotion.TrackKeys | src/VrmManager.ts:845-856 | one key per keyframe of the table |
| IdleMotion.WaitingFramesOrdered | src/VrmManager.ts:822-831 | keyframe times strictly increase |
| IdleMotion.TrackKeysShape | src/VrmManager.ts:822-880 | every key turns only about its track's axis, and the clip starts and ends at rest |
| IdleMotion.MirroredTrackNegates | src/VrmManager.ts:845 | an inverted track is the exact negation of the plain one, at the same times |
| Controller.InterferenceMax | src/VrmManager.ts:351-355 | the fold yields the largest interfering weight (at least 0), and it is positive exactly when some interfering weight is |
| Controller.NonInterferingKeepsFlag | src/VrmManager.ts:47-54 | setting Blink or a vowel never changes whether blinking is suppressed |
| Controller.InterferingDecidesFlag | src/VrmManager.ts:47-54 | a positive interfering weight suppresses blinking; zero, with the others at zero, releases it |
| Controller.InitialWeightsNotInterfered | src/VrmManager.ts:31-44 | the initial weights suppress nothing |
| Controller.BlinkValue | src/VrmManager.ts:282-288 | the blink value is the larger of the manual baseline and the curve |
| Controller.ControllableAllInMap | src/VrmManager.ts:124-127 | a map with a manipulator for exactly the controllable bones has one for exactly the names in `controlableBoneNameArray` |
| Controller.FocusKeepsControlsValid | src/VrmManager.ts:519-537 | selecting a bone when none is selected keeps the manipulator invariant |
| Controller.ResetKeepsControlsValid | src/VrmManager.ts:577-585 | a reset keeps the manipulator invariant with no selection |
| Controller.SetAllHandlesKeepsControlsValid | src/VrmManager.ts:590-609 | show/hide all keeps the manipulator invariant |
| Controller.VrmManager.constructor | src/VrmManager.ts:148-194 | the controller starts in the `initialData` state and satisfies its invariant |
| Controller.VrmManager.UpdateBlendShape | src/VrmManager.ts:344-357 | only that weight changes; Blink updates the manual baseline; the flag is set exactly when an interfering weight is positive |
| Controller.VrmManager.ToggleBlinkActivated | src/VrmManager.ts:400-409 | switching blinking off applies exactly the manual baseline to Blink |
| Controller.VrmManager.RenderFrame | src/VrmManager.ts:773-779 | the blink curve is applied only while blinking is on and not suppressed |
| Controller.VrmManager.PlayWaitingAnimation | src/VrmManager.ts:446-485 | idling is enabled, and the clip starts only while no manipulator is active |
| Controller.VrmManager.StopWaitingAnimation | src/VrmManager.ts:491-494 | idling is disabled and the clip stopped |
| Controller.VrmManager.ToggleWaitingActivated | src/VrmManager.ts:416-423 | the flag takes the value, and the clip plays exactly when on and no manipulator is active |
| Controller.VrmManager.SetPose | src/VrmManager.ts:364-384 | an unknown id changes nothing; a found one becomes current and is applied, and idling restarts exactly when enabled with no manipulator |
| Controller.VrmManager.SavePoseData | src/VrmManager.ts:678-722 | on success the table gains or overwrites exactly one key (the given or a fresh id) with the stripped pose and default name, and that id is returned; every failure leaves the table unchanged, and a quota failure is reported separately |
| Controller.VrmManager.DeletePoseData | src/VrmManager.ts:729-741 | exactly that key is removed and the call succeeds even when the key is absent; a failed write changes nothing |
| Controller.VrmManager.ActivateBoneControls | src/VrmManager.ts:499-552 | bone control is on and idling paused; manipulators are created only when there are none, one per controllable bone, so a second call changes nothing |
| Controller.VrmManager.AddControls | src/VrmManager.ts:510-551 | each listed bone gets a fresh manipulator and the others are kept |
| Controller.VrmManager.DeactivateBoneControls | src/VrmManager.ts:558-571 | the map is emptied, the selection cleared, bone control off, and idling resumes only if enabled |
| Controller.VrmManager.ResetBoneControlsManipulator | src/VrmManager.ts:577-585 | every manipulator is small and fully shown and no bone is selected |
| Controller.VrmManager.ShowBoneControlsManipulator | src/VrmManager.ts:590-597 | all bone handles shown and the hidden flag cleared |
| Controller.VrmManager.HideBoneControlsManipulator | src/VrmManager.ts:602-609 | all bone handles hidden and the hidden flag set |
| Controller.VrmManager.SetBoneHandles | src/VrmManager.ts:590-609 | the loop gives every manipulator the requested handle visibility |
| Controller.VrmManager.BoneMouseDown | src/VrmManager.ts:519-538 | with no selection the pressed bone is selected, enlarged and the others hidden; with a selection nothing changes |
| Controller.VrmManager.SelectBone | src/VrmManager.ts:527-536 | the selecting branch yields `Focus` of the previous map |
| Controller.VrmManager.HideOthers | src/VrmManager.ts:529-536 | the inner loop hides every listed bone except the pressed one |
| Controller.VrmManager.BoneMouseUp | src/VrmManager.ts:539-541 | the tap flag is set |
| Controller.VrmManager.DraggingChanged | src/VrmManager.ts:543-545 | orbiting is enabled exactly when not dragging |
| Controller.VrmManager.OrbitStart | src/VrmManager.ts:217-219 | the press time is recorded |
| Controller.VrmManager.OrbitEnd | src/VrmManager.ts:220-228 | a release under 200 ms, with handles not hidden and no manipulator tapped, resets the manipulators; the tap flag is always cleared |
| Controller.VrmManager.ActivateBodyControls | src/VrmManager.ts:615-637 | idling paused; a body manipulator is created only when none exists |
| Controller.VrmManager.DeactivateBodyControls | src/VrmManager.ts:642-650 | a no-op without a body manipulator; otherwise it is removed and idling resumes if enabled |
| Controller.VrmManager.ShowBodyControlsManipulator | src/VrmManager.ts:655-660 | a no-op without a body manipulator; otherwise all its handles shown |
| Controller.VrmManager.HideBodyControlsManipulator | src/VrmManager.ts:665-670 | a no-op without a body manipulator; otherwise all its handles hidden |
| Contexts.EditTypeFalsyIffNotEditing | src/contexts.ts:32-50 | the edit type's string is empty (falsy) exactly when not editing |
| AppProvider.AddModeStatus | src/Provider.tsx:71-76 | editType 'add', edittingPoseId 'tempId', deletingPoseId '' and the control type kept |
| AppProvider.EditStatus | src/Provider.tsx:82-87 | editType 'edit', the given edittingPoseId, deletingPoseId '' and the control type kept |
| AppProvider.DeleteStatus | src/Provider.tsx:92-100 | editType '', the given deletingPoseId, with edittingPoseId and control type kept |
| AppProvider.ControlTypeStatus | src/Provider.tsx:101-105 | only the control type changes |
| AppProvider.ControlTypeCommutes | src/Provider.tsx:70-105 | choosing the control type commutes with the add, edit and delete transitions |
| AppProvider.EnteringModeForgetsHistory | src/Provider.tsx:70-91 | entering add or edit mode depends only on the previous control type |
| AppProvider.ProgressBounds | src/Provider.tsx:164-167 | while loaded does not exceed total the percentage is between 0 and 100 |
| AppProvider.ProgressMonotone | src/Provider.tsx:164-167 | more loaded bytes never lower the percentage |
| AppProvider.ProgressComplete | src/Provider.tsx:164-167 | a complete load reports 100, and so does a zero total |
| AppProvider.Provider.constructor | src/Provider.tsx:34-54 | the provider starts from the initial weights, pose, editor status, form and loading status |
| AppProvider.Provider.SetBlendShape | src/Provider.tsx:59-65 | only that key of the held map changes and the same pair reaches the controller |
| AppProvider.Provider.SetPose | src/Provider.tsx:66-69 | the held id always changes; the controller applies it only when it names a pose |
| AppProvider.Provider.ActivateEditing | src/Provider.tsx:77-79 | bone and body manipulators exist, idling is paused and the body handles are hidden |
| AppProvider.Provider.SetPoseAddMode | src/Provider.tsx:70-80 | the add-mode status, with manipulators on and body handles hidden |
| AppProvider.Provider.SetEditPoseId | src/Provider.tsx:81-91 | the edit status for the id, with manipulators on and body handles hidden |
| AppProvider.Provider.SetDeletePoseId | src/Provider.tsx:92-100 | only the status changes, to the delete status |
| AppProvider.Provider.ChangePoseControlType | src/Provider.tsx:101-114 | only the control type changes; 'bone' hides body handles and shows bone handles, 'body' the reverse |
| AppProvider.Provider.ResetPoseEditorStatus | src/Provider.tsx:115-119 | every manipulator removed, idling resumed if enabled, the status exactly the initial one |
| AppProvider.Provider.SetPoseFormData | src/Provider.tsx:120-122 | the form holds the new pose name |
| AppProvider.Provider.ClearPoseFormData | src/Provider.tsx:123-125 | the form is back to its initial value |
| AppProvider.Provider.StartLoading | src/Provider.tsx:146-148 | loading, with no progress |
| AppProvider.Provider.StopLoading | src/Provider.tsx:149-151 | not loading, with no progress |
| AppProvider.Provider.UpdateProgress | src/Provider.tsx:152-154 | the loading flag kept and the progress replaced |
| AppProvider.ProgressPercent | src/Provider.tsx:164-166 | with a zero total the report is 100; otherwise it is the integer nearest to 100 times the loaded fraction, halves rounded up |
| AppProvider.Provider.OnLoadProgress | src/Provider.tsx:163-168 | the reported progress is the percentage rule, and within 0..100 while loaded does not exceed total |
| MenuPanels.FilterTruthy | src/components/molecules/MenuPanels.tsx:30 | the filter never lengthens the list and keeps only modes with a non-empty value |
| MenuPanels.FilterTruthyMembers | src/components/molecules/MenuPanels.tsx:30 | the filter keeps exactly the modes with a non-empty value |
| MenuPanels.MenuModeListSpec | src/components/molecules/MenuPanels.tsx:6-30 | the menu offers Emotion, Face, Pose, Model, Option in that order, i.e. every mode but Neutral |
| MenuPanels.ChangeMenuMode | src/components/molecules/MenuPanels.tsx:17-24 | clicking the current mode gives Neutral, clicking another selects it |
| MenuPanels.ClickTwiceCloses | src/components/molecules/MenuPanels.tsx:17-24 | two clicks on a mode other than the current one (from Neutral, say) return to Neutral |
| MenuPanels.ClickToggles | src/components/molecules/MenuPanels.tsx:17-24 | clicking an offered mode selects it exactly when it was not current |
| PoseList.SplitAfterWord | src/components/molecules/PoseListControls.tsx:63 | a space-free prefix glues onto the first piece of a split |
| PoseList.SplitJoin | src/components/molecules/PoseListControls.tsx:63 | splitting space-joined space-free class names gives them back |
| PoseList.CssTokensSpaceFree | src/components/molecules/PoseListControls.tsx:53-62 | every pushed class name is free of spaces |
| PoseList.CssTokens | src/components/molecules/PoseListControls.tsx:51-70 | at most three classes; 'selected' exactly for the current pose, 'editting' exactly for the edited pose, 'deleting' exactly for the pose being deleted |
| PoseList.ItemCss | src/components/molecules/PoseListControls.tsx:51-70 | the class string is empty exactly when the item is neither current, edited nor being deleted |
| PoseList.ItemCssClasses | src/components/molecules/PoseListControls.tsx:51-70 | the class string holds 'selected' iff the current pose, 'editting' iff being edited, 'deleting' iff being deleted, space-joined in that order |
| PoseList.IsAddMode | src/components/molecules/PoseListControls.tsx:48-50 | add mode holds exactly when the edit type's value is 'add' |
| PoseList.SaveTargetId | src/components/molecules/PoseListControls.tsx:48-91 | no id exactly in add mode, otherwise the id being edited |
| PoseList.AddModeSavesUnderFreshId | src/components/molecules/PoseListControls.tsx:88-91 | a save from add mode always stores under a freshly generated id |
| PoseList.ClickApplies | src/components/molecules/PoseListControls.tsx:135-140 | a click applies the pose exactly when the edit type is falsy or another pose than the edited one is clicked |
| PoseList.StatusAfterClick | src/components/molecules/PoseListControls.tsx:130-134 | a click on another pose than the current one leaves the initial (not editing) status, a click on the current pose keeps the status |
| PoseList.PoseAfterClick | src/components/molecules/PoseListControls.tsx:135-139 | after a click the current pose is the clicked one or unchanged, and it changes only when the click applies the pose |
| PoseList.ClickOnEditedItemIsInert | src/components/molecules/PoseListControls.tsx:130-141 | clicking the current pose while it is being edited neither resets the editor nor reapplies the pose |
| PoseList.ClickOnEditedOtherItemResets | src/components/molecules/PoseListControls.tsx:130-141 | when the edited pose is not the current one (the edit button does not apply it), clicking it resets the editor and still does not apply it |
| PoseList.PoseListControls.constructor | src/components/molecules/PoseListControls.tsx:40-46 | the list is the stored table and the messages start at their initial values |
| PoseList.PoseListControls.SetAddMode | src/components/molecules/PoseListControls.tsx:73-77 | add mode is entered and the held pose id becomes 'tempId' |
| PoseList.PoseListControls.ResetMode | src/components/molecules/PoseListControls.tsx:80-83 | the editor status and form are back to their initial values and every manipulator is removed |
| PoseList.PoseListControls.SavePose | src/components/molecules/PoseListControls.tsx:86-118 | the save goes to the controller with no id in add mode and the edited id otherwise; success shows the saved message, while failure shows the error and leaves the editor and the table unchanged |
| PoseList.PoseListControls.AfterSave | src/components/molecules/PoseListControls.tsx:97-103 | the editor is reset, the list refreshed and the saved pose applied |
| PoseList.PoseListControls.HideMessage | src/components/molecules/PoseListControls.tsx:104-108 | the message is hidden |
| PoseList.PoseListControls.HandleListItemClick | src/components/molecules/PoseListControls.tsx:130-149 | the editor is reset iff another pose is clicked; the pose is applied unless it is the one being edited while editing; the resulting status and pose are StatusAfterClick and PoseAfterClick |
| PoseList.PoseListControls.HandleEditBtnClick | src/components/molecules/PoseListControls.tsx:152-160 | the form takes the pose's name, the editor edits its id and bone control is on |
| PoseList.PoseListControls.HandleDeleteBtnClick | src/components/molecules/PoseListControls.tsx:163-170 | the confirmation text is set and the pose marked as being deleted |
| PoseList.PoseListControls.HandleDeleteOkBtnClick | src/components/molecules/PoseListControls.tsx:172-194 | on success exactly that key is removed and the deleted message shown; a failure changes nothing |
| PoseList.PoseListControls.AfterDelete | src/components/molecules/PoseListControls.tsx:182-188 | the list is refreshed and the editor reset |
| PoseList.PoseListControls.HandleDeleteCancelBtnClick | src/components/molecules/PoseListControls.tsx:196-202 | the editor is reset |

## Left out

- The three.js scene, camera, renderer, lights, grid and axes helpers, and the manipulators' internals. A manipulator is a record of its size and handle visibility; the bone it is attached to and its rotate/translate mode are not modelled.
- Model loading (`loadModel`, the GLTF/VRM parsing, `dispose`, joint removal) and `metaInfo`: these are asynchronous I/O over libraries that are not part of this model. The controller is assumed to hold a loaded model, and the provider's reference to it is assumed set.
- The animation mixer, and the keyframes' quaternion composition with each bone's rest rotation. `stopAllAction` and the idle action's play/stop are reduced to the `idlePlaying` flag. The idle clip is modelled down to its keyframe table and Euler triples.
- The `sin(t/3)^4096 + sin(4t/7)^4096` blink curve is floating-point numerics; its value is a parameter of `RenderFrame`.
- `toggleLookAtCamera`, `toggleGrid`, `toggleAxes`, `resizeRender` and the render loop, together with the provider's setters that only forward to them (look-at, auto-blink held flag, waiting-animation held flag, grid, axes, menu mode, info panel, UI toggle): these only change engine objects or a held boolean, with no rule of their own.
- Local storage and JSON: the user pose table is the controller field `userPoses`. A storage read that fails or holds malformed text is not modelled. A write's outcome (written, quota exceeded, other failure) is a parameter.
- Controller.VrmManager.SavePoseData: it resolves the name and table from the in-memory table and does not re-read storage. A generated id equal to an existing key overwrites that entry, as the spread insert does.
- Timers: each `setTimeout` callback is a separate method for the environment to call later: `AfterSave`, `HideMessage` and `AfterDelete`. The exception is `resetMode`'s 110 ms `clearPoseFormData`, which `ResetMode` applies at once. `isMountedRef` is taken to be true.
- PoseList.PoseListControls: `userPosesList` is kept as the table it was read from; the order `Object.values` gives is not modelled. The `scrollToBottom` callback and all rendering are left out.
- AppProvider.Provider.SetPoseFormData: the optional `key` argument is always `poseName`, the form's only field.
- AppProvider.Provider.OnLoadProgress: `loaded` and `total` are natural numbers, so a negative or fractional byte count is not modelled.
- AppProvider.Provider.OnLoadProgress / AppProvider.ProgressPercent: the percentage is computed over exact reals, not IEEE doubles. Where `100 * (loaded / total)` lies exactly on a half in exact arithmetic, the double product can fall just below it, and there the model reports one more than the program (loaded 23 and total 40: the model gives 58, the program gives 57).
- Controller.VrmManager.BoneMouseDown: requires that the pressed bone has a manipulator. The handler exists only on manipulators that were created, so the source cannot reach the other case.
- Util.IsMobileDevice: lower-casing is modelled for ASCII letters only. The UA string and the `'ontouchend' in document` test are parameters.
- The bone-name vocabulary is the avatar library's humanoid enumeration, which is not part of this model. It is written out here in the library's declaration order.
