/**
 * The control records behind the rotate/translate manipulators and the
 * whole-map updates the controller applies to the bone manipulators.
 * A manipulator is reduced to its handle size and three handle flags.
 */
module Manipulators {
  import opened VrmSchema

  /** `BONE_CONTROLS_SIZE.DEFAULT`: the size of the selected bone's and the body's manipulator. */
  const DefaultSize: real := 1.0
  /** `BONE_CONTROLS_SIZE.SM`: the size of an unselected bone manipulator. */
  const SmallSize: real := 0.1

  datatype Control = Control(size: real, showX: bool, showY: bool, showZ: bool)
  {
    predicate AllShown() { showX && showY && showZ }
    predicate AllHidden() { !showX && !showY && !showZ }

    function WithHandles(shown: bool): (c: Control)
      ensures c.size == size
      ensures shown ==> c.AllShown()
      ensures !shown ==> c.AllHidden()
    {
      Control(size, shown, shown, shown)
    }
  }

  /** A fresh bone manipulator: small, every handle shown (the library's default). */
  const NewBoneControl: Control := Control(SmallSize, true, true, true)

  /** A fresh body manipulator: default size, every handle shown. */
  const NewBodyControl: Control := Control(DefaultSize, true, true, true)

  type BoneControlsMap = map<BoneName, Control>

  /** Every bone's handles shown or hidden; sizes kept. */
  function SetAllHandles(m: BoneControlsMap, shown: bool): (r: BoneControlsMap)
    ensures r.Keys == m.Keys
    ensures forall b :: b in r ==> r[b].size == m[b].size
    ensures forall b :: b in r ==> if shown then r[b].AllShown() else r[b].AllHidden()
  {
    map b | b in m :: m[b].WithHandles(shown)
  }

  /** `resetBoneControlsManipulator`: every manipulator small and fully shown. */
  function ResetControls(m: BoneControlsMap): (r: BoneControlsMap)
    ensures r.Keys == m.Keys
    ensures forall b :: b in r ==> r[b] == NewBoneControl
  {
    map b | b in m :: NewBoneControl
  }

  /** The bone `mouseDown` handler's update: `sel` enlarged, every other bone's handles hidden. */
  function Focus(m: BoneControlsMap, sel: BoneName): (r: BoneControlsMap)
    ensures r.Keys == m.Keys
    ensures sel in m ==> r[sel] == m[sel].(size := DefaultSize)
    ensures forall b :: b in r && b != sel ==> r[b] == m[b].WithHandles(false)
  {
    map b | b in m :: if b == sel then m[b].(size := DefaultSize) else m[b].WithHandles(false)
  }

  /** The handles of every bone in `names` except `keep` hidden; the rest untouched. */
  function HideExcept(m: BoneControlsMap, names: seq<BoneName>, keep: BoneName): (r: BoneControlsMap)
    ensures r.Keys == m.Keys
    ensures forall b :: b in r ==> r[b].size == m[b].size
  {
    map b | b in m :: if b != keep && b in names then m[b].WithHandles(false) else m[b]
  }

  /** Hiding the bones of `p + [x]` is hiding those of `p` and then `x` (unless it is kept). */
  lemma HideExceptSnoc(m: BoneControlsMap, p: seq<BoneName>, x: BoneName, keep: BoneName)
    requires x in m
    ensures HideExcept(m, p + [x], keep) ==
      if x == keep then HideExcept(m, p, keep)
      else HideExcept(m, p, keep)[x := HideExcept(m, p, keep)[x].WithHandles(false)]
  {
  }

  /** Enlarging `sel` and then hiding every other listed bone is `Focus`, when every bone is listed. */
  lemma SelectThenHideIsFocus(m: BoneControlsMap, sel: BoneName, names: seq<BoneName>)
    requires sel in m
    requires forall b :: b in m ==> b in names
    ensures HideExcept(m[sel := m[sel].(size := DefaultSize)], names, sel) == Focus(m, sel)
  {
  }

  /** One manipulator per controllable bone, all fresh. */
  function FreshControls(): (r: BoneControlsMap)
    ensures forall b :: b in r <==> Controllable(b)
    ensures forall b :: b in r ==> r[b] == NewBoneControl
  {
    forall b: BoneName ensures b in AllBoneNames { AllBoneNamesComplete(b); }
    map b | b in AllBoneNames && Controllable(b) :: NewBoneControl
  }

  lemma SetAllHandlesIdempotent(m: BoneControlsMap, shown: bool, shown': bool)
    ensures SetAllHandles(SetAllHandles(m, shown'), shown) == SetAllHandles(m, shown)
  {
  }

  /** A tap reset after a selection leaves no trace of the selection. */
  lemma ResetForgetsFocus(m: BoneControlsMap, sel: BoneName)
    ensures ResetControls(Focus(m, sel)) == ResetControls(m)
    ensures ResetControls(ResetControls(m)) == ResetControls(m)
  {
  }

  /** After a selection exactly one manipulator can still show a handle: the selected one. */
  lemma FocusLeavesOnlySelectionVisible(m: BoneControlsMap, sel: BoneName, b: BoneName)
    requires b in Focus(m, sel) && !Focus(m, sel)[b].AllHidden()
    ensures b == sel
  {
  }
}
