/** The menu panels: the list of menu modes and the click rule that toggles them. */
module MenuPanels {

  /** `MenuMode`; Neutral is the empty string and means no panel is open. */
  datatype MenuMode = Neutral | Emotion | Face | Pose | Model | Option

  function MenuModeValue(m: MenuMode): string
  {
    match m
    case Neutral => ""
    case Emotion => "Emotion"
    case Face => "Face"
    case Pose => "Pose"
    case Model => "Model"
    case Option => "Option"
  }

  /** `Object.values(MenuMode)`: the enum's values in declaration order. */
  const AllMenuModes: seq<MenuMode> := [Neutral, Emotion, Face, Pose, Model, Option]

  /** `filter(mode => !!mode)`: the modes whose value is not the empty string, in order. */
  function FilterTruthy(ms: seq<MenuMode>): (r: seq<MenuMode>)
    ensures |r| <= |ms|
    ensures forall i :: 0 <= i < |r| ==> MenuModeValue(r[i]) != ""
  {
    if ms == [] then []
    else (if MenuModeValue(ms[0]) != "" then [ms[0]] else []) + FilterTruthy(ms[1..])
  }

  lemma {:induction false} FilterTruthyMembers(ms: seq<MenuMode>, m: MenuMode)
    ensures m in FilterTruthy(ms) <==> m in ms && MenuModeValue(m) != ""
  {
    if ms != [] {
      FilterTruthyMembers(ms[1..], m);
      assert ms == [ms[0]] + ms[1..];
    }
  }

  /** The `menuModeList` handed to the menu. */
  const MenuModeList: seq<MenuMode> := FilterTruthy(AllMenuModes)

  /** The menu lists every mode but Neutral, in the order Emotion, Face, Pose, Model, Option. */
  lemma MenuModeListSpec(m: MenuMode)
    ensures MenuModeList == [Emotion, Face, Pose, Model, Option]
    ensures m in MenuModeList <==> m != Neutral
  {
    FilterTruthyMembers(AllMenuModes, m);
  }

  /** changeMenuMode: clicking the open mode closes it, clicking another opens that one. */
  function ChangeMenuMode(current: MenuMode, clicked: MenuMode): (next: MenuMode)
    ensures clicked == current ==> next == Neutral
    ensures clicked != current ==> next == clicked
  {
    if clicked == current then Neutral else clicked
  }

  /** A mode other than the open one, clicked twice, closes the panel again. */
  lemma ClickTwiceCloses(current: MenuMode, m: MenuMode)
    requires m != current
    ensures ChangeMenuMode(ChangeMenuMode(current, m), m) == Neutral
  {
  }

  /** After any click on a listed mode, that mode is open exactly when it was not open before. */
  lemma ClickToggles(current: MenuMode, m: MenuMode)
    requires m in MenuModeList
    ensures ChangeMenuMode(current, m) == m <==> current != m
  {
    MenuModeListSpec(m);
  }
}
