/**
 * `ToggleExample`: three independent boolean state cells, each flipped by its own
 * button, and the labels the page derives from them.
 */
module ToggleExample {
  /** The three flags as one value, so that "only its own flag changes" can be stated. */
  datatype Flags = Flags(visible: bool, expanded: bool, darkMode: bool)

  /** Which of the three buttons was pressed. */
  datatype Switch = Visibility | Expanded | DarkMode

  /** The flags after one press: the pressed flag is negated, the other two are kept. */
  function Press(f: Flags, s: Switch): (g: Flags)
    ensures s == Visibility ==> g.visible == !f.visible && g.expanded == f.expanded && g.darkMode == f.darkMode
    ensures s == Expanded ==> g.expanded == !f.expanded && g.visible == f.visible && g.darkMode == f.darkMode
    ensures s == DarkMode ==> g.darkMode == !f.darkMode && g.visible == f.visible && g.expanded == f.expanded
  {
    match s
    case Visibility => f.(visible := !f.visible)
    case Expanded => f.(expanded := !f.expanded)
    case DarkMode => f.(darkMode := !f.darkMode)
  }

  /** The theme name shown in the preview. */
  function ThemeName(darkMode: bool): (name: string)
    ensures name == "Dark" <==> darkMode
    ensures name == "Light" <==> !darkMode
  {
    if darkMode then "Dark" else "Light"
  }

  /** Pressing the same button twice restores every flag. */
  lemma PressTwiceRestores(f: Flags, s: Switch)
    ensures Press(Press(f, s), s) == f
  {
  }

  /** Presses of different buttons commute: the toggles do not interfere. */
  lemma PressesCommute(f: Flags, s: Switch, t: Switch)
    ensures Press(Press(f, s), t) == Press(Press(f, t), s)
  {
  }

  /** The component: its three state cells and their handlers. */
  class Toggles {
    var isVisible: bool
    var isExpanded: bool
    var isDarkMode: bool

    function State(): Flags
      reads this
    {
      Flags(isVisible, isExpanded, isDarkMode)
    }

    /** Three `useState(false)` cells. */
    constructor()
      ensures State() == Flags(false, false, false)
    {
      isVisible, isExpanded, isDarkMode := false, false, false;
    }

    method ToggleVisibility()
      modifies this
      ensures State() == Press(old(State()), Visibility)
    {
      isVisible := !isVisible;
    }

    method ToggleExpanded()
      modifies this
      ensures State() == Press(old(State()), Expanded)
    {
      isExpanded := !isExpanded;
    }

    method ToggleDarkMode()
      modifies this
      ensures State() == Press(old(State()), DarkMode)
    {
      isDarkMode := !isDarkMode;
    }
  }
}
