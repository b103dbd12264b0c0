/**
 * The light/dark theme toggle: the body's `light-mode`/`dark-mode` classes, the
 * `theme` entry in local storage and the `fa-moon`/`fa-sun` glyph classes of the
 * toggle's icon, changed by one setup step and one click listener.
 */
module Theme {
  import opened Dom

  const LightMode := "light-mode"
  const DarkMode := "dark-mode"
  const Moon := "fa-moon"
  const Sun := "fa-sun"

  /**
   * What the setup step and the listener read and write. `stored` is the `theme`
   * storage entry (`None` when unset); `icon` is `None` when the toggle holds no `<i>`.
   */
  datatype ThemeState = ThemeState(body: ClassList, stored: Option<string>, icon: Option<ClassList>)

  /** `localStorage.getItem('theme') || 'light'`: an unset or empty entry reads as light. */
  function SavedTheme(stored: Option<string>): (theme: string)
    ensures theme != ""
    ensures stored.Some? && stored.value != "" ==> theme == stored.value
    ensures theme == "light" <==> stored == None || stored == Some("") || stored == Some("light")
  {
    if stored.Some? && stored.value != "" then stored.value else "light"
  }

  /**
   * Whether the setup step gets past `classList.add`: the token `<theme>-mode` must be
   * free of ASCII whitespace, or the call throws and setup stops there.
   */
  predicate SetupCompletes(s: ThemeState)
  {
    ValidToken(SavedTheme(s.stored) + "-mode")
  }

  /**
   * The setup step: add `<theme>-mode` to the body and show the moon for light, the sun
   * for dark. When the `add` throws, nothing has changed yet and nothing else is done.
   */
  function Initialized(s: ThemeState): (t: ThemeState)
    ensures !SetupCompletes(s) ==> t == s
    ensures SetupCompletes(s) ==> SavedTheme(s.stored) + "-mode" in t.body
    ensures t.body - {SavedTheme(s.stored) + "-mode"} == s.body - {SavedTheme(s.stored) + "-mode"}
    ensures t.stored == s.stored
    ensures t.icon.Some? == s.icon.Some?
    ensures SetupCompletes(s) && t.icon.Some? ==>
              (Moon in t.icon.value <==> SavedTheme(s.stored) == "light") &&
              (Sun in t.icon.value <==> SavedTheme(s.stored) == "dark") &&
              t.icon.value - {Moon, Sun} == s.icon.value - {Moon, Sun}
  {
    var theme := SavedTheme(s.stored);
    match TryAdd(s.body, theme + "-mode")
    case None => s
    case Some(body) =>
      var icon := match s.icon
        case None => None
        case Some(cls) => Some(ToggleForce(ToggleForce(cls, Moon, theme == "light"), Sun, theme == "dark"));
      ThemeState(body, s.stored, icon)
  }

  /** Setup completes exactly when the theme read from storage holds no ASCII whitespace. */
  lemma SetupCompletesIff(s: ThemeState)
    ensures SetupCompletes(s) <==>
              forall i :: 0 <= i < |SavedTheme(s.stored)| ==> !AsciiWhitespace(SavedTheme(s.stored)[i])
  {
    var theme := SavedTheme(s.stored);
    var token := theme + "-mode";
    assert forall i :: 0 <= i < |theme| ==> token[i] == theme[i];
    assert forall i :: |theme| <= i < |token| ==> token[i] == "-mode"[i - |theme|];
  }

  /** A light, dark, empty or missing preference always gets through setup. */
  lemma KnownThemesComplete(s: ThemeState)
    requires SavedTheme(s.stored) == "light" || SavedTheme(s.stored) == "dark"
    ensures SetupCompletes(s)
  {
    SetupCompletesIff(s);
  }

  /** A stored `dark mode` makes `add` throw: the body, storage and icon are left as they were. */
  lemma SetupThrowsOnSpace(body: ClassList, icon: Option<ClassList>)
    ensures !SetupCompletes(ThemeState(body, Some("dark mode"), icon))
    ensures Initialized(ThemeState(body, Some("dark mode"), icon)) == ThemeState(body, Some("dark mode"), icon)
  {
    var s := ThemeState(body, Some("dark mode"), icon);
    assert SavedTheme(s.stored)[4] == ' ';
    SetupCompletesIff(s);
  }

  /** The click listener: flip both mode classes, store the theme now shown, flip both glyphs. */
  function Clicked(s: ThemeState): (t: ThemeState)
    ensures DarkMode in t.body <==> DarkMode !in s.body
    ensures LightMode in t.body <==> LightMode !in s.body
    ensures t.body - {DarkMode, LightMode} == s.body - {DarkMode, LightMode}
    ensures t.stored == Some(if DarkMode in t.body then "dark" else "light")
    ensures t.icon.Some? == s.icon.Some?
    ensures t.icon.Some? ==>
              (Moon in t.icon.value <==> Moon !in s.icon.value) &&
              (Sun in t.icon.value <==> Sun !in s.icon.value) &&
              t.icon.value - {Moon, Sun} == s.icon.value - {Moon, Sun}
  {
    var body := Toggle(s.body, DarkMode);
    var isDark := DarkMode in body;
    var icon := match s.icon
      case None => None
      case Some(cls) => Some(Toggle(Toggle(cls, Moon), Sun));
    ThemeState(Toggle(body, LightMode), Some(if isDark then "dark" else "light"), icon)
  }

  /** Exactly one of the two mode classes is on the body. */
  predicate OneMode(body: ClassList)
  {
    (LightMode in body) != (DarkMode in body)
  }

  /** The theme the body shows. */
  function ShownTheme(body: ClassList): string
  {
    if DarkMode in body then "dark" else "light"
  }

  /** One mode class, the storage agreeing with it, and the glyph matching it. */
  predicate Coherent(s: ThemeState)
  {
    OneMode(s.body) && SavedTheme(s.stored) == ShownTheme(s.body) &&
    (s.icon.Some? ==>
       (Sun in s.icon.value <==> DarkMode in s.body) && (Moon in s.icon.value <==> LightMode in s.body))
  }

  /** Starting from a body with no mode class and a light or dark preference, setup is coherent. */
  lemma InitializedCoherent(s: ThemeState)
    requires LightMode !in s.body && DarkMode !in s.body
    requires SavedTheme(s.stored) == "light" || SavedTheme(s.stored) == "dark"
    ensures Coherent(Initialized(s))
  {
    KnownThemesComplete(s);
    assert "light" + "-mode" == LightMode;
    assert "dark" + "-mode" == DarkMode;
  }

  /** The suffix `-mode` determines the theme: only `light` gives `light-mode`, only `dark` gives `dark-mode`. */
  lemma ModeSuffix(theme: string)
    ensures theme + "-mode" == LightMode <==> theme == "light"
    ensures theme + "-mode" == DarkMode <==> theme == "dark"
  {
    if theme + "-mode" == LightMode {
      assert theme == LightMode[..|LightMode| - 5];
    }
    if theme + "-mode" == DarkMode {
      assert theme == DarkMode[..|DarkMode| - 5];
    }
  }

  /**
   * Exactly when setup leaves one mode class on the body: a light theme needs no
   * `dark-mode` there already, a dark theme no `light-mode`, and any other theme (or a
   * setup that throws) leaves the question to the body as it was.
   */
  lemma InitializedOneMode(s: ThemeState)
    ensures OneMode(Initialized(s).body) <==>
              if !SetupCompletes(s) then OneMode(s.body)
              else if SavedTheme(s.stored) == "light" then DarkMode !in s.body
              else if SavedTheme(s.stored) == "dark" then LightMode !in s.body
              else OneMode(s.body)
  {
    ModeSuffix(SavedTheme(s.stored));
    var t := Initialized(s);
    if SetupCompletes(s) {
      assert t.body == s.body + {SavedTheme(s.stored) + "-mode"};
    }
  }

  /** A click keeps a coherent state coherent. */
  lemma ClickedKeepsCoherent(s: ThemeState)
    requires Coherent(s)
    ensures Coherent(Clicked(s))
  {
  }

  /** The state after `n` clicks. */
  function Clicks(s: ThemeState, n: nat): (t: ThemeState)
    decreases n
  {
    if n == 0 then s else Clicked(Clicks(s, n - 1))
  }

  lemma {:induction false} ClicksKeepCoherent(s: ThemeState, n: nat)
    requires Coherent(s)
    ensures Coherent(Clicks(s, n))
    decreases n
  {
    if n > 0 {
      ClicksKeepCoherent(s, n - 1);
      ClickedKeepsCoherent(Clicks(s, n - 1));
    }
  }

  /** A click keeps one mode class if there was one, and keeps zero or two if there were. */
  lemma ClickedPreservesOneMode(s: ThemeState)
    ensures OneMode(Clicked(s).body) == OneMode(s.body)
  {
  }

  lemma {:induction false} ClicksPreserveOneMode(s: ThemeState, n: nat)
    ensures OneMode(Clicks(s, n).body) == OneMode(s.body)
    decreases n
  {
    if n > 0 {
      ClicksPreserveOneMode(s, n - 1);
      ClickedPreservesOneMode(Clicks(s, n - 1));
    }
  }

  /**
   * From a light or dark preference (or none) and a body without mode classes, the
   * body carries exactly one mode class after setup and any number of clicks.
   */
  lemma OneModeAfterClicks(s: ThemeState, n: nat)
    requires LightMode !in s.body && DarkMode !in s.body
    requires SavedTheme(s.stored) == "light" || SavedTheme(s.stored) == "dark"
    ensures OneMode(Clicks(Initialized(s), n).body)
  {
    InitializedCoherent(s);
    ClicksKeepCoherent(Initialized(s), n);
  }

  /** Two clicks put the body and icon classes back, and store the theme shown. */
  lemma DoubleClickRestoresClasses(s: ThemeState)
    ensures Clicked(Clicked(s)).body == s.body
    ensures Clicked(Clicked(s)).icon == s.icon
    ensures Clicked(Clicked(s)).stored == Some(ShownTheme(s.body))
  {
    var t := Clicked(Clicked(s));
    assert t.body == s.body;
    if s.icon.Some? {
      assert t.icon.value == s.icon.value;
    }
  }

  /** When the stored value is the theme shown, two clicks restore the whole state. */
  lemma DoubleClickRestores(s: ThemeState)
    requires s.stored == Some(ShownTheme(s.body))
    ensures Clicked(Clicked(s)) == s
  {
    DoubleClickRestoresClasses(s);
  }

  /** With nothing stored, two clicks leave `light` stored where there was nothing. */
  lemma DoubleClickStoresLight()
    ensures Clicked(Clicked(ThemeState({LightMode}, None, None))).stored == Some("light")
  {
    DoubleClickRestoresClasses(ThemeState({LightMode}, None, None));
  }

  /**
   * Any other stored value breaks the invariant: `blue` gives the body `blue-mode`
   * and neither glyph, and the first click then adds both mode classes.
   */
  lemma UnknownThemeBreaksOneMode()
    ensures var t := Initialized(ThemeState({}, Some("blue"), Some({})));
      "blue-mode" in t.body && !OneMode(t.body) && t.icon == Some({})
    ensures var u := Clicked(Initialized(ThemeState({}, Some("blue"), Some({}))));
      LightMode in u.body && DarkMode in u.body && u.stored == Some("dark")
  {
    var s := ThemeState({}, Some("blue"), Some({}));
    SetupCompletesIff(s);
    var t := Initialized(s);
    assert "blue" + "-mode" == "blue-mode";
    assert t.body == {"blue-mode"};
    assert "blue" != "light" && "blue" != "dark";
    assert t.icon.value == {} by {
      var none: ClassList := {};
      assert Remove(Remove(none, Moon), Sun) == none;
    }
  }

  /** The page's body, storage and toggle icon, with the setup and listener of `setupThemeToggle`. */
  class ThemeToggle {
    var bodyClasses: ClassList
    var stored: Option<string>
    /** Whether the toggle holds an `<i>` icon. */
    const hasIcon: bool
    var iconClasses: ClassList
    /** Whether the click listener is registered. */
    var listening: bool

    function State(): ThemeState
      reads this
    {
      ThemeState(bodyClasses, stored, if hasIcon then Some(iconClasses) else None)
    }

    constructor (body: ClassList, stored: Option<string>, icon: Option<ClassList>)
      ensures State() == ThemeState(body, stored, icon) && !listening
    {
      bodyClasses := body;
      this.stored := stored;
      hasIcon := icon.Some?;
      iconClasses := if icon.Some? then icon.value else {};
      listening := false;
    }

    /** The setup step, run once when the page loads; it registers the listener only if it completes. */
    method Setup()
      requires !listening
      modifies this
      ensures State() == Initialized(old(State()))
      ensures listening == SetupCompletes(old(State()))
    {
      var savedTheme := SavedTheme(stored);
      var body := TryAdd(bodyClasses, savedTheme + "-mode");
      if body.None? {
        return;
      }
      bodyClasses := body.value;
      if hasIcon {
        iconClasses := ToggleForce(iconClasses, Moon, savedTheme == "light");
        iconClasses := ToggleForce(iconClasses, Sun, savedTheme == "dark");
      }
      listening := true;
    }

    /** A click on the toggle: the listener runs if setup registered it. */
    method OnClick()
      modifies this
      ensures listening == old(listening)
      ensures State() == if listening then Clicked(old(State())) else old(State())
    {
      if !listening {
        return;
      }
      bodyClasses := Toggle(bodyClasses, DarkMode);
      var isDark := DarkMode in bodyClasses;
      bodyClasses := Toggle(bodyClasses, LightMode);
      stored := Some(if isDark then "dark" else "light");
      if hasIcon {
        iconClasses := Toggle(iconClasses, Moon);
        iconClasses := Toggle(iconClasses, Sun);
      }
    }
  }
}
