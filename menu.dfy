/**
 * The mobile navigation menu: the nav panel's `active` class, the toggle button's
 * `aria-expanded` attribute and the `fa-bars`/`fa-times` glyph classes of the icon
 * inside the button, changed by three click listeners.
 */
module Menu {
  import opened Dom

  const Active := "active"
  const Bars := "fa-bars"
  const Times := "fa-times"

  /** What the listeners read and write. `icon` is `None` when the button holds no `<i>`. */
  datatype MenuState = MenuState(nav: ClassList, ariaExpanded: string, icon: Option<ClassList>)

  predicate IsOpen(s: MenuState)
  {
    Active in s.nav
  }

  /** Nav classes other than `active`, and icon classes other than the two glyphs, are kept. */
  predicate KeepsOtherClasses(s: MenuState, t: MenuState)
  {
    t.nav - {Active} == s.nav - {Active} &&
    t.icon.Some? == s.icon.Some? &&
    (t.icon.Some? ==> t.icon.value - {Bars, Times} == s.icon.value - {Bars, Times})
  }

  /** The toggle button's listener: flip `active`, mirror it in `aria-expanded`, flip both glyphs. */
  function ToggleClicked(s: MenuState): (t: MenuState)
    ensures KeepsOtherClasses(s, t)
    ensures IsOpen(t) == !IsOpen(s)
    ensures t.ariaExpanded == BoolText(IsOpen(t))
    ensures t.icon.Some? ==>
              (Bars in t.icon.value <==> Bars !in s.icon.value) &&
              (Times in t.icon.value <==> Times !in s.icon.value)
  {
    var nav := Toggle(s.nav, Active);
    var icon := match s.icon
      case None => None
      case Some(cls) => Some(Toggle(Toggle(cls, Bars), Times));
    MenuState(nav, BoolText(Active in nav), icon)
  }

  /** What a nav-link click and an outside click both do: close the menu and show the bars. */
  function Closed(s: MenuState): (t: MenuState)
    ensures !IsOpen(t) && t.ariaExpanded == "false"
    ensures t.icon.Some? ==> Bars in t.icon.value && Times !in t.icon.value
    ensures KeepsOtherClasses(s, t)
  {
    var icon := match s.icon
      case None => None
      case Some(cls) => Some(Remove(Add(cls, Bars), Times));
    MenuState(Remove(s.nav, Active), "false", icon)
  }

  /** Closing an already closed menu changes nothing. */
  lemma ClosedIdempotent(s: MenuState)
    ensures Closed(Closed(s)) == Closed(s)
  {
    var t := Closed(s);
    assert Remove(t.nav, Active) == t.nav;
    if t.icon.Some? {
      var cls := t.icon.value;
      assert Remove(Add(cls, Bars), Times) == cls;
    }
  }

  /** The attribute and the glyph agree with whether the menu is open. */
  predicate Consistent(s: MenuState)
  {
    s.ariaExpanded == BoolText(IsOpen(s)) &&
    (s.icon.Some? ==> (Times in s.icon.value <==> IsOpen(s)) && (Bars in s.icon.value <==> !IsOpen(s)))
  }

  /** Closing makes the state consistent, whatever it was before. */
  lemma ClosedIsConsistent(s: MenuState)
    ensures Consistent(Closed(s))
  {
  }

  /** The toggle keeps a consistent state consistent. */
  lemma ToggleKeepsConsistent(s: MenuState)
    requires Consistent(s)
    ensures Consistent(ToggleClicked(s))
  {
  }

  /** Two toggle clicks give back the state exactly, once `aria-expanded` mirrors `active`. */
  lemma ToggleTwiceRestores(s: MenuState)
    requires s.ariaExpanded == BoolText(IsOpen(s))
    ensures ToggleClicked(ToggleClicked(s)) == s
  {
    ToggleTwice(s.nav, Active);
    if s.icon.Some? {
      var cls := s.icon.value;
      calc {
        Toggle(Toggle(Toggle(Toggle(cls, Bars), Times), Bars), Times);
        { assert Toggle(Toggle(Toggle(cls, Bars), Times), Bars) == Toggle(cls, Times); }
        Toggle(Toggle(cls, Times), Times);
        { ToggleTwice(cls, Times); }
        cls;
      }
    }
    assert s.ariaExpanded == BoolText(IsOpen(s));
  }

  /** Where a click lands. */
  datatype Target = ToggleButton | NavLink | InsideNav | Elsewhere

  /** `nav.contains(target)` */
  predicate InNav(target: Target)
  {
    target == NavLink || target == InsideNav
  }

  /** `menuToggle.contains(target)` */
  predicate InToggle(target: Target)
  {
    target == ToggleButton
  }

  /** The document's listener: close unless the click landed in the nav or the toggle. */
  function DocumentClicked(s: MenuState, target: Target): (t: MenuState)
    ensures KeepsOtherClasses(s, t)
    ensures InNav(target) || InToggle(target) ==> t == s
    ensures !InNav(target) && !InToggle(target) ==>
              !IsOpen(t) && t.ariaExpanded == "false" &&
              (t.icon.Some? ==> Bars in t.icon.value && Times !in t.icon.value)
  {
    if !InNav(target) && !InToggle(target) then Closed(s) else s
  }

  /**
   * One click as the page handles it: the listeners on the target run first, then
   * the document's listener as the event bubbles up.
   */
  function AfterClick(s: MenuState, target: Target): (t: MenuState)
    ensures KeepsOtherClasses(s, t)
    ensures target == ToggleButton ==> IsOpen(t) == !IsOpen(s)
    ensures target == NavLink || target == Elsewhere ==> !IsOpen(t)
    ensures target == InsideNav ==> t == s
    ensures target != InsideNav ==> t.ariaExpanded == BoolText(IsOpen(t))
  {
    var atTarget := match target
      case ToggleButton => ToggleClicked(s)
      case NavLink => Closed(s)
      case InsideNav => s
      case Elsewhere => s;
    DocumentClicked(atTarget, target)
  }

  /**
   * The effect of each kind of click: the outside-close never undoes a toggle click,
   * a click inside the nav but off its links changes nothing, and the other two close.
   */
  lemma ClickEffect(s: MenuState, target: Target)
    ensures target == ToggleButton ==> AfterClick(s, target) == ToggleClicked(s)
    ensures target == InsideNav ==> AfterClick(s, target) == s
    ensures target == NavLink || target == Elsewhere ==> AfterClick(s, target) == Closed(s)
  {
  }

  /** A consistent menu stays consistent under any click. */
  lemma ClickKeepsConsistent(s: MenuState, target: Target)
    requires Consistent(s)
    ensures Consistent(AfterClick(s, target))
  {
    ClickEffect(s, target);
    if target == ToggleButton {
      ToggleKeepsConsistent(s);
    } else if target != InsideNav {
      ClosedIsConsistent(s);
    }
  }

  /** The menu's elements on the page, with the listeners `setupMobileMenu` registers. */
  class MobileMenu {
    var navClasses: ClassList
    var ariaExpanded: string
    /** Whether the toggle button holds an `<i>` icon. */
    const hasIcon: bool
    var iconClasses: ClassList

    function State(): MenuState
      reads this
    {
      MenuState(navClasses, ariaExpanded, if hasIcon then Some(iconClasses) else None)
    }

    constructor (nav: ClassList, ariaExpanded: string, icon: Option<ClassList>)
      ensures State() == MenuState(nav, ariaExpanded, icon)
    {
      navClasses := nav;
      this.ariaExpanded := ariaExpanded;
      hasIcon := icon.Some?;
      iconClasses := if icon.Some? then icon.value else {};
    }

    /** The toggle button's click listener. */
    method OnToggleClick()
      modifies this
      ensures State() == ToggleClicked(old(State()))
    {
      navClasses := Toggle(navClasses, Active);
      var isExpanded := Active in navClasses;
      ariaExpanded := BoolText(isExpanded);
      if hasIcon {
        iconClasses := Toggle(iconClasses, Bars);
        iconClasses := Toggle(iconClasses, Times);
      }
    }

    /** The click listener on every link in the nav. */
    method OnNavLinkClick()
      modifies this
      ensures State() == Closed(old(State()))
    {
      navClasses := Remove(navClasses, Active);
      ariaExpanded := "false";
      if hasIcon {
        iconClasses := Add(iconClasses, Bars);
        iconClasses := Remove(iconClasses, Times);
      }
    }

    /** The document's click listener. */
    method OnDocumentClick(target: Target)
      modifies this
      ensures State() == DocumentClicked(old(State()), target)
    {
      if !InNav(target) && !InToggle(target) {
        OnNavLinkClick();
      }
    }

    /** Dispatches one click to the listeners it reaches, in bubbling order. */
    method Click(target: Target)
      modifies this
      ensures State() == AfterClick(old(State()), target)
    {
      match target {
        case ToggleButton => OnToggleClick();
        case NavLink => OnNavLinkClick();
        case InsideNav =>
        case Elsewhere =>
      }
      OnDocumentClick(target);
    }
  }
}
