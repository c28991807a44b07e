/**
 * The theme button of `components/ui/theme-toggle.tsx`: its current theme, the three-step
 * cycle light, dark, system, and what the button shows for each theme.
 */
module ThemeToggle {
  import opened Optional
  import opened Strings
  import opened Themes

  const ThemeOrder: seq<Theme> := [Light, Dark, System]

  /** The next theme: the one after the current one in `ThemeOrder`, wrapping around. */
  function Next(t: Theme): (n: Theme)
    ensures t == Light ==> n == Dark
    ensures t == Dark ==> n == System
    ensures t == System ==> n == Light
  {
    var k := if t == Light then 0 else if t == Dark then 1 else 2;
    assert ThemeOrder[k] == t && t !in ThemeOrder[..k];
    IndexOfAt(ThemeOrder, t, k);
    ThemeOrder[(IndexOf(ThemeOrder, t) + 1) % |ThemeOrder|]
  }

  /** Three clicks bring the button back to where it started, and no fewer do. */
  lemma CycleHasPeriodThree(t: Theme)
    ensures Next(Next(Next(t))) == t
    ensures Next(t) != t && Next(Next(t)) != t
  {
  }

  /** The translation key of the button's title and of its screen-reader label. */
  function TitleKey(t: Theme): (key: string)
    ensures key == "theme." + (match t case Light => "light" case Dark => "dark" case System => "system")
  {
    if t == Light then "theme.light"
    else if t == Dark then "theme.dark"
    else "theme.system"
  }

  /** The theme-dependent part of the class list of the icon drawn for `icon`. */
  function IconScale(icon: Theme, current: Theme): string {
    match icon
    case Light => if current == Light then "rotate-90 scale-100" else "scale-0"
    case Dark => if current == Dark then "rotate-0 scale-100" else "scale-0"
    case System => if current == System then "scale-100" else "scale-0"
  }

  /** Exactly one icon is shown at full scale: the one for the current theme. */
  lemma OneIconShown(icon: Theme, current: Theme)
    ensures Contains(IconScale(icon, current), "scale-100") <==> icon == current
  {
    var c := IconScale(icon, current);
    if icon == current {
      var i := |c| - 9;
      assert c[i..i + 9] == "scale-100";
      assert OccursAt(c, "scale-100", i);
    } else {
      assert c == "scale-0";
      forall i | 0 <= i <= |c|
        ensures !OccursAt(c, "scale-100", i)
      {
      }
    }
  }

  /** The button's state. */
  class Toggle {
    var theme: Theme

    /** The theme shown before storage has been read. */
    constructor ()
      ensures theme == System
    {
      theme := System;
    }

    /** The effect that reads the stored theme into the button. */
    method Load(stored: Option<Theme>)
      modifies this
      ensures theme == GetTheme(stored)
    {
      theme := GetTheme(stored);
    }

    /**
     * `cycleTheme`: persists and applies the next theme; only once that has completed does the
     * button show it, so the button then shows exactly the theme that was stored.
     */
    method Cycle(host: Host, storageOk: bool)
      modifies this, host`stored, host`rootClasses
      ensures theme == if storageOk then Next(old(theme)) else old(theme)
      ensures storageOk ==> host.stored == Some(theme)
      ensures storageOk ==> host.rootClasses == Applied(old(host.rootClasses), theme, host.prefersDark)
      ensures !storageOk ==> host.stored == old(host.stored) && host.rootClasses == old(host.rootClasses)
    {
      var nextTheme := Next(theme);
      var ok := host.SetTheme(nextTheme, storageOk);
      if ok {
        theme := nextTheme;
      }
    }
  }
}
