/**
 * Theme handling of `lib/theme.ts`: the stored preference (light, dark or follow the system),
 * the effective theme, and the `dark` class on the document's root element. The extension
 * storage, the root element's class list and the colour-scheme media query are the fields of
 * `Host`; a storage write that fails is an input of `SetTheme`.
 */
module Themes {
  import opened Optional

  datatype Theme = Light | Dark | System

  /** `getSystemTheme`: dark exactly when the dark colour-scheme query matches. */
  function SystemTheme(prefersDark: bool): (t: Theme)
    ensures t == Dark <==> prefersDark
    ensures t != System
  {
    if prefersDark then Dark else Light
  }

  /** `getTheme`: the stored theme, or `System` when nothing is stored. */
  function GetTheme(stored: Option<Theme>): (t: Theme)
    ensures stored.Some? ==> t == stored.value
    ensures stored.None? ==> t == System
  {
    stored.GetOr(System)
  }

  /** The theme `applyTheme` puts into effect: the system's when following it, else the chosen one. */
  function Effective(theme: Theme, prefersDark: bool): (t: Theme)
    ensures t != System
    ensures theme != System ==> t == theme
    ensures theme == System ==> (t == Dark <==> prefersDark)
  {
    if theme == System then SystemTheme(prefersDark) else theme
  }

  /** The root classes after `applyTheme(theme)`: `dark` added or removed, nothing else touched. */
  function Applied(classes: set<string>, theme: Theme, prefersDark: bool): (r: set<string>)
    ensures "dark" in r <==> Effective(theme, prefersDark) == Dark
    ensures r - {"dark"} == classes - {"dark"}
  {
    if Effective(theme, prefersDark) == Dark then classes + {"dark"} else classes - {"dark"}
  }

  /** The root element shows the stored preference. */
  predicate Consistent(stored: Option<Theme>, classes: set<string>, prefersDark: bool) {
    "dark" in classes <==> Effective(GetTheme(stored), prefersDark) == Dark
  }

  /**
   * Why the watcher re-applies only for `System`: an explicit light or dark preference stays
   * shown whatever the system scheme becomes, while a followed scheme must be re-applied.
   */
  lemma SchemeChangeMattersOnlyForSystem(stored: Option<Theme>, classes: set<string>, before: bool, after: bool)
    requires Consistent(stored, classes, before)
    ensures GetTheme(stored) != System ==> Consistent(stored, classes, after)
    ensures GetTheme(stored) == System ==> Consistent(stored, Applied(classes, System, after), after)
  {
  }

  /** The popup's document and the extension storage, as far as themes go. */
  class Host {
    /** The `theme` entry of the extension storage. */
    var stored: Option<Theme>
    /** The class list of `document.documentElement`. */
    var rootClasses: set<string>
    /** Whether `(prefers-color-scheme: dark)` currently matches. */
    var prefersDark: bool

    constructor (stored0: Option<Theme>, classes0: set<string>, prefersDark0: bool)
      ensures stored == stored0 && rootClasses == classes0 && prefersDark == prefersDark0
    {
      stored, rootClasses, prefersDark := stored0, classes0, prefersDark0;
    }

    /** `applyTheme`: the root has the `dark` class iff the effective theme is dark; other classes stay. */
    method ApplyTheme(theme: Theme)
      modifies this`rootClasses
      ensures rootClasses == Applied(old(rootClasses), theme, prefersDark)
      ensures "dark" in rootClasses <==> Effective(theme, prefersDark) == Dark
    {
      if Effective(theme, prefersDark) == Dark {
        rootClasses := rootClasses + {"dark"};
      } else {
        rootClasses := rootClasses - {"dark"};
      }
    }

    /** The popup's start-up: the stored theme is read and applied. */
    method Initialize()
      modifies this`rootClasses
      ensures rootClasses == Applied(old(rootClasses), GetTheme(stored), prefersDark)
      ensures Consistent(stored, rootClasses, prefersDark)
    {
      ApplyTheme(GetTheme(stored));
    }

    /**
     * `setTheme`: persists the theme, then applies it. When the storage write fails the
     * promise rejects before anything is applied.
     */
    method SetTheme(theme: Theme, storageOk: bool) returns (ok: bool)
      modifies this`stored, this`rootClasses
      ensures ok == storageOk
      ensures ok ==> stored == Some(theme) && rootClasses == Applied(old(rootClasses), theme, prefersDark)
      ensures ok ==> Consistent(stored, rootClasses, prefersDark)
      ensures !ok ==> stored == old(stored) && rootClasses == old(rootClasses)
    {
      if !storageOk {
        return false;
      }
      stored := Some(theme);
      ApplyTheme(theme);
      ok := true;
    }

    /**
     * The media-query listener of `watchSystemTheme`: the scheme changes, and the theme is
     * re-applied only when the stored preference is `System`. It keeps the root consistent.
     */
    method OnSchemeChange(nowDark: bool)
      modifies this`prefersDark, this`rootClasses
      ensures prefersDark == nowDark
      ensures GetTheme(stored) == System ==> rootClasses == Applied(old(rootClasses), System, nowDark)
      ensures GetTheme(stored) != System ==> rootClasses == old(rootClasses)
      ensures old(Consistent(stored, rootClasses, prefersDark)) ==> Consistent(stored, rootClasses, prefersDark)
    {
      prefersDark := nowDark;
      if GetTheme(stored) == System {
        ApplyTheme(System);
      }
    }
  }
}
