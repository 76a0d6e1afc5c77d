/** Theme resolution and persistence (`getSystemTheme`, `applyTheme`, the
    initial `theme` state and the two theme effects of the main component).

    The preference is a string, persisted under one storage key. The host's
    "prefers dark colour scheme" signal is a boolean, and the document root's
    `dark` class is a boolean that the model sets. */
module Theme {
  import opened Wrappers

  const Light: string := "light"
  const Dark: string := "dark"
  const System: string := "system"

  /** The three buttons of the theme toggle, in display order. */
  const Options: seq<string> := [Light, System, Dark]

  /** `getSystemTheme`: the host's signal as a theme name. */
  function SystemTheme(prefersDark: bool): (t: string)
    ensures t in Options && t != System
    ensures t == Dark <==> prefersDark
  {
    if prefersDark then Dark else Light
  }

  /** `applyTheme`: whether the root element carries the `dark` class once
      `mode` has been applied. "system" defers to the host's signal. */
  function DarkClass(mode: string, prefersDark: bool): (dark: bool)
    ensures dark <==> mode == Dark || (mode == System && prefersDark)
  {
    if mode == System then SystemTheme(prefersDark) == Dark else mode == Dark
  }

  /** The initial preference: the stored value, or "system" when nothing is
      stored or the stored value is the empty string (which is falsy). */
  function InitialTheme(stored: Option<string>): (t: string)
    ensures t != ""
    ensures stored.Some? && stored.value != "" ==> t == stored.value
    ensures stored.None? || stored.value == "" ==> t == System
  {
    match stored
    case Some(v) => if v != "" then v else System
    case None => System
  }

  /** Only "system" depends on the host's signal; every other preference gives
      the same class whatever the host prefers. */
  lemma OnlySystemFollowsHost(mode: string, a: bool, b: bool)
    ensures mode != System ==> DarkClass(mode, a) == DarkClass(mode, b)
    ensures mode == System ==> (DarkClass(mode, a) == DarkClass(mode, b) <==> a == b)
  {
  }

  /** A preference that was persisted is the preference read back on reload,
      for each of the toggle's options. */
  lemma PersistThenReload(opt: string)
    requires opt in Options
    ensures InitialTheme(Some(opt)) == opt
  {
  }

  /** The theme state of a mounted page: the preference, the storage cell, the
      root's `dark` class, and the host's signal as last reported. */
  class ThemeController {
    var theme: string
    var stored: Option<string>
    var dark: bool
    var prefersDark: bool

    /** After every effect has run: the preference is persisted and applied. */
    ghost predicate Valid()
      reads this
    {
      stored == Some(theme) && dark == DarkClass(theme, prefersDark)
    }

    /** Mounting: read the stored preference, then the mount run of the
        persist-and-apply effect writes it back and applies it. */
    constructor (saved: Option<string>, hostPrefersDark: bool)
      ensures Valid()
      ensures theme == InitialTheme(saved) && prefersDark == hostPrefersDark
      ensures stored == Some(InitialTheme(saved)) && dark == DarkClass(InitialTheme(saved), hostPrefersDark)
    {
      var initial := InitialTheme(saved);
      theme := initial;
      prefersDark := hostPrefersDark;
      stored := Some(initial);
      dark := DarkClass(initial, hostPrefersDark);
    }

    /** A click on a toggle button: the new preference is stored and then
        applied. Setting the current value again does not re-run the effect,
        which leaves the same state. */
    method SetTheme(opt: string)
      requires Valid()
      modifies this
      ensures Valid()
      ensures theme == opt && stored == Some(opt) && dark == DarkClass(opt, prefersDark)
      ensures prefersDark == old(prefersDark)
    {
      if opt != theme {
        theme := opt;
        stored := Some(theme);
        dark := DarkClass(theme, prefersDark);
      }
    }

    /** The host's colour-scheme signal changes: the listener re-applies only
        while the preference is "system". */
    method OnHostChange(nowDark: bool)
      requires Valid()
      modifies this
      ensures Valid()
      ensures prefersDark == nowDark
      ensures theme == old(theme) && stored == old(stored)
      ensures old(theme) != System ==> dark == old(dark)
      ensures old(theme) == System ==> dark == nowDark
    {
      prefersDark := nowDark;
      if theme == System {
        dark := DarkClass(System, prefersDark);
      }
    }

    /** Reloading the page mounts a new controller on the stored value: any
        non-empty preference survives, the empty one becomes "system". */
    method Reload(hostPrefersDark: bool) returns (next: ThemeController)
      requires Valid()
      ensures fresh(next) && next.Valid() && next.prefersDark == hostPrefersDark
      ensures theme != "" ==> next.theme == theme && next.stored == stored
      ensures theme == "" ==> next.theme == System
    {
      next := new ThemeController(stored, hostPrefersDark);
    }
  }

  /** Choosing "dark" and reloading starts from "dark", not from the default. */
  method ChooseDarkThenReload(saved: Option<string>, hostPrefersDark: bool) returns (reloaded: string)
    ensures reloaded == Dark
  {
    var c := new ThemeController(saved, hostPrefersDark);
    c.SetTheme(Dark);
    var next := c.Reload(hostPrefersDark);
    reloaded := next.theme;
  }
}
