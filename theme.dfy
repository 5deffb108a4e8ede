/** The theme toggle of script.js: the page's `data-theme` attribute, the
    `theme` entry of local storage and the glyph of the toggle button. */
module Theme {
  import opened Wrappers

  const Light := "light"
  const Dark := "dark"
  /** The glyph shown while the dark theme is on (U+2600 with the emoji
      variation selector) and the one shown otherwise (U+1F319). */
  const Sun := "\U{2600}\U{FE0F}"
  const Moon := "\U{1F319}"

  /** The theme applied at start-up: `localStorage.getItem('theme') ||
      'light'`, so an absent or empty stored string gives `light` and any
      other stored string is applied as it is. */
  function InitialTheme(stored: Option<string>): (t: string)
    ensures t != ""
    ensures stored.Some? && stored.value != "" ==> t == stored.value
    ensures stored == None || stored == Some("") ==> t == Light
  {
    match stored
    case None => Light
    case Some(s) => if s == "" then Light else s
  }

  /** The theme a click on the toggle applies: `light` from `dark`, and
      `dark` from anything else. */
  function Toggled(t: string): (r: string)
    ensures r == Light || r == Dark
    ensures r == Light <==> t == Dark
  {
    if t == Dark then Light else Dark
  }

  /** `updateThemeIcon`. */
  function IconFor(t: string): (icon: string)
    ensures icon == Sun || icon == Moon
    ensures icon == Sun <==> t == Dark
  {
    if t == Dark then Sun else Moon
  }

  /** Two clicks bring a `light` or `dark` page back to where it was. */
  lemma ToggleTwice(t: string)
    requires t == Light || t == Dark
    ensures Toggled(Toggled(t)) == t
  {
  }

  /** From any start, every click after the first alternates between the
      two themes. */
  lemma ToggleThenTwice(t: string)
    ensures Toggled(Toggled(Toggled(t))) == Toggled(t)
  {
  }

  class ThemeToggle {
    /** The `theme` entry of local storage, if any. */
    var stored: Option<string>
    /** The `data-theme` attribute of the root element. */
    var theme: string
    /** The text of the button's `.theme-icon`. */
    var icon: string

    /** The button's glyph always matches the applied theme. */
    ghost predicate Valid()
      reads this
    {
      icon == IconFor(theme)
    }

    /** Start-up: apply the stored preference, or `light`; storage is only
        read. */
    constructor (saved: Option<string>)
      ensures Valid()
      ensures stored == saved && theme == InitialTheme(saved)
    {
      var current := InitialTheme(saved);
      stored, theme, icon := saved, current, IconFor(current);
    }

    /** The click handler: apply the toggled theme, store it, update the
        glyph. */
    method Click()
      modifies this
      ensures Valid()
      ensures theme == Toggled(old(theme))
      ensures stored == Some(theme)
    {
      var newTheme := Toggled(theme);
      theme := newTheme;
      stored := Some(newTheme);
      icon := IconFor(newTheme);
    }
  }

  /** Two clicks on a page showing `light` or `dark` restore the applied
      theme and the glyph, and leave that theme stored. */
  method ClickTwice(toggle: ThemeToggle)
    requires toggle.theme == Light || toggle.theme == Dark
    modifies toggle
    ensures toggle.Valid()
    ensures toggle.theme == old(toggle.theme) && toggle.icon == IconFor(old(toggle.theme))
    ensures toggle.stored == Some(old(toggle.theme))
  {
    toggle.Click();
    toggle.Click();
  }
}
