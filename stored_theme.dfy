/**
 * Theme handling of the component whose preference is the string `theme`.
 * The initial value comes from the stored `theme` key, else from the
 * prefers-dark media query, else (no window at all) is "dark". Whenever the
 * value changes, an effect puts the `dark` class on the root element exactly
 * when the value is "dark" and writes the value back to storage.
 */
module StoredTheme {
  import opened Wrappers

  const ThemeKey: string := "theme"
  const Dark: string := "dark"
  const Light: string := "light"

  /** The value read from storage for a key (`getItem` returns null for a missing key). */
  function GetItem(storage: map<string, string>, key: string): (v: Option<string>)
  {
    if key in storage then Some(storage[key]) else None
  }

  /**
   * The lazy initial value. A stored value is used when it is truthy, that is
   * present and non-empty, and is returned as it is, without checking that it
   * names a theme.
   */
  function InitialTheme(hasWindow: bool, saved: Option<string>, prefersDark: bool): (t: string)
    ensures t != ""
    ensures !hasWindow ==> t == Dark
    ensures hasWindow && saved.Some? && saved.value != "" ==> t == saved.value
    ensures hasWindow && (saved.None? || saved.value == "") ==> (t == Dark <==> prefersDark)
    ensures hasWindow && (saved.None? || saved.value == "") ==> (t == Dark || t == Light)
  {
    if hasWindow then
      if saved.Some? && saved.value != "" then saved.value
      else if prefersDark then Dark else Light
    else Dark
  }

  /** The theme button: "dark" becomes "light", anything else becomes "dark". */
  function ToggleTheme(t: string): (r: string)
    ensures r == Dark || r == Light
    ensures r == Dark <==> t != Dark
    ensures r != t
  {
    if t == Dark then Light else Dark
  }

  /** From "dark" or "light" two presses restore the theme; from anything else they give "light". */
  lemma ToggleThemeTwice(t: string)
    ensures t == Dark || t == Light ==> ToggleTheme(ToggleTheme(t)) == t
    ensures t != Dark && t != Light ==> ToggleTheme(ToggleTheme(t)) == Light
  {
  }

  /** The theme after pressing the button n times. */
  function ToggleThemeTimes(t: string, n: nat): (r: string)
  {
    if n == 0 then t else ToggleTheme(ToggleThemeTimes(t, n - 1))
  }

  /** From "dark" or "light", n presses give the initial theme exactly when n is even. */
  lemma {:induction false} ToggleThemeTimesParity(t: string, n: nat)
    requires t == Dark || t == Light
    ensures ToggleThemeTimes(t, n) == (if n % 2 == 0 then t else ToggleTheme(t))
  {
    if n > 0 {
      ToggleThemeTimesParity(t, n - 1);
    }
  }

  /** With nothing stored and a dark platform preference, the page starts dark. */
  lemma NoStoredPreferenceFollowsPlatform(prefersDark: bool)
    ensures InitialTheme(true, None, prefersDark) == if prefersDark then Dark else Light
  {
  }

  /** The theme state of one mounted component, with the root element's classes and the storage it writes. */
  class ThemeController {
    var theme: string
    var rootClasses: set<string>
    var storage: map<string, string>

    /** The root element and the storage agree with the theme. */
    predicate Valid()
      reads this
    {
      theme != "" &&
      (Dark in rootClasses <==> theme == Dark) &&
      GetItem(storage, ThemeKey) == Some(theme)
    }

    /** Mounting in a browser: resolve the initial theme, then run the apply effect once. */
    constructor (storage: map<string, string>, rootClasses: set<string>, prefersDark: bool)
      ensures Valid()
      ensures theme == InitialTheme(true, GetItem(storage, ThemeKey), prefersDark)
      ensures this.rootClasses - {Dark} == rootClasses - {Dark}
      ensures this.storage == storage[ThemeKey := theme]
    {
      theme := InitialTheme(true, GetItem(storage, ThemeKey), prefersDark);
      this.rootClasses := rootClasses;
      this.storage := storage;
      new;
      ApplyTheme();
    }

    /** The apply effect: sets or clears the root `dark` class and stores the theme. */
    method ApplyTheme()
      requires theme != ""
      modifies this
      ensures Valid()
      ensures theme == old(theme)
      ensures rootClasses == if theme == Dark then old(rootClasses) + {Dark} else old(rootClasses) - {Dark}
      ensures storage == old(storage)[ThemeKey := theme]
    {
      if theme == Dark {
        rootClasses := rootClasses + {Dark};
      } else {
        rootClasses := rootClasses - {Dark};
      }
      storage := storage[ThemeKey := theme];
    }

    /** The theme button; the new value always differs, so the apply effect always re-runs. */
    method Toggle()
      requires Valid()
      modifies this
      ensures Valid()
      ensures theme == ToggleTheme(old(theme))
      ensures rootClasses - {Dark} == old(rootClasses) - {Dark}
      ensures storage == old(storage)[ThemeKey := theme]
    {
      theme := ToggleTheme(theme);
      ApplyTheme();
    }
  }

  /** What the apply effect stores is what the next page load resolves to. */
  lemma StoredThemeRestoredOnReload(c: ThemeController, prefersDark: bool)
    requires c.Valid()
    ensures InitialTheme(true, GetItem(c.storage, ThemeKey), prefersDark) == c.theme
  {
  }
}
