/**
 * Theme handling of the component whose preference is a boolean `darkMode`
 * (on by default): the toggle, the table of theme classes derived from it,
 * and the two helpers that style technology logos.
 */
module DarkModeTheme {

  const InitialDarkMode: bool := true

  /** The theme-dependent class tokens, one field per key of the lookup table. */
  datatype ThemeClasses = ThemeClasses(
    bg: string,
    text: string,
    heading: string,
    cardBg: string,
    cardBorder: string,
    navBg: string,
    navBorder: string)

  /** The theme button. */
  function Toggle(darkMode: bool): (r: bool)
    ensures r != darkMode
  {
    !darkMode
  }

  /** The preference after pressing the theme button n times. */
  function ToggleTimes(darkMode: bool, n: nat): (r: bool)
  {
    if n == 0 then darkMode else Toggle(ToggleTimes(darkMode, n - 1))
  }

  /** Two presses restore the preference. */
  lemma ToggleInvolution(darkMode: bool)
    ensures Toggle(Toggle(darkMode)) == darkMode
  {
  }

  /** After n presses the preference is the initial one exactly when n is even. */
  lemma {:induction false} ToggleTimesParity(darkMode: bool, n: nat)
    ensures ToggleTimes(darkMode, n) == (if n % 2 == 0 then darkMode else !darkMode)
  {
    if n > 0 {
      ToggleTimesParity(darkMode, n - 1);
    }
  }

  /** The page starts dark, and is dark again after every even number of presses. */
  lemma {:induction false} InitialModeAfterPresses(n: nat)
    ensures ToggleTimes(InitialDarkMode, n) == (n % 2 == 0)
  {
    ToggleTimesParity(InitialDarkMode, n);
  }

  /** The lookup table: every token has a value in both modes. */
  function Classes(darkMode: bool): (c: ThemeClasses)
    ensures c.bg != "" && c.text != "" && c.heading != "" && c.cardBg != ""
    ensures c.cardBorder != "" && c.navBg != "" && c.navBorder != ""
  {
    if darkMode then
      ThemeClasses("bg-slate-950", "text-slate-300", "text-white", "bg-slate-900/50",
                   "border-slate-800", "bg-slate-950/80", "border-slate-800")
    else
      ThemeClasses("bg-slate-50", "text-slate-600", "text-slate-900", "bg-white",
                   "border-slate-200 shadow-sm", "bg-white/80", "border-slate-200")
  }

  const LogoDark: string := "opacity-90"
  const LogoDarkInverted: string := "brightness-0 invert opacity-90"

  /** Classes for a logo image: none in light mode; dimmed, and inverted if the logo needs it, in dark mode. */
  function LogoStyle(darkMode: bool, needsInversion: bool): (r: string)
    ensures r == "" <==> !darkMode
    ensures darkMode ==> (r == LogoDarkInverted <==> needsInversion)
    ensures darkMode ==> |LogoDark| <= |r| && r[|r| - |LogoDark|..] == LogoDark
  {
    if darkMode then
      if needsInversion then LogoDarkInverted else LogoDark
    else ""
  }

  /** Classes for the tile behind a logo: transparent in dark mode, a light card otherwise. */
  function LogoContainerStyle(darkMode: bool): (r: string)
    ensures r == "bg-transparent" <==> darkMode
    ensures r != ""
  {
    if darkMode then "bg-transparent" else "bg-slate-100 shadow-sm"
  }
}
