# Portfolio interaction layer

A Dafny model of the interactive part of a single-page React portfolio. Two
near-identical component files (`src/components/Portfolio.jsx` and the root
`Portfolio.jsx`) each have three independent behaviours:

- **Typewriter** (`typewriter.dfy`): the hero banner cycles through a fixed
  list of role strings. It types one character per 100 ms tick, pauses 2000 ms
  at the full role, deletes one character per 50 ms tick, and then moves on to
  the next role. `Typewriter.Step` is the pure specification of one tick.
  `Typewriter.Animator` is the component state (`currentRoleIndex`,
  `displayText`, `isDeleting`) and its handlers. `Run` replays any sequence of
  tick and pause-timeout events.
- **Section tracker** (`section_tracker.dfy`): on scroll, the first section in
  list order whose element exists and whose top lies in [-100, 300] becomes
  active; otherwise the active section is kept. `scrolled` records
  `scrollY > 50`. Navigating to a section closes the mobile menu.
  `SectionTracker.Navigation` holds that state.
- **Theme**: the `src/components` file keeps a boolean `darkMode`, with a table
  of theme classes and two logo-style helpers (`dark_mode_theme.dfy`). The root
  file keeps a string `theme`, resolved from storage or the platform
  preference, and an effect that writes the root `dark` class and storage
  (`stored_theme.dfy`, class `ThemeController`).

`js_string.dfy` models JavaScript's `substring`, which clamps its indices.
Because of that, `"abc".substring(0, -1)` is `""`. `wrappers.dfy` holds
`Option`.

Page geometry is a `map<string, int>` from element id to top offset. An id
that is not a key has no element, which is how a `null` from `getElementById`
is modelled. Storage is a `map<string, string>`. The root element's class list
is a `set<string>`. The prefers-dark media query and the existence of `window`
are boolean inputs.

In the typewriter and the section tracker the two files differ only in
constants:
- roles: `SrcRoles` / `RootRoles`;
- section lists: `SrcSections` / `RootSections`;
- initial active section: `"hero"` / `"about"`.

The two theme layers differ in behaviour. The `src/components` file starts
from a fixed `darkMode = true`, and has the theme table and the logo helpers.
The root file reads its starting theme from storage or the platform
preference, writes the root class and storage back, and has neither the
table nor the helpers.

The model follows the code as written:
- a stored theme is used as it is, even when it is neither `"dark"` nor
  `"light"`;
- the string toggle maps every value other than `"dark"` to `"dark"`;
- the only fallback to `"dark"` is when there is no `window`. A storage that
  throws is not handled in the code.

## Model

| member | source | states |
|---|---|---|
| `JsString.Substring` | src/components/Portfolio.jsx:68 | `substring(0, n)` yields a prefix of the role of length `n` clamped to `[0, |role|]`; `substring(0, -1)` is `""` |
| `Typewriter.Step` | src/components/Portfolio.jsx:59-84 | one tick keeps the text a prefix of the current role and the index in range; growing adds exactly one character unless the text is already the full role; deleting removes the last character; only a deleting tick on `""` clears deleting and advances the index modulo the role count, and no other tick changes the index; the pause tick changes nothing and leaves only the 2000 ms timeout pending; every other tick re-arms a tick after 50 ms when the new state is deleting, else after 100 ms |
| `Typewriter.Animator.constructor` | src/components/Portfolio.jsx:33-36 | the animation starts on role 0 with empty text, growing |
| `Typewriter.Animator.HandleTyping` | src/components/Portfolio.jsx:64-80 | the handler updates the three state fields exactly as `Step` says and returns the same schedule; the invariant is kept |
| `Typewriter.Animator.StartDeleting` | src/components/Portfolio.jsx:76 | the pause timeout, armed only from a growing state, sets only `isDeleting` and a deleting tick is armed after 50 ms |
| `Typewriter.Run` | Portfolio.jsx:84-109 | replaying any events from an index in range stays in range |
| `Typewriter.RunKeepsInv` | Portfolio.jsx:89-105 | after any sequence of ticks and pause timeouts, in any order, the text is a prefix of `roles[currentRoleIndex]` and the index is in `[0, roles.length)` |
| `Typewriter.GrowTicks` | src/components/Portfolio.jsx:74 | while growing, n ticks type exactly the next n characters of the role |
| `Typewriter.ShrinkTicks` | src/components/Portfolio.jsx:68 | while deleting, n ticks erase exactly the last n characters |
| `Typewriter.FullCycle` | src/components/Portfolio.jsx:64-80 | from role i with empty text: typing the role, one pause tick, the timeout, deleting it and one more tick reach role `(i+1) mod count` with empty text, growing |
| `Typewriter.RoleListsWellFormed` | Portfolio.jsx:43 | both role lists hold four non-empty roles |
| `SectionTracker.Find` | src/components/Portfolio.jsx:43-51 | the result is a listed section that exists and lies in [-100, 300], and it comes no later than any qualifying section |
| `SectionTracker.FindIsFirst` | Portfolio.jsx:68-76 | when position k is the first qualifying one, the section at k is chosen |
| `SectionTracker.FindNone` | src/components/Portfolio.jsx:44-52 | nothing is chosen exactly when no section exists inside the window |
| `SectionTracker.MissingNeverChosen` | src/components/Portfolio.jsx:45-50 | a section whose element is missing is never chosen |
| `SectionTracker.FirstQualifyingWins` | Portfolio.jsx:68-77 | offsets about -50, skills 150, experience 500 select `about` |
| `SectionTracker.ConfigurationsWellFormed` | Portfolio.jsx:40 | each initial active section is in its own list, no id is empty, and the root list has no `hero` |
| `SectionTracker.Navigation.constructor` | src/components/Portfolio.jsx:27-29 | starts on the given initial section, not scrolled, menu closed |
| `SectionTracker.Navigation.HandleScroll` | src/components/Portfolio.jsx:40-53 | `scrolled` becomes `scrollY > 50`; the active section becomes the found section, or stays unchanged when none is found; the menu is untouched |
| `SectionTracker.Navigation.ScrollToSection` | Portfolio.jsx:111-117 | scrolls into view and closes the menu exactly when the element exists; otherwise nothing changes; the active section never changes here |
| `SectionTracker.Navigation.ToggleMenu` | src/components/Portfolio.jsx:174 | the menu button flips the menu and nothing else |
| `DarkModeTheme.Toggle` | src/components/Portfolio.jsx:94-96 | the toggle always changes `darkMode` |
| `DarkModeTheme.ToggleInvolution` | src/components/Portfolio.jsx:95 | two toggles restore `darkMode` |
| `DarkModeTheme.ToggleTimesParity` | src/components/Portfolio.jsx:94 | after n toggles `darkMode` is the initial value exactly when n is even |
| `DarkModeTheme.InitialModeAfterPresses` | src/components/Portfolio.jsx:30 | the page starts in dark mode, and after n presses it is dark exactly when n is even |
| `DarkModeTheme.Classes` | src/components/Portfolio.jsx:99-107 | the table is total: every token has a non-empty value in both modes |
| `DarkModeTheme.LogoStyle` | src/components/Portfolio.jsx:110-115 | empty exactly in light mode; in dark mode the invert classes are given exactly when the logo needs inversion, and the result always ends in `opacity-90` |
| `DarkModeTheme.LogoContainerStyle` | src/components/Portfolio.jsx:117-120 | transparent exactly in dark mode, never empty |
| `StoredTheme.InitialTheme` | Portfolio.jsx:28-35 | without a window the theme is `dark`; a non-empty stored value is returned unvalidated; otherwise the theme is `dark` exactly when the platform prefers dark, else `light`; never empty |
| `StoredTheme.NoStoredPreferenceFollowsPlatform` | Portfolio.jsx:30-32 | with nothing stored, the initial theme follows the prefers-dark flag |
| `StoredTheme.ToggleTheme` | Portfolio.jsx:58-60 | the result is `dark` or `light`, is `dark` exactly when the input is not `dark`, and always differs from the input |
| `StoredTheme.ToggleThemeTwice` | Portfolio.jsx:59 | from `dark` or `light` two toggles restore the theme; from any other value they give `light` |
| `StoredTheme.ToggleThemeTimesParity` | Portfolio.jsx:58 | from `dark` or `light`, after n toggles the theme is the initial one exactly when n is even |
| `StoredTheme.ThemeController.constructor` | Portfolio.jsx:28-56 | mounting resolves the initial theme from storage and the platform flag, then applies it; other root classes are kept |
| `StoredTheme.ThemeController.ApplyTheme` | Portfolio.jsx:49-56 | the root has class `dark` exactly when the theme is `dark`; storage key `theme` holds the theme; other classes and keys are unchanged |
| `StoredTheme.ThemeController.Toggle` | Portfolio.jsx:58-60 | the theme is toggled and re-applied, so root class and storage stay in agreement |
| `StoredTheme.StoredThemeRestoredOnReload` | Portfolio.jsx:49-55 | what the apply effect stores resolves to the same theme on the next load, whatever the platform flag |

## Left out

- Timers: `setTimeout` and `clearTimeout` are not modelled. A tick returns the delay it leaves pending as a `Schedule` value. Wall-clock time, effect cleanup and cancellation belong to the runtime. So does the untracked pause timeout firing after unmount.
- React semantics: only one re-render rule is modelled. When a tick leaves the state equal, the effect does not re-run and no new tick is armed. Batching and effect ordering are not modelled.
- DOM calls: `getElementById`, `getBoundingClientRect`, `scrollIntoView`, `classList` and event-listener registration are abstracted as described above. `ScrollToSection` returns whether it would call `scrollIntoView`. The logo's `window.scrollTo({ top: 0 })` is not modelled.
- Floating point: `scrollY` and `rect.top` are modelled as integers.
- Storage errors: `localStorage` and `matchMedia` are inputs. A storage that throws is not modelled; the code does not handle one either.
- The root file's `themeClasses` table is not modelled. It is fixed Tailwind strings resolved by the CSS `dark:` variant, and only `navBg` varies, on `scrolled`.
- Static content is not modelled: markup, the skills, projects and certifications arrays, and `src/main.jsx`, which only mounts the component.
- SectionTracker.Navigation.constructor: requires the initial section to be in the list, with no empty id. This constrains the model's configuration, not the source. Both configurations meet it (`ConfigurationsWellFormed`).
- StoredTheme.ThemeController.constructor: models mounting in a browser only. The no-window case is covered by `InitialTheme`.
- Text lengths and indices count Unicode characters, not the UTF-16 code units that JavaScript's `length` and `substring` count. The role strings are ASCII, so the two agree on them.
