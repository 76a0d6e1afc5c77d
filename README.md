# Portfolio page: a verified model of its UI-local logic

The portfolio is a single-page React application (`src/App.jsx`). Nearly all of
it is view markup. The code that holds state and makes decisions is modelled
here, in Dafny:

- **Typewriter** (`typewriter.dfy`, module `Typewriter`). The `useTypewriter` hook is a
  state machine over `(index, subIndex, deleting)` and a fixed, non-empty word
  list. `Step` is one firing of the hook's timer. It does one of four things:
  it types a character, deletes a character, starts deleting at full length,
  or moves to the next word modulo the list length at zero. `Steps` is `k`
  firings in a row. `TypewriterHook` is the hook as an object whose `Tick`
  method updates the three cells. The timer's waits are exact rationals:
  `speed` while typing, `speed / 2` while deleting, and an extra `pause` at
  full length. The lemmas prove the following:
  - every state stays in range;
  - the displayed text is the prefix of the current word of length `subIndex`;
  - each of the four step rules holds;
  - a word is fully typed after `|w|` firings, and the next word is reached after `2|w| + 2`;
  - the whole list repeats with period `Period(words)` (86 firings for the portfolio's titles);
  - a full cycle of one word lasts `(3|w| + 3) * speed / 2 + pause` milliseconds.
- **Section tracker** (`sections.dfy`, module `Sections`). The scroll handler
  probes at `scrollY + 200`. It scans `home, about, skills, contact, resume`
  in that order, skips ids with no mounted element, and takes the first
  section whose half-open box `[offsetTop, offsetTop + offsetHeight)` holds
  the probe. If none does, the highlighted section is kept.
  - `Scan` is the handler's loop with its `break`, proved equal to the recursive `FirstMatch`.
  - The lemmas characterise `FirstMatch` in both directions: the earliest hit is chosen, and whatever is chosen is the earliest hit.
  - They also prove that scrolling never highlights `experience`. It is a navigation item but is not in the scanned list.
- **Theme** (`theme.dfy`, module `Theme`).
  - `DarkClass` is `applyTheme`: the root gets the `dark` class iff the mode is `"dark"`, or the mode is `"system"` and the host prefers dark.
  - `InitialTheme` is the initial state: the stored value, or `"system"` when nothing is stored or the stored value is empty.
  - `ThemeController` keeps the preference, the storage cell, the `dark` class and the host's signal. Its invariant says the preference is persisted and applied. `SetTheme` (persist, then apply) and `OnHostChange` (re-apply only in `"system"` mode) both preserve it.
- **Toggles** (`portfolio.dfy`, module `Portfolio`). `PortfolioApp` holds:
  - the highlighted section (`OnScroll` runs the section scan);
  - the mobile-menu flag;
  - the certifications-dialog flag;
  - the single expanded job card (`Option<JobId>`).
  The lemmas prove that at most one card is expanded, and how a click on a card changes which card is expanded. They also state when the dialog opens and closes.
- `wrappers.dfy` (module `Wrappers`) holds the `Option` type.

`applyTheme` (src/App.jsx:44-53) treats every mode other than `"system"` and
`"dark"` as light, so an unrecognised stored value such as `"blue"` gives the
light theme; `DarkClass` follows it.

## Model

| member | source | states |
|---|---|---|
| `Typewriter.Text` | src/App.jsx:34 | the returned text has length exactly `subIndex` and is a prefix of the current word |
| `Typewriter.Step` | src/App.jsx:16-29 | one firing keeps `index < n` and `subIndex <= the length of the current word` |
| `Typewriter.Steps` | src/App.jsx:15-32 | any number of firings keeps the state in range |
| `Typewriter.Delay` | src/App.jsx:29 | the timeout is half the speed while deleting and the full speed otherwise |
| `Typewriter.TickTypesOneCharacter` | src/App.jsx:28 | typing below full length raises `subIndex` by one, appends the next character of the word, and keeps `index` and `deleting` |
| `Typewriter.TickDeletesOneCharacter` | src/App.jsx:28 | deleting above zero lowers `subIndex` by one, drops the last visible character, and keeps `index` and `deleting` |
| `Typewriter.TickAtFullStartsDeleting` | src/App.jsx:17-20 | at full length while typing only `deleting` changes, to true; the whole word stays visible |
| `Typewriter.TickAtEmptyAdvancesWord` | src/App.jsx:22-26 | at zero while deleting the index moves to `(index + 1) % n`, typing resumes, and `subIndex` stays 0 |
| `Typewriter.Latency` | src/App.jsx:16-29 | the wait until the state next changes is `speed + pause` at full length while typing and the timeout alone otherwise; it is never negative |
| `Typewriter.Elapsed` | src/App.jsx:15-32 | the time taken by `k` firings is zero for no firings and never negative |
| `Typewriter.StepsAdd` | src/App.jsx:15-32 | `a + b` firings equal `a` firings followed by `b` |
| `Typewriter.TypingRun` | src/App.jsx:28 | `k` firings below full length type `k` characters of the same word |
| `Typewriter.DeletingRun` | src/App.jsx:28 | `k` firings while deleting remove `k` characters of the same word |
| `Typewriter.FullCycle` | src/App.jsx:10-35 | from `(i, 0, false)`: after `len(w_i)` firings the text is `w_i`; after `2 * len(w_i) + 2` firings the state is `((i + 1) % n, 0, false)` |
| `Typewriter.NextWord` | src/App.jsx:16-29 | from `(i, 0, false)`, `2 * len(w_i) + 2` firings reach `((i + 1) % n, 0, false)` |
| `Typewriter.PrefixCycles` | src/App.jsx:10-35 | from the start, the first `m` words take `PrefixPeriod(words, m)` firings and end at word `m % n` with nothing shown |
| `Typewriter.Periodic` | src/App.jsx:10-35 | the effect cycles forever: after `Period(words)` firings the state is the initial one, so every later state repeats |
| `Typewriter.TitlesFirstCycle` | src/App.jsx:7 | for the portfolio's titles, "AWS Developer" is shown after 13 firings; after 28 nothing is shown and "AI Engineer" is current; the period is 86 |
| `Typewriter.ElapsedAdd` | src/App.jsx:16-29 | elapsed time of `a + b` firings is the time of the first `a` plus that of the following `b` |
| `Typewriter.TypingTime` | src/App.jsx:28-29 | typing `k` characters takes `k * speed` |
| `Typewriter.DeletingTime` | src/App.jsx:28-29 | deleting `k` characters takes `k * speed / 2` |
| `Typewriter.DeleteAndAdvanceTime` | src/App.jsx:16-29 | from the fully typed word, the pause firing, the deletions and the move to the next word take `speed + pause + (len(w) + 1) * speed / 2` |
| `Typewriter.CycleDuration` | src/App.jsx:16-29 | one full cycle of word `w` lasts `(3 * len(w) + 3) * speed / 2 + pause` |
| `Typewriter.TitlesFirstCycleDuration` | src/App.jsx:7-10 | at the default speed 100 and pause 1500, the first title's full cycle lasts 3600 milliseconds |
| `Typewriter.TypewriterHook.constructor` | src/App.jsx:10-13 | a new hook shows the first word with nothing typed, with the given speed and pause (100 and 1500 by default) |
| `Typewriter.TypewriterHook.Displayed` | src/App.jsx:34 | the hook's value has length `subIndex` and is a prefix of the current word |
| `Typewriter.TypewriterHook.Tick` | src/App.jsx:15-32 | a firing updates the three cells as `Step` does, keeps them in range, and reports its wait (timeout plus any pause) |
| `Sections.Probe` | src/App.jsx:227 | the probe lies 200 pixels below the scroll offset |
| `Sections.FirstMatch` | src/App.jsx:229-237 | a selected section is in the scanned list, mounted, and its box holds the probe; nothing is selected iff no scanned section is mounted with a box holding the probe |
| `Sections.NextActive` | src/App.jsx:224-238 | the highlighted section changes only to a scanned, mounted section whose box holds the probe |
| `Sections.Scan` | src/App.jsx:229-237 | the ordered scan with `break` selects exactly what `FirstMatch` selects |
| `Sections.FirstMatchIsEarliest` | src/App.jsx:229-237 | the earliest mounted section holding the probe is the one selected |
| `Sections.FirstMatchHasPosition` | src/App.jsx:229-237 | a selected section sits at a position that holds the probe with no earlier position holding it |
| `Sections.ScrollSelectsFirstHit` | src/App.jsx:226-237 | a scroll whose probe first lies in scanned section `k` highlights that section |
| `Sections.ScrollMissKeepsActive` | src/App.jsx:229-238 | when no mounted scanned section holds the probe, the highlighted section is unchanged |
| `Sections.ExperienceNeverScrolledTo` | src/App.jsx:226 | "experience" is a navigation item but is not scanned; after a scroll it is highlighted iff it was before and nothing matched |
| `Sections.TwoSectionPage` | src/App.jsx:224-238 | with home at [0, 800) and about at [800, 1600): probes in those boxes highlight home and about; probes outside keep the previous section |
| `Theme.SystemTheme` | src/App.jsx:38-42 | the host signal maps to "dark" iff the host prefers dark, and otherwise to "light" |
| `Theme.DarkClass` | src/App.jsx:44-53 | the `dark` class is set iff the mode is "dark", or the mode is "system" and the host prefers dark |
| `Theme.InitialTheme` | src/App.jsx:119-121 | the initial preference is the stored value when non-empty, and "system" when absent or empty; it is never empty |
| `Theme.OnlySystemFollowsHost` | src/App.jsx:44-53 | only the "system" mode depends on the host signal, and under it the class tracks the signal exactly |
| `Theme.PersistThenReload` | src/App.jsx:119-121 | a persisted option of the theme toggle is read back unchanged on reload |
| `Theme.ThemeController.constructor` | src/App.jsx:119-121 | mounting reads the stored preference, then persists and applies it |
| `Theme.ThemeController.SetTheme` | src/App.jsx:207-210 | a new preference is stored and applied, which keeps the persisted-and-applied invariant |
| `Theme.ThemeController.OnHostChange` | src/App.jsx:213-221 | a host change re-applies only in "system" mode; the preference and stored value do not change |
| `Theme.ThemeController.Reload` | src/App.jsx:119-121 | reloading restores any non-empty preference; an empty one becomes "system" |
| `Theme.ChooseDarkThenReload` | src/App.jsx:207-210 | choosing "dark" and reloading gives "dark", whatever was stored before |
| `Portfolio.ToggleExpanded` | src/App.jsx:748 | a click expands the clicked card or collapses everything; it collapses exactly when the clicked card was the expanded one |
| `Portfolio.ClickExpandsOnlyClicked` | src/App.jsx:748 | after a click on `id`, card `k` is expanded iff `k == id` and `id` was collapsed |
| `Portfolio.AtMostOneExpanded` | src/App.jsx:129 | no two of the page's job cards are expanded at once |
| `Portfolio.ClickTwice` | src/App.jsx:748 | two clicks on a card restore the state iff no other card was expanded; from nothing expanded, two clicks give nothing expanded |
| `Portfolio.CertModalAfter` | src/App.jsx:508 | the backdrop and the close button close the dialog; a clickable stat card opens it; a click inside the dialog body or on a non-clickable card changes nothing |
| `Portfolio.ModalOpensOnlyFromClickableCard` | src/App.jsx:545-563 | a closed dialog opens iff the click is on a clickable stat card |
| `Portfolio.OnlyCertificationsCardOpens` | src/App.jsx:497-499 | of the two stat cards, only "Cloud Certifications" opens the dialog |
| `Portfolio.PortfolioApp.constructor` | src/App.jsx:123-129 | at first render "home" is highlighted, the menu and dialog are closed, and no card is expanded |
| `Portfolio.PortfolioApp.OnScroll` | src/App.jsx:224-238 | the highlighted section becomes `NextActive` of the previous one |
| `Portfolio.PortfolioApp.ToggleMobileMenu` | src/App.jsx:323 | the menu button flips the menu flag |
| `Portfolio.PortfolioApp.SelectMobileNavItem` | src/App.jsx:364-368 | choosing a mobile navigation item closes the menu |
| `Portfolio.PortfolioApp.ClickCertModal` | src/App.jsx:545-563 | the dialog flag follows `CertModalAfter` |
| `Portfolio.PortfolioApp.ClickJob` | src/App.jsx:748 | the expanded card follows `ToggleExpanded` |

## Left out

- JSX rendering, styling and animation props (src/App.jsx:263-1020): declarative markup with no logic.
- Wall-clock time. `setTimeout` and `clearTimeout` become discrete firings with a reported wait. The nested pause timeout is not cancelled by the effect's cleanup; that only matters when the hook unmounts mid-pause, which the model does not represent.
- React's scheduling. The two setters of the wrap branch are treated as one transition. Without batching there is one extra render of `(index, 0, false)`, which displays the same empty text. A state setter called with an unchanged value does not re-run effects; `SetTheme` models that bail-out.
- Browser APIs: `document.getElementById`, `scrollIntoView`, `window.scrollY`, `window.matchMedia`, `localStorage`, and the add/remove of listeners. The layout is a map from mounted sections to their boxes. The host signal is a boolean delivered by `OnHostChange`, on the assumption that every change is delivered. Storage is the single `"theme"` cell.
- `scrollToSection` and the desktop navigation buttons: they only scroll the page, and never set the highlighted section directly.
- Words are sequences of code points, while JavaScript's `length` and `substring` count UTF-16 units. A word outside the Basic Multilingual Plane, such as one holding "🎓", would take one typing firing per character here and two in the hook. The two agree on the portfolio's titles, which are ASCII.
- `scrollY` is a whole number of pixels here; browsers may report fractions.
- The theme toggle buttons call `setTheme` with one of the three options; `SetTheme` accepts any string, as the setter does.
- Clicks on a company's LinkedIn link stop propagation and so do not toggle the card; that is view wiring, not modelled.
- Static content (certifications, experience entries, skills, social links, slider positions): inert configuration. Only the job ids and the stat cards' `clickable` flags appear.
