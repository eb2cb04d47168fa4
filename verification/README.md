# nbll-hub UI state, in Dafny

This project models the client-side state rules of the nbll-hub front end, a
React site for a basketball league. Only its behaviour is modelled; the
markup is stripped away. The model covers:

- **App shell** (`App.tsx`, module `App`). The single active-tab slot starts
  at `home`. `home` routes to the landing page and every other id to the
  generic tab page. The light/dark theme is read from and written back to
  `localStorage`. The `/` search shortcut has its guard conditions. Three
  effects mirror state onto the document: the settings effect puts five marker
  classes on the root, the theme effect puts `dark` on the root, and the
  hall-of-fame effect puts `theme-hof` on the body. `localStorage` and the two
  class lists are the fields of a `Browser` object, a map and two sets of
  strings.
- **Navigation bar** (`components/Navbar.tsx`, module `Navigation`). A static
  child-to-parent tab table with an identity fallback decides which of the six
  top-level tabs is highlighted. A tab click switches tab and closes the
  mobile menu. A logo click bursts on `home` and otherwise navigates home. The
  menu button flips the menu. A burst appends a batch of 20 to 30 particles,
  and a delayed callback filters out exactly that batch. Particles are objects
  (`class Particle`), because the source removes them by identity
  (`newParticles.includes(p)`).
- **Hall of fame** (`components/HallOfFamePage.tsx`, module `HallOfFame`).
  One shared flipped-card slot is toggled by card clicks. The back face shows
  an accolades block with its "No awards listed" fallback, and stat cells
  parsed from the `stats` string. The eligibility panel can be opened and
  closed.
- **JavaScript built-ins** (module `JsBuiltins`). `undefined` is modelled as
  `Option`. `String.prototype.split` with a non-empty separator is modelled
  with its inverse `join`, and is proved to round-trip both ways.

Timers, the clock and `Math.random` are explicit parameters or explicit later
method calls:
- `clock(k)` stands for the `Date.now()` read while particle `k` is made.
- `r` stands for `Math.floor(Math.random() * 11)`.
- `shadeOf` gives the random red/grey/white shade.
- `EndPop` and `ExpireBatch` are the 150 ms and 1250 ms callbacks.

The settings record arrives as a parameter, because the settings context is
not part of this model.

Where the code and the general description of the system differ, the model
follows the code:
- **Flipped cards are not independent.** The page keeps one
  `flippedMemberIdx`, so clicking a card un-flips every other card.
  `NextFlipped` states this.
- **Particles are removed by object identity, not by id.** Their ids are
  `Date.now() + i`, which two bursts less than 30 ms apart can share.
  Removal is still exact.
- **`'light'` is also stored when the stored theme is the empty string**,
  because `!savedTheme` is true for `""` as well as for a missing value.

One consequence the proofs make explicit: a logo burst only happens on `home`,
so its particles are never gold. The gold branch of the colour rule cannot be
reached from the logo (`Navigation.Navbar.HandleLogoClick`).

## Model

| member | source | states |
|---|---|---|
| `App.AppContent.constructor` | App.tsx:13-16 | The tab starts at `home`, the search overlay is closed and the theme is light. |
| `App.AppContent.SetActiveTab` | App.tsx:13 | Replaces the active tab unconditionally, whatever the id. The search overlay and the theme are unchanged. |
| `App.AppContent.OnBack` | App.tsx:247 | The back button of the tab page sets `home`, which routes to the landing page. |
| `App.Route` | App.tsx:239-250 | The landing page renders exactly when the tab is `home`. Every other id renders the generic tab page for that id. |
| `App.StoredTheme` | App.tsx:21 | The read gives null exactly when nothing is stored under `theme`, and otherwise the stored string. |
| `App.StoredThemeAfterWrite` | App.tsx:36 | A written theme is read back, and writes under other keys do not change the read. |
| `App.InitialTheme` | App.tsx:21-31 | The stored value gives dark exactly when it is `"dark"`. Any other value, or none, gives light. |
| `App.ThemeRoundTrip` | App.tsx:20-42 | Reading back the theme name that the sync effect stores gives the same theme. |
| `App.AppContent.InitTheme` | App.tsx:19-32 | The mount effect sets the theme from storage and puts `dark` on the root exactly in dark mode. It writes `'light'` only when the stored value is missing or empty. The body is untouched. |
| `App.AppContent.SyncTheme` | App.tsx:34-42 | Afterwards the stored theme equals the current theme, and the root has `dark` exactly when the theme is dark. All other root classes and the body are unchanged. |
| `App.Toggled` | App.tsx:112-114 | The toggle always changes the theme. |
| `App.ToggleInvolution` | App.tsx:112-114 | Toggling twice gives back the original theme. |
| `App.AppContent.ToggleTheme` | App.tsx:112-114 | The theme becomes the toggled theme. The active tab and the search overlay are unchanged. |
| `App.WithMarkers` | App.tsx:44-83 | `reduced-motion`, `high-contrast`, `font-large` (for a large font), `rahbizzy-theme` and `monochrome-theme` are each present exactly when their setting holds. Every other class, `dark` included, is present exactly when it was before. |
| `App.TogglesAreMarkers` | App.tsx:48-81 | The five add-or-remove steps, in source order, produce the class set that `WithMarkers` describes. |
| `App.MarkersIdempotent` | App.tsx:45-83 | Applying the settings effect twice with the same settings gives the same class set as applying it once. |
| `App.AppContent.ApplySettingsClasses` | App.tsx:45-83 | The effect leaves the root classes equal to `WithMarkers` of the old classes. Storage and the body are unchanged. |
| `App.OpensSearch` | App.tsx:89-93 | Search opens only on `/` with the feature on. It never opens from a text field or with Ctrl, Meta or Alt held. |
| `App.ShortcutGuards` | App.tsx:87-97 | `/` never opens search in a text input, a textarea, a select or an editable region. It never opens search with Ctrl, Meta or Alt held, or with the feature off. Shift makes no difference. |
| `App.AppContent.HandleGlobalKeyDown` | App.tsx:86-102 | `preventDefault` is called, and the search overlay opens, exactly when the feature is on, the key is `/`, no Ctrl, Meta or Alt is held, and the target is not a text field. Otherwise nothing changes. |
| `App.AppContent.SyncHofMarker` | App.tsx:104-110 | The body has `theme-hof` exactly when the tab is `hall-of-fame`. Every other body class and the root are unchanged. |
| `App.AppContent.Mount` | App.tsx:12-110 | After the effects run at mount, the theme is dark exactly when `"dark"` was stored. Storage is the old storage with `theme` set to the current theme. The root's `dark` class and settings markers agree with the state, and every other root class is unchanged. The body lacks `theme-hof` and every other body class is unchanged. The search overlay is unchanged and the landing page shows. |
| `Navigation.ParentTab` | components/Navbar.tsx:59-70 | A tab in the table has a top-level parent other than itself. Any other id is its own parent. |
| `Navigation.IsTabActive` | components/Navbar.tsx:109-111 | When a top-level tab is active, only that tab is highlighted. When a child tab is active, only its parent is highlighted. Any other id highlights no top-level tab. |
| `Navigation.ParentTabTable` | components/Navbar.tsx:59-69 | `partner-hub`, `rules`, `records`, `credits` and `unknown` map to `more`. `hall-of-fame` and `league-history` map to `legacy`. |
| `Navigation.ParentTabFallback` | components/Navbar.tsx:69 | An id not in the table is its own parent, `home` and arbitrary strings included. A child's parent is one of the six top-level tabs. Looking up a parent twice gives the same result as looking it up once. |
| `Navigation.AtMostOneHighlighted` | components/Navbar.tsx:109-111 | Two highlighted top-level tabs are the same tab. |
| `Navigation.Highlighted` | components/Navbar.tsx:156-157 | The highlighted tabs are exactly the parent of the active tab, for a top-level tab or a tab in the table. No tab is highlighted for any other id. |
| `Navigation.Navbar.constructor` | components/Navbar.tsx:26-28 | The menu starts closed, the logo does not pop, and there are no particles. |
| `Navigation.Navbar.ToggleMenu` | components/Navbar.tsx:256 | The menu button flips `isMenuOpen` and changes nothing else. |
| `Navigation.Navbar.HandleTabClick` | components/Navbar.tsx:72-75 | The tab becomes the clicked tab and the menu closes. The particles, the pop state, the theme and the search overlay are unchanged. |
| `Navigation.BurstCount` | components/Navbar.tsx:81 | A burst has between 20 and 30 particles. |
| `Navigation.ParticleColour` | components/Navbar.tsx:90 | A particle is gold exactly on the hall of fame. It is blue exactly off the hall of fame under the RahBizzy theme. Otherwise it takes its drawn shade. |
| `Navigation.ColourIgnoresDraws` | components/Navbar.tsx:90 | A particle is gold on the hall of fame. Otherwise it is blue under the RahBizzy theme. In both cases the random draws make no difference. |
| `Navigation.Particle.constructor` | components/Navbar.tsx:84-92 | A particle keeps the id and colour it was created with. |
| `Navigation.Navbar.TriggerBurst` | components/Navbar.tsx:77-99 | The logo pops, and a batch of `BurstCount(r)` new, distinct particles is appended after the unchanged existing ones. Particle `k` has id `clock(k) + k` and the colour rule's colour. The menu is unchanged. |
| `Navigation.Navbar.EndPop` | components/Navbar.tsx:79 | The 150 ms callback ends the pop and changes nothing else. |
| `Navigation.Remaining` | components/Navbar.tsx:97 | The filter never lengthens the particle list. |
| `Navigation.RemainingMembers` | components/Navbar.tsx:97 | A particle survives the filter exactly when it was in the list and is not in the batch. |
| `Navigation.ExpireLeavesOthers` | components/Navbar.tsx:95-98 | Removing a batch from "earlier particles, the batch, later particles" leaves the earlier and later particles, in order. |
| `Navigation.Navbar.ExpireBatch` | components/Navbar.tsx:96-98 | The 1250 ms callback replaces the particles by those not in its batch. The menu and the pop state are unchanged. |
| `Navigation.Navbar.OverlappingBursts` | components/Navbar.tsx:95-98 | Two bursts, then the first burst's removal, leave the old particles followed by exactly the second batch. |
| `Navigation.Navbar.LogoBurstExpires` | components/Navbar.tsx:95-107 | A logo burst on `home` followed by its own removal leaves the particle list as it was. |
| `Navigation.Navbar.HandleLogoClick` | components/Navbar.tsx:101-107 | On `home` the click bursts and stays on `home` with the menu state kept. The batch is appended and its particles are new and distinct. Particle `k` has id `clock(k) + k` and the non-hall-of-fame colour for its shade, so no particle is gold. On any other tab it sets `home` and closes the menu, with no burst and no new particles. |
| `HallOfFame.HallOfFamePage.constructor` | components/HallOfFamePage.tsx:51 | No card is flipped at first. |
| `HallOfFame.NextFlipped` | components/HallOfFamePage.tsx:65-71 | Clicking card `i` flips it exactly when it was not flipped, and leaves every other card unflipped. |
| `HallOfFame.HallOfFamePage.ClickCard` | components/HallOfFamePage.tsx:64-71 | The flipped slot becomes `NextFlipped` of the old slot, and it still names a rendered card. |
| `HallOfFame.ClickParity` | components/HallOfFamePage.tsx:71 | After `n > 0` clicks on card `i`, either no card or card `i` is flipped. Card `i` is flipped exactly when `n` is odd and it was not flipped before, or `n` is even and it was. |
| `HallOfFame.DoubleClick` | components/HallOfFamePage.tsx:71 | Two clicks on a card that was not flipped leave no card flipped. |
| `HallOfFame.AccoladesOf` | components/HallOfFamePage.tsx:133-137 | "No awards listed" shows exactly when `awards` is undefined. Otherwise the badges are exactly the listed awards. |
| `HallOfFame.EmptyAwards` | components/HallOfFamePage.tsx:133-137 | An empty award list renders no badges and no fallback. |
| `HallOfFame.ParseStat` | components/HallOfFamePage.tsx:146-150 | The value is a space-free prefix of the segment. There is a label exactly when the segment contains a space, and the label has no space. |
| `HallOfFame.StatCells` | components/HallOfFamePage.tsx:145-153 | No cells render without `stats`. Otherwise there is one cell per `' • '`-separated segment. |
| `HallOfFame.ParseStatNoLabel` | components/HallOfFamePage.tsx:146-150 | A segment without a space is all value, and its label is undefined. |
| `HallOfFame.ParseStatWords` | components/HallOfFamePage.tsx:146-150 | In a segment with a space, the value is the text before the first space. The label is the text between the first and second spaces. Later words are dropped. |
| `HallOfFame.StatsRoundTrip` | components/HallOfFamePage.tsx:145-150 | A stats string of the form `v1 l1 • v2 l2 • …` renders one cell per pair, in order, with that value and that label. |
| `HallOfFame.EmptyStatsString` | components/HallOfFamePage.tsx:145 | An empty (but defined) stats string still renders one empty cell. |
| `HallOfFame.HOFEligibility.constructor` | components/HallOfFamePage.tsx:6 | The eligibility panel starts closed. |
| `HallOfFame.HOFEligibility.Toggle` | components/HallOfFamePage.tsx:11 | Each click flips the panel. |
| `HallOfFame.SixRequirements` | components/HallOfFamePage.tsx:31-38 | The panel lists six requirements. |
| `JsBuiltins.IndexOf` | components/HallOfFamePage.tsx:145-146 | The result is an occurrence of the separator, and no earlier occurrence exists. When there is no result, there is no occurrence. |
| `JsBuiltins.Split` | components/HallOfFamePage.tsx:145-146 | A split has at least one piece, and no piece contains the separator. There is exactly one piece when the string does not contain the separator. |
| `JsBuiltins.JoinSplit` | components/HallOfFamePage.tsx:145-146 | Joining the pieces of a split with the separator gives back the string. |
| `JsBuiltins.SplitJoin` | components/HallOfFamePage.tsx:145-146 | Splitting a join of separable pieces gives back the pieces. |

## Left out

- Markup, Tailwind class strings, inline SVG and the `<style>` blocks are not modelled. They carry no behaviour beyond the state they read.
- Particle geometry (`tx`, `ty`, `size`, `duration`) is not modelled. It is floating-point and random.
- The red/grey/white split is not modelled. It is an opaque `Shade` chosen per particle.
- Navigation.BurstCount: takes the already-floored draw `r` in 0..10 instead of `Math.random()`, so the float-to-integer step is not modelled.
- Timers are not modelled as such. `EndPop` and `ExpireBatch` are the delayed callbacks, invoked explicitly, so the 150 ms and 1250 ms delays are not modelled.
- Listener registration is not modelled. `addEventListener`/`removeEventListener` for keys and scrolling are event-loop plumbing.
- The scroll state `isScrolled` (`window.scrollY > 8`) and the sticky-header classes are not modelled. They only choose styling.
- React's effect scheduling and batching are not modelled. At mount the theme effect first runs with the initial `'light'`. When `"dark"` was stored, it runs again after the re-render. `App.AppContent.Mount` states only the state after the last run.
- App.AppContent.ApplySettingsClasses: computes the five add-or-remove steps on a local copy and assigns the class list once. Nothing can observe the class list between the steps.
- getParentTab looks up the table as a plain object, so prototype keys such as `constructor` are not modelled. For them it yields a non-string, which no top-level tab equals. Highlighting is therefore the same as for the identity fallback.
- The settings context (`useSettings`, `getThemeColors`, the stored settings and their defaults) is not part of this model. Settings arrive as a parameter.
- The search overlay's and the settings modal's own open/close setters and the navbar's search and settings buttons are not modelled. They are single assignments with no rule attached.
- The rapid-click gesture detector is not part of this model.
- `data/content.ts` and the member data are not part of this model. The member list is a constructor parameter of `HallOfFamePage`.
