# Portfolio site, modelled in Dafny

The repository is a React portfolio site that exists in two variants. The
*page-routed* variant lives at the repository root (`App.tsx`,
`components/`). The *single-page* variant lives under `src/`. Behind the
markup there is a small amount of logic. This project models it as immutable
datatypes and pure step functions, except for what "## Left out" lists:

- **Click-score games** (`components/ParticleEffect.tsx`, `src/components/ParticleEffect.tsx`).
  - The player clicks floating particles.
  - Each click adds one to the score and hides (dino game) or replaces (ambient dots) the particle.
  - A score in {5, 10, 20, 50, 100} is a milestone and shows a banner and confetti.
  - Deferred timers clear those flags again. They run on an abstract millisecond clock:
    - a cancellable timer is an `Option<nat>` deadline;
    - a timer that is never stored is one entry in a `seq<nat>` of pending deadlines;
    - `Advance(to)` fires every deadline at or before `to`.
- **Project galleries** (`components/Portfolio.tsx`, `src/components/Portfolio.tsx`).
  - Each has a six-record catalog.
  - A filter is either `'all'` (the identity) or an order-preserving selection by category.
  - There is a filter-button row, card subtitles or chips, and the hand-off of a record to the detail view.
- **Project detail** (`src/components/ProjectDetail.tsx`).
  - Every optional field of a record is resolved to its default.
  - The header image falls back to a placeholder.
  - Media tiles show a picture or a placeholder box.
  - The team size is rendered as text.
- **App shells.**
  - `App.tsx` routes on a page token. It remembers the last opened project, and a plain navigation keeps it.
  - `src/App.tsx` shows a modal exactly while a project is selected.
- **Navigation bars** (`components/Navigation.tsx`, `src/components/Navigation.tsx`).
  - The state is the menu-open flag and the scrolled flag, with a scroll threshold (10 or 50).
  - Also modelled: close-on-navigate, the overlay, the active item and the accessible label.

Each component is one module. Four shared modules sit underneath them:

- `Optional`: the option type, used for every optional field.
- `Text`: capitalising and upper-casing text, decimal rendering and parsing.
- `Timers`: pending deadlines.
- `Projects`: the project record and the category filter.

Three details of the markup matter:

- Two tests use JavaScript truthiness, so an empty string counts as no value there:
  - a gallery chip (src/components/Portfolio.tsx:188-202) is hidden for an empty field exactly as for an absent one (`ModalPortfolio.Chips`);
  - the detail header (src/components/ProjectDetail.tsx:72) falls back to the placeholder when the first media url is empty (`ProjectDetail.HeaderUrl`).
- The destructuring defaults of the detail view (src/components/ProjectDetail.tsx:33-46) replace only an absent field. An empty string or an empty media list is kept (`ProjectDetail.Resolve`).
- The page-routed gallery's hover line uses a template literal. A game without an engine would show the text `undefined`, which `PagedPortfolio.OverlaySubtitle` models. No catalog record triggers it (`PagedPortfolio.SubtitlesComplete`).

User events are clicks and clock ticks. A click lands at the current instant
of the clock. A click aimed at something that is not on screen (a caught
dino, a card of a page that is not shown, the back button with no detail
open) is dropped by `Step` and changes nothing.

## Model

| member | source | states |
|---|---|---|
| Text.Capitalize | src/components/Portfolio.tsx:158 | the label has the token's length, its first character is the token's first character upper-cased, and every later character is the token's own |
| Text.CapitalizeRoundTrip | src/components/Portfolio.tsx:158 | capitalising loses nothing: lower-casing the first character gives back any token that did not start upper case |
| Text.UpperCase | src/components/Portfolio.tsx:181 | upper-casing keeps the length and maps each character through the ASCII upper-case map |
| Text.UpperCaseIdempotent | src/components/Portfolio.tsx:181 | an upper-cased string has no lower-case letter left, so upper-casing it again changes nothing |
| Text.NatToDecimal | src/components/ProjectDetail.tsx:113 | decimal text of a natural number is non-empty and all digits, and it starts with 0 only when it is exactly "0" for zero |
| Text.ParseNatToDecimal | src/components/ProjectDetail.tsx:163 | reading back the decimal text of a natural number gives the number |
| Text.IntToDecimalRoundTrip | src/components/ProjectDetail.tsx:163 | the `toString` text of any integer, with a minus sign for negatives, reads back to that integer |
| Text.IntToDecimalInjective | src/components/ProjectDetail.tsx:163 | different integers render to different texts |
| Timers.AfterTracked | components/ParticleEffect.tsx:169-196 | a cancellable timer is gone after the clock passes its deadline, and it is kept unchanged otherwise |
| Timers.StillPending | components/ParticleEffect.tsx:198-201 | after the clock moves, a deadline is still pending exactly when it was pending and lies later; the list loses an entry exactly when some deadline fell due |
| Projects.SelectSpec | components/Portfolio.tsx:128 | selection by category is an order-preserving subsequence; it keeps every matching record with its multiplicity and drops every other record |
| Projects.FilterSpec | components/Portfolio.tsx:126-128 | 'all' gives the list unchanged; any other token gives, in order, exactly the records whose category equals it |
| Projects.SelectEveryMatch | components/Portfolio.tsx:128 | a list whose records all match is selected whole |
| Projects.SelectNoMatch | components/Portfolio.tsx:128 | a list with no matching record selects nothing |
| Projects.FilterIdempotent | src/components/Portfolio.tsx:133-135 | filtering twice by the same token is filtering once |
| PagedPortfolio.CatalogWellFormed | components/Portfolio.tsx:32-123 | the catalog ids are 1..6 in order and unique; every category is game, 3d or animation; no record has links |
| PagedPortfolio.CatalogMediaKinds | components/Portfolio.tsx:17-21 | every catalog record carries media, each of a kind the declared union allows |
| PagedPortfolio.OneButtonHighlighted | components/Portfolio.tsx:29 | the gallery opens on the 'All Projects' filter; a filter highlights at most one button, and exactly one when it is a button's token |
| PagedPortfolio.GameButton | components/Portfolio.tsx:131-136 | the 'game' button shows the records with ids 1, 3 and 5, in that order |
| PagedPortfolio.ModelsButton | components/Portfolio.tsx:131-136 | the '3d' button shows the records with ids 2 and 4 |
| PagedPortfolio.AnimationButton | components/Portfolio.tsx:131-136 | the 'animation' button shows record 6 alone |
| PagedPortfolio.EveryButtonNonEmpty | components/Portfolio.tsx:126-136 | 'all' shows the whole catalog and every button shows at least one card |
| PagedPortfolio.UnknownFilterIsEmpty | components/Portfolio.tsx:128 | a token outside the four buttons shows an empty gallery |
| PagedPortfolio.OverlaySubtitle | components/Portfolio.tsx:200 | a game's hover line is its engine and type joined by a vertical bar, with the text `undefined` standing for a missing one; any other record's is its role |
| PagedPortfolio.CardSubtitle | components/Portfolio.tsx:206 | the line under a card title is the type for a game and the role otherwise |
| PagedPortfolio.SubtitlesComplete | components/Portfolio.tsx:200-206 | every catalog game has an engine and a type, and every card has a non-empty subtitle |
| PagedPortfolio.CardClick | components/Portfolio.tsx:139-141 | a card click asks the router for the detail page with that exact record |
| ModalPortfolio.ButtonLabel | src/components/Portfolio.tsx:158 | a button text has its token's length, its first character upper-cased and the rest kept |
| ModalPortfolio.OneButtonHighlighted | src/components/Portfolio.tsx:31 | the gallery opens on 'all'; a filter highlights at most one button, and exactly one when it is a button's token |
| ModalPortfolio.ButtonLabels | src/components/Portfolio.tsx:130 | the button texts are All, Web, Game, Mobile and Design, and each gives its token back |
| ModalPortfolio.CatalogWellFormed | src/components/Portfolio.tsx:34-127 | the ids are 1..6 in order and unique; the categories are game, 3d, game, 3d, game, animation |
| ModalPortfolio.GameButton | src/components/Portfolio.tsx:133-135 | the 'game' button shows the records with ids 1, 3 and 5 |
| ModalPortfolio.UnknownFilterIsEmpty | src/components/Portfolio.tsx:133-135 | a token carried by no record shows an empty gallery |
| ModalPortfolio.DeadButtons | src/components/Portfolio.tsx:130 | 'web', 'mobile' and 'design' show nothing, so the 3d and animation records are reachable only under 'all' |
| ModalPortfolio.Badge | src/components/Portfolio.tsx:181 | a card's overlay category is the category upper-cased, with no lower-case letter left |
| ModalPortfolio.CatalogBadges | src/components/Portfolio.tsx:181 | the overlays of the catalog read GAME, 3D, GAME, 3D, GAME, ANIMATION |
| ModalPortfolio.Chips | src/components/Portfolio.tsx:188-202 | an engine, type or platform chip appears exactly when that field is truthy, carrying that field's text; the chips come in the order engine, type, platform, at most one of each |
| ModalPortfolio.ChipsReadBack | src/components/Portfolio.tsx:188-202 | reading the chip row back gives each truthy field's text and nothing for a falsy field, so the row loses nothing |
| ModalPortfolio.ViewDetails | src/components/Portfolio.tsx:208 | "View Details" hands the selection callback that exact record |
| ProjectDetail.Resolve | src/components/ProjectDetail.tsx:33-46 | a present field passes through unchanged, even when empty; an absent field becomes its literal default |
| ProjectDetail.ResolveIdempotent | src/components/ProjectDetail.tsx:33-46 | resolving a fully resolved record changes nothing, so defaults never stack |
| ProjectDetail.EmptyMediaOnlyWhenGivenEmpty | src/components/ProjectDetail.tsx:43 | the resolved media list is empty exactly when the record carries an empty list; an absent list becomes one placeholder image |
| ProjectDetail.HeaderUrl | src/components/ProjectDetail.tsx:72 | the header url is never empty: it is the first item's url when that exists and is non-empty, and the placeholder otherwise |
| ProjectDetail.HeaderOfRecord | src/components/ProjectDetail.tsx:43-72 | a record's header is the placeholder exactly when its media is absent or empty, or its first url is empty or the placeholder itself |
| ProjectDetail.Gallery | src/components/ProjectDetail.tsx:108-122 | one tile per media item in order; a tile is a picture exactly when the item is an image, and then it shows that url with the alt text of its 1-based position |
| ProjectDetail.AltTextsDistinct | src/components/ProjectDetail.tsx:113 | different positions get different alt texts |
| ProjectDetail.TeamSizeText | src/components/ProjectDetail.tsx:163 | a numeric team size renders as decimal digits that read back to the number, with a leading minus exactly for a negative number and no leading zero except in "0"; a text team size is shown unchanged |
| ProjectDetail.DetailRows | src/components/ProjectDetail.tsx:158-163 | the panel has six rows: Type, Platform, Engine/Framework, Role, Timeframe and Team Size, carrying the resolved values |
| ProjectDetail.RowsBlankOnlyWhenGivenBlank | src/components/ProjectDetail.tsx:33-46 | every row has a value, and a row is blank only when the record itself holds an empty string there |
| DinoGame.MilestoneText | components/ParticleEffect.tsx:41-56 | the banner text is non-empty exactly at the milestones 5, 10, 20, 50 and 100 |
| DinoGame.MilestoneTextsDistinct | components/ParticleEffect.tsx:41-56 | different milestones have different banner texts |
| DinoGame.ScoreColorStepsAtMilestones | components/ParticleEffect.tsx:59-66 | the digits are white exactly below 5, and they change colour from one score to the next exactly when the new score is a milestone |
| DinoGame.BorderColorStepsAtMilestones | components/ParticleEffect.tsx:69-76 | the border changes colour from one score to the next exactly at the milestones 10, 20, 50 and 100; at 5 it is already purple |
| DinoGame.BorderFollowsScoreColor | components/ParticleEffect.tsx:59-76 | from 5 on, two scores share a border colour exactly when they share a digit colour; below 5 the border already has the colour of 5 while the digits do not |
| DinoGame.Mount | components/ParticleEffect.tsx:85-127 | mounting makes `count` visible particles with id equal to position, a zero score, the popup at the origin, every flag off and no timer pending |
| DinoGame.MarkCaught | components/ParticleEffect.tsx:203-209 | only particles with the clicked id become invisible; length, order and everything else are kept |
| DinoGame.Catch | components/ParticleEffect.tsx:142-210 | a click adds one to the score, shows the popup and the display, and restarts the 6000 ms display timer; it adds one untracked 1000 ms popup timer; a milestone sets its text, banner and confetti and restarts the 3000 ms and 4000 ms timers; any other click leaves them alone |
| DinoGame.Advance | components/ParticleEffect.tsx:175-201 | moving the clock keeps the particles, score, banner text and popup position; it hides each flag exactly when one of its deadlines falls due; a tracked timer that fell due is gone and one that did not is kept unchanged; the popup deadlines still pending are exactly those after the new time |
| DinoGame.Unmount | components/ParticleEffect.tsx:129-139 | unmounting cancels the three stored timers and nothing else; the popup timers stay pending |
| DinoGame.CaughtCount | components/ParticleEffect.tsx:203-209 | no more particles are caught than exist |
| DinoGame.MountEstablishesInv | components/ParticleEffect.tsx:85-127 | a freshly mounted game satisfies the game invariant |
| DinoGame.AllVisibleNoneCaught | components/ParticleEffect.tsx:117 | a list of visible particles has none caught |
| DinoGame.CatchAddsOne | components/ParticleEffect.tsx:203-209 | hiding a visible particle raises the caught count by exactly one |
| DinoGame.ClickPreservesInv | components/ParticleEffect.tsx:142-216 | a click on a drawn particle keeps the game invariant |
| DinoGame.TickPreservesInv | components/ParticleEffect.tsx:169-201 | moving the clock forward keeps the game invariant |
| DinoGame.StepPreservesInv | components/ParticleEffect.tsx:142-210 | every click and tick keeps these true: ids equal positions, the score counts caught particles, no timer is overdue, and the banner text belongs to a milestone already reached |
| DinoGame.RunPreservesInv | components/ParticleEffect.tsx:142-210 | any sequence of events keeps the invariant and the number of particles |
| DinoGame.ClickHidesExactlyThatParticle | components/ParticleEffect.tsx:203-216 | a click on a drawn particle hides that one particle and adds one to the score; a click on a caught particle changes nothing |
| DinoGame.DefaultGameNeverReachesHundred | components/ParticleEffect.tsx:21 | with the default 90 particles the score never exceeds 90, so the 100-point text never appears |
| DinoGame.DisplayHidesAfterLatestClick | components/ParticleEffect.tsx:189-196 | the score display hides exactly 6000 ms after the latest click, whatever was pending before |
| DinoGame.MilestoneShowsForItsFullTime | components/ParticleEffect.tsx:169-186 | a milestone banner stays exactly 3000 ms and its confetti 4000 ms, whatever an earlier milestone scheduled |
| DinoGame.PopupCutShortBySecondClick | components/ParticleEffect.tsx:198-201 | a second click under 1000 ms after the first has its popup hidden by the first click's timer, early |
| AmbientParticles.MilestoneText | src/components/ParticleEffect.tsx:144-153 | the banner text is non-empty exactly at the milestones 5, 10, 20, 50 and 100 |
| AmbientParticles.MilestoneTextsDistinct | src/components/ParticleEffect.tsx:144-153 | different milestones have different banner texts |
| AmbientParticles.PickColor | src/components/ParticleEffect.tsx:27 | a drawn colour is one of the five palette colours |
| AmbientParticles.Scale | src/components/ParticleEffect.tsx:68-69 | a random coordinate lies within the container's extent |
| AmbientParticles.CreateParticle | src/components/ParticleEffect.tsx:50-75 | with no container the dot is at the origin with size 20, speed 1 and opacity 0.8; otherwise it lies inside the container, with size in [15, 35], speed in [0.2, 0.7] and opacity in [0.3, 0.8) |
| AmbientParticles.Mount | src/components/ParticleEffect.tsx:30-40 | with no container no dots are made; otherwise fifteen dots with ids 0..14; the score is zero and nothing is shown |
| AmbientParticles.Replace | src/components/ParticleEffect.tsx:117-121 | the clicked dot is replaced by a fresh dot with the same id; every other dot, the length and the order are kept |
| AmbientParticles.Catch | src/components/ParticleEffect.tsx:115-141 | a click adds one to the score, replaces the dot, shows the caught text and adds an untracked 1000 ms timer; a milestone sets its text, banner and confetti and adds an untracked 3000 ms timer |
| AmbientParticles.Advance | src/components/ParticleEffect.tsx:129-139 | moving the clock hides the caught text when any caught timer falls due, and the banner and confetti together when any banner timer does |
| AmbientParticles.RunKeepsIds | src/components/ParticleEffect.tsx:117-121 | any sequence of events keeps the number of dots and the id of each position |
| AmbientParticles.ScoreCountsClicks | src/components/ParticleEffect.tsx:124-125 | after any sequence of events the score is the initial score plus the number of clicks on existing dots |
| AmbientParticles.EarlierBannerTimerCutsNewBanner | src/components/ParticleEffect.tsx:136-139 | an earlier milestone's pending timer hides a new milestone's banner and confetti before its own 3000 ms |
| AmbientParticles.LoneBannerShowsFullTime | src/components/ParticleEffect.tsx:132-140 | with no earlier banner timer pending, a milestone banner and its confetti stay exactly 3000 ms |
| PagedNavigation.Token | components/Navigation.tsx:84-108 | every navigation target is home, portfolio or about-contact |
| PagedNavigation.TokenInjective | components/Navigation.tsx:95-108 | different items navigate to different pages |
| PagedNavigation.Toggle | components/Navigation.tsx:116 | the menu button flips the open flag and keeps the scrolled flag |
| PagedNavigation.ToggleTwice | components/Navigation.tsx:116 | toggling twice restores the menu |
| PagedNavigation.Navigate | components/Navigation.tsx:30-33 | navigating closes the menu and forwards exactly the control's page token |
| PagedNavigation.OverlayClick | components/Navigation.tsx:135-143 | a backdrop click closes the menu; a click on the inner panel changes nothing |
| PagedNavigation.AtMostOneActive | components/Navigation.tsx:95-107 | at most one item is active, and none on the detail page or any other token |
| PagedNavigation.OnScroll | components/Navigation.tsx:16-20 | the scrolled flag becomes "offset above 10", and the state is written exactly when that differs from the current flag |
| PagedNavigation.ScrollWriteIdempotent | components/Navigation.tsx:17-19 | a second scroll to the same side of the threshold writes nothing and changes nothing |
| ModalNavigation.LinksWellFormed | src/components/Navigation.tsx:25-31 | there are five links, with distinct names and distinct targets |
| ModalNavigation.Toggle | src/components/Navigation.tsx:76 | the menu button flips the open flag and keeps the scrolled flag |
| ModalNavigation.FollowLink | src/components/Navigation.tsx:107 | following any mobile link closes the menu |
| ModalNavigation.OnScroll | src/components/Navigation.tsx:10-16 | the scrolled flag holds exactly when the offset is above 50 |
| ModalNavigation.AriaLabel | src/components/Navigation.tsx:78 | the button reads 'Close menu' when the menu is open and 'Open menu' when it is closed |
| ModalNavigation.ToggleFlipsLabel | src/components/Navigation.tsx:76-78 | pressing the button always changes its label, and pressing twice restores the menu |
| PagedApp.NavigateTo | App.tsx:35-40 | the page always becomes the argument; the selection is replaced only when a project is passed and kept otherwise |
| PagedApp.Sections | App.tsx:49-70 | the detail appears exactly on the detail page with a selection, and it shows the selection; Hero and TechStack appear exactly on home, before the gallery; the gallery appears exactly on home and portfolio; AboutContact appears exactly on about-contact; an unknown token, or the detail page with no selection, shows nothing |
| PagedApp.InitialInv | App.tsx:32-33 | the app starts on home with no selection, showing Hero, TechStack and the gallery |
| PagedApp.VisibleFromCatalog | components/Portfolio.tsx:126-128 | every card on screen is a catalog record |
| PagedApp.StepPreservesInv | App.tsx:32-70 | every event keeps the page known, keeps a project on the detail page and keeps the selection within the catalog |
| PagedApp.RunPreservesInv | App.tsx:32-70 | any sequence of events keeps the invariant, so the detail page always renders its project |
| PagedApp.CardOpensItsDetail | App.tsx:65-70 | pressing a card shows the detail view for exactly that record |
| PagedApp.BackKeepsStaleSelection | App.tsx:68 | back from the detail returns home but keeps the remembered project |
| PagedApp.NavNeverOpensDetail | App.tsx:35-40 | the navigation bar never opens the detail page and never changes the selection |
| PagedApp.HiddenCardIgnored | App.tsx:49-61 | a card cannot be pressed on a page that does not show the gallery |
| ModalApp.Select | src/App.tsx:36-38 | selecting sets the selection to that project |
| ModalApp.Close | src/App.tsx:40-42 | closing clears the selection |
| ModalApp.SelectCloseLaws | src/App.tsx:34-42 | close after select returns to the initial state; close is idempotent; a later select overwrites an earlier one; the modal shows after select and not after close |
| ModalApp.StepPreservesInv | src/App.tsx:74-79 | every event keeps any shown project within the catalog |
| ModalApp.RunPreservesInv | src/App.tsx:74-79 | any sequence of events keeps any shown project within the catalog |
| ModalApp.RunAppend | src/App.tsx:34-42 | running one more event is one more step |
| ModalApp.LastEventDecides | src/App.tsx:74-79 | after back, whatever came before, the modal is gone; after pressing a card, the modal shows exactly that card's record |

## Left out

- JSX layout, CSS classes and framer-motion parameters (durations, springs, keyframes, staggering) are presentation only. The whole score overlay, milestone banner and confetti drawing are reduced to their boolean flags.
- `Math.random` values, trigonometry and floating-point particle geometry are not computed. A dino particle's look is an opaque parameter `nat -> Look`. An ambient dot takes its random numbers as parameters in [0, 1).
- The ambient variant's requestAnimationFrame loop, which moves dots down and wraps them to the top (src/components/ParticleEffect.tsx:78-112), is timing-driven float motion. It is not modelled; the model's dots never move.
- React batching and stale closures are not modelled. Every event sees the last committed state, so two clicks in one render still count twice.
- Real timers, window listeners and DOM measurement are replaced by the abstract clock, explicit scroll offsets and an optional container size.
- When a timer and a click fall on the same instant, the model fires due timers first: a `Tick` reaches that time before the click is processed.
- Changing the dino game's `count` prop re-runs the mount effect. Only the first mount and the unmount cleanup are modelled.
- Static markup with no logic is not part of this model: Hero, TechStack, AboutContact and Footer, including the contact form, which has no handler. The root variant's `components/ProjectDetail.tsx`, imported by `App.tsx`, is not part of this model either. The page-routed detail page is represented by the record it is given.
- Text.ToUpper: only ASCII letters change case, while JavaScript's `toUpperCase` also maps other Unicode letters. Every token in the catalogs is ASCII.
- ProjectDetail.TeamSizeText: a numeric team size is an integer. Fractions, NaN and exponent forms of `toString` are not modelled, and no record uses them.
- ProjectDetail.Resolve: `title` and `category` are required fields of the record type, so their defaults ('Generic Project Title', 'Generic Category') can never apply. The model keeps the given values.
- The links of the single-page navigation bar scroll the page to an anchor. That scrolling is browser behaviour and is not modelled; only the menu state is.
- ModalApp.Step: while the detail modal is open it covers the gallery, but the model still lets a card be pressed then. Its event set is larger than what a user can do, so the invariants proved over it hold a fortiori.
- AmbientParticles.CreateParticle: draws are computed in exact reals, not IEEE doubles. With doubles, a draw just below 1 rounds the size to exactly 35 and the speed to exactly 0.7, so the contract states those upper bounds inclusively.
