# Portfolio page script: a verified model

This is a Dafny model of the behaviour in `script.js`, the one script of a
personal portfolio page. It covers:

- the projects section:
  - fetching the owner's public repositories from the GitHub API;
  - classifying the reply into one status for the status panel;
  - keeping the nine most recently pushed non-fork repositories and
    rendering them as cards, with untrusted text HTML-escaped;
  - the tab filter and "show more" pagination of the project grid;
- the colour theme: chosen from local storage at load and flipped by a
  toggle;
- the clamp that turns a skill bar's `data-level` into a percentage.

Modules:

| file | module | what it holds |
|---|---|---|
| `common.dfy` | `Common` | `Option`, `NumberValue` (the outcome of the page's `Number(...)` conversion), `Min` |
| `escape.dfy` | `Escape` | `escapeHtml`, and the decoder `Unescape` it is proved against |
| `status.dfy` | `Status` | the status panel's states and their texts, and the decoder `StatusOf` that reads a state back from its text |
| `feed.dfy` | `Feed` | the repository listing, the non-fork filter, the stable recency sort, the top-nine selection, and the classification of a reply |
| `render.dfy` | `Render` | the escaped status panel, the rendered cards, and the orchestration of `initProjects` |
| `projects_ui.dfy` | `ProjectsUi` | `String.prototype.trim`, the visibility rule on values, the controller's state machine on values, and the controller itself as a class over arrays |
| `appearance.dfy` | `Appearance` | the theme and the skill-level clamp |

Most of the projects section is pure computation, so it is modelled with
functions and lemmas. `initProjectsUi` is different: it keeps two variables
in a closure and rewrites the cards and tabs in place. It is modelled as the
class `ProjectsController`:

- the cards and tabs are arrays it modifies;
- `activeTab` and `visibleCount` are fields;
- each handler is a method proved against two value-level specifications:
  - the pure transition function `Next` on `Pager` states;
  - the visibility rule `HiddenFlags` / `CountMatching`.

The loop of `apply` is the method `HideCards`, proved with loop invariants
against the same rule.

## Model

| member | source | states |
|---|---|---|
| Escape.EscapeChar | script.js:191-205 | a character other than the five specials is copied unchanged; a special becomes a reference that starts with `&`, ends with `;` and holds no markup character |
| Escape.EscapeHtml | script.js:190-207 | the output is never shorter and holds no `<`, `>`, `"` or `'`; it equals the input when there is no special character and is strictly longer when there is one |
| Escape.UnescapeEscapedChar | script.js:191-205 | decoding one replacement followed by any text gives back the replaced character first |
| Escape.UnescapeEscapeHtml | script.js:190-207 | escaping is lossless: decoding the output gives back the input |
| Escape.EscapeHtmlConcat | script.js:190-207 | escaping a concatenation is the concatenation of the escapes (the replacement is per character, global) |
| Escape.EscapeHtmlInjective | script.js:190-207 | two different texts never escape to the same output |
| Escape.EscapeHtmlFixedPoints | script.js:190-207 | the escaper leaves a text unchanged if and only if it holds none of the five specials |
| Status.Decimal | script.js:284-287 | the status code interpolated into the HTTP-error subtitle is a non-empty string of decimal digits |
| Status.DecimalRoundTrip | script.js:284-287 | the digits read back as the status code they print |
| Status.HttpErrorSubtitle | script.js:284-287 | the HTTP-error subtitle carries its status code, which reads back from it exactly, and it is never the bad-response subtitle |
| Status.Title | script.js:268-328 | the title is the shared failure title exactly for the HTTP-error and bad-response outcomes |
| Status.Subtitle | script.js:268-328 | an HTTP-error subtitle carries its code; among the two failure outcomes the subtitle is the bad-response text exactly for a bad response |
| Status.Message | script.js:268-328 | every status's title and subtitle decode back to that status, so the panel always tells which outcome occurred |
| Status.MessageInjective | script.js:268-328 | two different statuses never show the same title and subtitle |
| Render.StatusPanel | script.js:209-218 | the panel's title and subtitle are escaped (markup-free), unescape to the status's own text, and identify the status |
| Feed.NonForks | script.js:300 | every kept repository has `fork` exactly `false`, and it keeps each such entry of the listing as many times as it occurs (null entries, forks and entries without a boolean `fork` are dropped) |
| Feed.TimeFallback | script.js:303-304 | a repository is ranked by `pushed_at`, else by `updated_at`, else by the epoch |
| Feed.InsertNoNewer | script.js:302-306 | inserting an entry no newer than a bound keeps the whole list within that bound |
| Feed.Insert | script.js:302-306 | inserting one repository adds exactly that repository (as a multiset) and one to the length |
| Feed.InsertSorted | script.js:302-306 | inserting into a newest-first list keeps it newest first |
| Feed.SortByRecency | script.js:302-306 | the sorted list is newest first by `pushed_at`, else `updated_at`, else 0, and is a permutation of its input |
| Feed.PrefixIsMostRecent | script.js:302-308 | in a newest-first list, every entry of a prefix is at least as recent as every entry after it |
| Feed.TopOfSorted | script.js:302-308 | a prefix of the sorted non-forks is sorted, is part of them, and is at least as recent as every entry left out |
| Feed.NonForksFromEntries | script.js:300-308 | every repository drawn from the non-fork list is an entry of the listing |
| Feed.SelectProjects | script.js:300-308 | the selection holds only non-fork entries of the listing, newest first; it has min(9, number of non-forks) entries, drawn from the non-forks; no non-fork left out is more recent than one selected |
| Feed.FetchGitHubRepos | script.js:256-330 | exactly one non-loading status is set; an error status returns no repositories; Loaded holds iff repositories are returned; the status is not an error iff the reply was ok and its body an array; on such a reply the repositories returned are exactly the selection of its entries |
| Feed.FailureClassification | script.js:267-329 | 404 gives not-found, 403 gives rate-limited, any other non-ok code gives an HTTP error with that code, a non-array body gives bad-response, and a transport failure or an undecodable body gives network-error; all of these return nothing |
| Feed.GoodListingOutcome | script.js:300-320 | on an ok array reply the status is no-projects iff no entry is a non-fork object, and Loaded iff some entry is |
| Feed.ForkIsDropped | script.js:300-322 | a listing of one non-fork and one fork repository returns the non-fork one only, with the Loaded status |
| Render.RenderCard | script.js:224-250 | each text field of a card is markup-free and unescapes to the repository's field or its default ("Repository", "No description provided.", "N/A"); the link is the `html_url` as given, or the text `null` or `undefined` when the field is null or absent |
| Render.RenderProjects | script.js:220-254 | the grid holds one card per repository, card k rendered from repository k |
| Render.InitProjects | script.js:332-346 | with a missing grid or panel, or a static grid, nothing happens; otherwise the panel shows loading and then the status of the fetch; the grid is replaced iff the fetch returned repositories, Loaded exactly then, by the rendering of those repositories: 1 to 9 cards whose name, description and language are markup-free |
| Render.FailedReplyLeavesGrid | script.js:332-346 | every failed reply ends with its error status on the panel and leaves the grid as it was |
| Render.NotFoundLeavesGrid | script.js:268-273 | a 404 reply leaves the grid as it was, after the loading and not-found statuses |
| Render.RenderedFromSelection | script.js:300-308 | a good listing is rendered iff the selection is non-empty, card k built from selected repository k |
| ProjectsUi.TrimStartSpec | script.js:406 | trimming the start removes a leading run of white space and stops at a non-space character |
| ProjectsUi.TrimEndSpec | script.js:406 | trimming the end removes a trailing run of white space and stops at a non-space character |
| ProjectsUi.TrimSpec | script.js:406 | `trim()` keeps a slice of the text that starts and ends with non-space, and removes only white space around it |
| ProjectsUi.TrimKeepsTrimmed | script.js:406 | a text without white space at its ends is left as it is |
| ProjectsUi.Matches | script.js:406-407 | every card matches the "all" tab; otherwise a card matches iff its trimmed category is the tab; a blank category matches a non-empty tab only when that tab is "all" |
| ProjectsUi.BlankCategoryMatchesOnlyAll | script.js:406-407 | a card with no category, or with only white space in it, matches no named tab, only "all" |
| ProjectsUi.CountMatchingUpTo | script.js:402-416 | the number of matching cards among the first n is at most n, and is n on the "all" tab |
| ProjectsUi.CountMatchingPrefix | script.js:402-416 | counting the matching cards among the first n looks only at those n cards |
| ProjectsUi.HiddenFlagsPrefix | script.js:402-416 | a card's hidden flag depends only on the cards before it in document order |
| ProjectsUi.HiddenStep | script.js:402-416 | walking one card forward: the count grows by one exactly for a matching card, whose flag is set when the new count exceeds the page size |
| ProjectsUi.ShownCountUpTo | script.js:402-416 | among the first n cards, the number shown is min(page size, matching cards so far), or 0 for a page size below one |
| ProjectsUi.ShownCount | script.js:402-416 | the number of cards shown is min(page size, eligible cards), or 0 for a page size below one |
| ProjectsUi.NonMatchingHidden | script.js:406-409 | a card that does not match the active tab is hidden whatever the page size |
| ProjectsUi.MorePagesShowMore | script.js:414-416 | a larger page size hides no card that a smaller one shows |
| ProjectsUi.AllTabShowsPrefix | script.js:402-416 | on the "all" tab, exactly the first `visibleCount` cards in document order are shown |
| ProjectsUi.WebTabScenario | script.js:402-416 | on the "web" tab, a grid web, cli, web has two eligible cards, both shown when the page holds two, and the cli card is hidden |
| ProjectsUi.InitialVisible | script.js:378-382 | the page size starts at `data-visible` when that is a positive finite number, else at the number of cards; it is at least 1 unless there are no cards |
| ProjectsUi.Next | script.js:388-440 | selecting a tab sets that tab with the initial page size; "show more" keeps the tab and adds 3 to the page size |
| ProjectsUi.ShowMoresAdd | script.js:435-440 | k clicks on "show more" keep the tab and add 3k to the page size |
| ProjectsUi.SelectThenShowMores | script.js:388-440 | selecting a tab and clicking "show more" k times leaves that tab with the initial page size plus 3k |
| ProjectsUi.ReplayAppend | script.js:388-439 | running two sequences of clicks one after the other is running their concatenation |
| ProjectsUi.SelectTabResets | script.js:388-391 | selecting a tab forgets every earlier click: the state becomes that tab with the initial page size |
| ProjectsUi.HideCards | script.js:402-416 | the loop of `apply` leaves every category as it was, sets every card's hidden flag to the visibility rule, and returns the number of eligible cards |
| ProjectsUi.ProjectsController.constructor | script.js:372-442 | takes over the cards and tabs, starts from the initial page size, and ends with the "all" tab selected and the grid, button and tabs consistent with that state |
| ProjectsUi.ProjectsController.Apply | script.js:401-424 | every card's flag follows the visibility rule for the current state; when the button exists it is shown and enabled iff fewer cards are shown than are eligible |
| ProjectsUi.ProjectsController.SetTab | script.js:388-399 | the state becomes the selected tab with the initial page size; exactly the tabs whose `data-tab` is that tab are marked active and selected; the grid is consistent with the new state; tab names and categories are unchanged |
| ProjectsUi.ProjectsController.ClickTab | script.js:426-433 | a click on a tab selects its `data-tab`, or "all" when that is empty, with the effects of `SetTab` |
| ProjectsUi.ProjectsController.ClickShowMore | script.js:435-440 | one click adds 3 to the page size, keeps the tab, and leaves the grid consistent |
| Appearance.InitialTheme | script.js:43-51 | a stored "light" or "dark" is used as it is; anything else, nothing stored, or unusable storage gives dark |
| Appearance.SetTheme | script.js:22-40 | the page shows light iff the argument is "light", and dark otherwise; `aria-pressed` is "true" iff the page shows dark; the label names the theme; elements that do not exist stay as they were; working storage keeps the argument as given |
| Appearance.ToggleTarget | script.js:58-61 | the toggle asks for dark iff the page shows light; no theme, or an empty one, counts as dark |
| Appearance.InitTheme | script.js:53-54 | at load the page shows the initial theme |
| Appearance.ClickToggle | script.js:56-61 | each click changes the theme the page shows |
| Appearance.SetThemeCoherent | script.js:22-34 | when the toggle and label exist, the root element, `aria-pressed` and the label all tell the same theme |
| Appearance.ToggleTwice | script.js:56-61 | two clicks bring back the theme the page showed |
| Appearance.ThemeSurvivesReload | script.js:22-51 | with working storage, the theme the page shows is the one the next visit starts from, whatever the argument was |
| Appearance.InitThemeKeepsStoredChoice | script.js:43-54 | loading the page keeps a valid stored choice both on screen and in storage |
| Appearance.SkillLevel | script.js:165-166 | the level is between 0 and 100; a finite value in range is kept; a non-finite or negative value gives 0; a value above 100 gives 100 |
| Appearance.SkillLevelMonotone | script.js:165-166 | a higher declared level never draws a shorter bar |
| Appearance.SkillLevelIdempotent | script.js:165-166 | clamping an already clamped level changes nothing |

## Left out

- The network request, `async`/`await` and the order of asynchronous events are not modelled. The reply is a parameter (`Response`), and the two status writes of `initProjects` are recorded as a sequence.
- The endpoint URL, its `encodeURIComponent` and the request headers are not modelled.
- JSON decoding is a parameter (`Body`). A body that fails to decode rejects inside the same `try` as the transport, so it is classified as a network error, as the code does.
- Timestamps arrive already parsed, as integers. `new Date(...)` parsing is not modelled.
- An unparseable date makes the sort comparator return NaN, and the resulting order is left to the engine. It is not modelled.
- Feed.SortByRecency: equal timestamps keep their listing order. This matches the stable `Array.prototype.sort`. The model states sortedness and the permutation but does not separately state stability.
- The card and panel markup around the escaped texts is not modelled. Cards are records of their four interpolated values.
- `String(str)` coercion of non-string fields (numbers, objects) is not modelled. Text fields are strings or absent.
- Number values are integers or not finite. Fractional `data-visible` and `data-level` values, and the `%` text of the level, are not modelled.
- The controller governs the cards present when `initProjectsUi` runs.
  - In the code, `initProjectsUi` is called right after `initProjects` starts and before the fetch resolves (script.js:495-496), so fetched cards are never registered with it.
  - Fetched cards also carry no `data-category`.
  - The model follows the code here. It does not model a controller re-initialised for a new card set.
- ProjectsUi.InitialVisible: with no cards and no valid `data-visible`, the initial page size is 0. The code does not clamp it to 1, and the model keeps that.
- The early return of `initProjectsUi` when there is no grid is not a separate member. The controller exists only for a page with a grid.
- The DOM's `is-active`/`aria-selected` string attributes are booleans, and the button's `display` is a boolean.
- localStorage exceptions are modelled as unusable storage (`Storage.Failing`). Nothing else about storage is modelled.
- Not modelled:
  - smooth scrolling;
  - the scroll spy and its IntersectionObserver;
  - reveal animations;
  - the skill-bar animation;
  - the reduced-motion preference;
  - the profile photo fallback;
  - the contact form;
  - `downloadCV`;
  - the `init` sequence.

  These are DOM and event wiring, with no state of their own beyond what the browser holds.
