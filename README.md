# FlowTabs relevance ranking, modelled in Dafny

FlowTabs shows the browser's tabs and the operating system's windows in two
tree views of the editor. The "relevant" view holds the items worth switching
to. The overflow view holds the rest.

This project models the logic behind those views:

- **The relevance ranker** (`TabScoreCalculator`).
  - It scores every tab and window as 0.3 × its share of the total use count plus 0.7 × its recency.
  - It sorts by score, sets the favourites apart, and cuts the other items at the first one scoring below 0.5.
  - The older version of the ranker, which handles tabs only, is modelled beside it. This makes the two favourite policies comparable.
- **The window repository** (`WindowManager`).
  - It merges each enumeration of the desktop's windows into the known list by id.
  - It drops windows that are no longer enumerated or that belong to the browser or the editor.
  - It counts a use of a window when that window becomes active.
- **The browser agent's tab history** (`TabManager` and `WebSocketManager` in the browser extension).
  - It stamps each tab when first seen and when activated.
  - It builds the snapshot of tabs, most recently used first, that it sends to the editor, but only on an open socket.
  - It decides what to do with a message from the editor.
- **The editor extension's dispatch.**
  - Selections and searches are modelled as the sequences of commands they issue.
  - The connection, message, close and favourite handlers are state updates on the ranker and the two views.
- **The tree views** (`TabTreeDataProvider`): which children are shown, the favourite label, the icon fallback, and the stored list.

Modules follow the program:

| module | models |
|---|---|
| `JsValues` | the optional value, the primitive ids compared with `===`, and the built-ins `trim`, `toLowerCase` and `startsWith` |
| `Seqs` | `Array.prototype.filter` and `map`, and the sub-sequence relation |
| `StableSort` | `Array.prototype.sort` with a descending numeric comparator, as a stable sort |
| `Items`, `Favourites` | tabs, windows, lookup by id, and the favourites list |
| `Scoring` | the score maps and the loops that fill them |
| `Ranking` | ranking and the split into the two views, current and older policy |
| `Ranker`, `LegacyRanker` | the two `TabScoreCalculator` classes |
| `WindowRepo` | `WindowManager` |
| `Transport`, `BrowserAgent` | the socket messages, and the browser extension's background script |
| `TreeView`, `Extension` | the tree data provider and the extension's handlers |

Several parts of the model are parameters rather than computations:

- **Recency** is a parameter `decay` of the milliseconds elapsed since the last access.
- **The clock** is a parameter `now`.
- **What the operating system and the browser report** (the window enumeration, the active window, and the tabs returned by a query) is given as values.
- **The url encoding of a search** is a parameter `encode`.

### Behaviour of the code worth noting

- **A newly enumerated window** is pushed as received (flowtabs/src/window/WindowManager.ts:31-32). No field is reset.
- **Closing the connection** refreshes both views with their lists unchanged (flowtabs/src/extension.ts:73-79). It does not empty them.
- **A window's use count** only grows, by one per change of the active window (flowtabs/src/window/WindowManager.ts:69-75). No update resets it.
- **Every `WindowManager` operation keeps the window list valid**: distinct ids, and no `chrome` or `code` process.

## Model

| member | source | states |
|---|---|---|
| JsValues.TrimSpec | flowtabs/src/window/WindowManager.ts:58 | `trim` returns the piece of its input left after removing the white space at the front and at the back, and it is empty exactly when the input is all white space |
| JsValues.Trim | flowtabs/src/window/WindowManager.ts:58 | `String.prototype.trim`: drops the leading and the trailing white space; its meaning is stated by `JsValues.TrimSpec` |
| JsValues.Lower | flowtabs/src/window/WindowManager.ts:40 | lower-casing keeps the length and maps every character to its lower-case form |
| Seqs.Filter | flowtabs/src/tabScoreCalculator.ts:154-155 | `filter` keeps exactly the elements satisfying the predicate, and never lengthens the list |
| Seqs.Map | extension-chrome/background.js:105-110 | `map` keeps the length, and element i of the result is the function applied to element i |
| StableSort.SortDescStable | flowtabs/src/tabScoreCalculator.ts:152 | the sort orders by non-increasing key, is a permutation of its input, and keeps the input order among equal keys |
| Items.FirstWithId | flowtabs/src/window/WindowManager.ts:29 | `find` by id gives nothing exactly when no element has the id; otherwise it gives the first element with the id |
| Favourites.Added | flowtabs/src/tabScoreCalculator.ts:67-71 | after adding, the id is a favourite; the list is unchanged if the id already was one, and otherwise the item is appended |
| Favourites.Removed | flowtabs/src/tabScoreCalculator.ts:73-75 | after removing, no favourite has the id, every other favourite stays, and the order is kept |
| Favourites.AddIdempotentById | flowtabs/src/tabScoreCalculator.ts:67-71 | adding an item whose id is already a favourite, whatever its other fields, changes nothing |
| Favourites.AddKeepsIdsDistinct | flowtabs/src/utils.ts:56-60 | adding never creates a second favourite with the same id |
| Favourites.RemoveAbsentIsIdentity | flowtabs/src/utils.ts:62-64 | removing an id that is not a favourite changes nothing |
| Favourites.RemoveUndoesAdd | flowtabs/src/tabScoreCalculator.ts:67-75 | removing undoes the addition of a new id |
| Scoring.ScoreMapOf | flowtabs/src/tabScoreCalculator.ts:89-91 | a score map has an entry for exactly the ids of the evaluated list |
| Scoring.ScoreMapOfLast | flowtabs/src/tabScoreCalculator.ts:89-91 | the entry of an id is computed from the last item carrying that id |
| Scoring.SumFrequency | flowtabs/src/tabScoreCalculator.ts:85 | the `reduce` total of the use counts, a missing count read as 0; bounded by `Scoring.FrequencyAtMostSum` |
| Scoring.FrequencyAtMostSum | flowtabs/src/tabScoreCalculator.ts:85 | no item's use count exceeds the total |
| Scoring.ZeroTotalGivesZeroScores | flowtabs/src/tabScoreCalculator.ts:85-90 | with a zero total every frequency score is 0 (the same in flowtabs/src/utils.ts) |
| Scoring.FrequencyScoresInUnitRange | flowtabs/src/tabScoreCalculator.ts:85-90 | every frequency score lies in [0, 1] |
| Scoring.FrequencyScoresSumToOne | flowtabs/src/tabScoreCalculator.ts:85-90 | for distinct ids and a positive total, the frequency scores of the items add up to 1 |
| Scoring.FinalScores | flowtabs/src/tabScoreCalculator.ts:124-135 | the final map has an entry for exactly the ids of the list |
| Scoring.FinalScoreOfItem | flowtabs/src/tabScoreCalculator.ts:126-130 | the score of an item is 0.3 times its share of the total (0 for a zero total) plus 0.7 times its recency |
| Scoring.FinalScoresInUnitRange | flowtabs/src/tabScoreCalculator.ts:126-130 | when recency stays in [0, 1], every final score stays in [0, 1] |
| Scoring.CalculateFrequency | flowtabs/src/tabScoreCalculator.ts:84-95 | the sum loop and the fill loop produce the frequency score map |
| Scoring.CalculateRecency | flowtabs/src/tabScoreCalculator.ts:104-115 | the fill loop produces the recency score map |
| Scoring.CalculateScore | flowtabs/src/tabScoreCalculator.ts:124-135 | the loop, recomputing both maps for each item, produces the final score map (the same loop is at flowtabs/src/utils.ts:114-125) |
| Ranking.FirstBelow | flowtabs/src/tabScoreCalculator.ts:158 | `findIndex` gives nothing exactly when every item scores at least 0.5; otherwise it gives the first item below 0.5 |
| Ranking.Rank | flowtabs/src/tabScoreCalculator.ts:152 | the evaluated list sorted by the comparator `score[b.id] - score[a.id]`; `Ranking.RankIsStableSort` states its properties |
| Ranking.Split | flowtabs/src/tabScoreCalculator.ts:154-162 | the current split of a ranked list: favourites, the non-favourites cut at the first one below 0.5, and the favourites appended to the relevant part; stated by the `Split…` lemmas below |
| Ranking.LegacySplit | flowtabs/src/utils.ts:144-150 | the older split, which drops the favourites when no non-favourite is below 0.5; stated by the `LegacySplit…` lemmas below |
| Ranking.ScoreViews | flowtabs/src/tabScoreCalculator.ts:146-167 | `getScore` as a value: score, rank and split the evaluated list; stated by `Ranking.ScoreViewsExactly` |
| Ranking.LegacyScoreViews | flowtabs/src/utils.ts:136-158 | the older `getScore` as a value; stated by `Ranking.LegacySplitAgreesWhenSomeBelow` and `Ranking.LegacySplitDropsFavourites` |
| Ranking.RankIsStableSort | flowtabs/src/tabScoreCalculator.ts:152 | the ranked list is sorted by non-increasing score, is a permutation of the evaluated list, and keeps ties in list order |
| Ranking.SplitFavouritesAtTail | flowtabs/src/tabScoreCalculator.ts:154-162 | the relevant view ends with all the favourites in ranked order; before them come only non-favourites scoring at least 0.5; that prefix followed by the overflow view is exactly the non-favourites in ranked order |
| Ranking.SplitKeepsSorted | flowtabs/src/tabScoreCalculator.ts:154-162 | on a ranked list the overflow view, the non-favourite part of the relevant view and its favourite tail are each in non-increasing score order |
| Ranking.SplitOverflowHasNoFavourite | flowtabs/src/tabScoreCalculator.ts:162 | the overflow view holds no favourite, and it starts with an item below 0.5 |
| Ranking.SplitIsPermutation | flowtabs/src/tabScoreCalculator.ts:154-162 | the two views together are a permutation of the ranked list |
| Ranking.CutAtFirstBelow | flowtabs/src/tabScoreCalculator.ts:158-162 | on a sorted list the items before the cut are exactly those scoring at least 0.5, and the items from the cut onwards are exactly those below |
| Ranking.SplitOverflowExactly | flowtabs/src/tabScoreCalculator.ts:154-162 | on a ranked list the overflow view holds exactly the non-favourites scoring below 0.5 |
| Ranking.SplitRelevantExactly | flowtabs/src/tabScoreCalculator.ts:154-162 | on a ranked list the relevant view holds exactly the favourites and the non-favourites scoring at least 0.5 |
| Ranking.ScoreViewsExactly | flowtabs/src/tabScoreCalculator.ts:146-167 | for any evaluated list: overflow is exactly the non-favourites below 0.5, relevant is exactly the favourites plus the rest, together they are a permutation of the list, and the views keep the ranked order: the non-favourite part of the relevant view followed by the overflow view is the ranked non-favourites, each part is sorted by score, and the favourites close the relevant view in ranked order |
| Ranking.LegacySplitAgreesWhenSomeBelow | flowtabs/src/utils.ts:147-150 | when some non-favourite scores below 0.5, the older split equals the current one |
| Ranking.LegacySplitDropsFavourites | flowtabs/src/utils.ts:149-150 | when no non-favourite scores below 0.5, the older split returns the non-favourites as relevant, an empty overflow, and no favourite |
| Ranking.LegacyLosesOnlyFavourite | flowtabs/src/utils.ts:149 | a list holding only one favourite: the older split returns two empty views; the current one keeps the favourite |
| Ranker.TabScoreCalculator.constructor | flowtabs/src/tabScoreCalculator.ts:46-53 | a new calculator has the given evaluated list, and no tabs, windows or favourites |
| Ranker.TabScoreCalculator.UpdateItems | flowtabs/src/tabScoreCalculator.ts:55-61 | `"tabs"` replaces only the tab list, `"windows"` only the window list; the favourites stay |
| Ranker.TabScoreCalculator.CheckFavoriteTab | flowtabs/src/tabScoreCalculator.ts:63-65 | an item is a favourite exactly when its id is among the favourites' ids |
| Ranker.TabScoreCalculator.AddFavoriteTab | flowtabs/src/tabScoreCalculator.ts:67-71 | the favourites become `Favourites.Added` of the old ones; nothing else changes |
| Ranker.TabScoreCalculator.RemoveFavoriteTab | flowtabs/src/tabScoreCalculator.ts:73-75 | the favourites become `Favourites.Removed` of the old ones; nothing else changes |
| Ranker.TabScoreCalculator.GetScore | flowtabs/src/tabScoreCalculator.ts:146-169 | the evaluated list becomes the tabs followed by the windows, ranked by score; the result is the split of `Ranking.ScoreViewsExactly` |
| LegacyRanker.TabScoreCalculator.constructor | flowtabs/src/utils.ts:35-38 | a new calculator has the given list and no favourites |
| LegacyRanker.TabScoreCalculator.UpdateTabs | flowtabs/src/utils.ts:47-49 | replaces the evaluated list wholesale; the favourites stay |
| LegacyRanker.TabScoreCalculator.CheckFavoriteTab | flowtabs/src/utils.ts:52-54 | an item is a favourite exactly when some favourite carries its id |
| LegacyRanker.TabScoreCalculator.AddFavoriteTab | flowtabs/src/utils.ts:56-60 | the favourites become `Favourites.Added` of the old ones |
| LegacyRanker.TabScoreCalculator.RemoveFavoriteTab | flowtabs/src/utils.ts:62-64 | the favourites become `Favourites.Removed` of the old ones |
| LegacyRanker.TabScoreCalculator.GetScore | flowtabs/src/utils.ts:136-158 | leaves the evaluated list sorted by non-increasing score as a permutation of what it was, and returns the older split |
| WindowRepo.MergeStep | flowtabs/src/window/WindowManager.ts:29-35 | a record whose id is known gives the first window with that id the record's title and changes nothing else; a record with a new id is appended as received |
| WindowRepo.MergeAll | flowtabs/src/window/WindowManager.ts:28-36 | the `forEach` over the enumeration as a fold of `MergeStep`; its closed form is `WindowRepo.MergeAllCharacterised` |
| WindowRepo.Excluded | flowtabs/src/window/WindowManager.ts:40 | a window of the `chrome` or `code` process, compared lower-cased |
| WindowRepo.Merged | flowtabs/src/window/WindowManager.ts:38-42 | a window is kept exactly when it came out of the merge, its id was enumerated, and its process is neither `chrome` nor `code`; the order is kept |
| WindowRepo.MergeStepKeepsDistinct | flowtabs/src/window/WindowManager.ts:29-35 | one merge step never creates a second window with the same id |
| WindowRepo.MergedKeepsValid | flowtabs/src/window/WindowManager.ts:28-42 | a merge keeps the list free of duplicate ids and of excluded processes, whatever the enumeration holds |
| WindowRepo.MergeAllCharacterised | flowtabs/src/window/WindowManager.ts:28-36 | for distinct ids, the merge loop renames the known windows in place and appends the new records in enumeration order |
| WindowRepo.MergedOrder | flowtabs/src/window/WindowManager.ts:28-42 | the kept known windows come first in their old order, followed by the kept new windows in enumeration order |
| WindowRepo.KnownWindowKeepsUsage | flowtabs/src/window/WindowManager.ts:29-35 | a known window that is enumerated again and not excluded stays, with only its title changed |
| WindowRepo.NewWindowAddedAsReceived | flowtabs/src/window/WindowManager.ts:31-32 | a newly enumerated window that is not excluded is stored exactly as received |
| WindowRepo.MergedCoversLiveRecords | flowtabs/src/window/WindowManager.ts:28-42 | every enumerated record that is not excluded has its id among the windows kept |
| WindowRepo.MergedFixed | flowtabs/src/window/WindowManager.ts:34 | a kept window already carries the title the enumeration gives it |
| WindowRepo.MergeIdempotent | flowtabs/src/window/WindowManager.ts:28-42 | merging the same enumeration twice gives the same windows as merging it once |
| WindowRepo.MergeNotIdempotentWithoutValid | flowtabs/src/window/WindowManager.ts:28-42 | without a valid list the merge is not idempotent: an excluded window renamed under another process reappears |
| WindowRepo.Stamped | flowtabs/src/window/WindowManager.ts:60-62 | the first window with the active id is stamped with `now`; stated by `WindowRepo.ActivateKnownWindow` |
| WindowRepo.Counted | flowtabs/src/window/WindowManager.ts:69-75 | the first window with the id gains one use unless it was the last active one; stated by `WindowRepo.ActivateKnownWindow` |
| WindowRepo.Activated | flowtabs/src/window/WindowManager.ts:60-75 | the stamp followed by the count, as `getActiveWindow` does them; stated by the three lemmas below and `WindowRepo.ActivatedKeepsValid` |
| WindowRepo.ActivateKnownWindow | flowtabs/src/window/WindowManager.ts:60-75 | activating a known window stamps it with `now` and adds one use exactly when its id differs from the last active id; nothing else changes |
| WindowRepo.ActivateUnknownId | flowtabs/src/window/WindowManager.ts:60-66 | an active id that matches no window changes no window |
| WindowRepo.ActivatedKeepsValid | flowtabs/src/window/WindowManager.ts:60-75 | an activation keeps the window list free of duplicate ids and of excluded processes |
| WindowRepo.RepeatedActivationCountsOnce | flowtabs/src/window/WindowManager.ts:69-75 | a second report of the same active window adds no use |
| WindowRepo.NumericIdsNeverActivated | flowtabs/src/window/WindowManager.ts:57-60 | with numeric window ids, the trimmed text of the report never matches, so no window is stamped or counted |
| WindowRepo.NumericActivationStampsWindow | flowtabs/src/window/WindowManager.ts:60-63 | with the report parsed to a number, the window with that id is stamped with `now` |
| WindowRepo.WindowManager.constructor | flowtabs/src/window/WindowManager.ts:11-12 | a new repository has no windows and last active id 0, and its list is valid |
| WindowRepo.WindowManager.GetWindows | flowtabs/src/window/WindowManager.ts:17-19 | returns the stored window list |
| WindowRepo.WindowManager.GetAllWindows | flowtabs/src/window/WindowManager.ts:22-42 | the merge loop and the filter leave the windows equal to `Merged` of the old ones; the last active id stays; a valid list stays valid |
| WindowRepo.WindowManager.Activate | flowtabs/src/window/WindowManager.ts:60-66 | the windows become the activated list, and the last active id becomes the reported one, matched or not; a valid list stays valid |
| WindowRepo.WindowManager.UpdateWindowsFrequency | flowtabs/src/window/WindowManager.ts:69-76 | the first window with the id gains one use unless it was already the active one; a valid list stays valid |
| WindowRepo.WindowManager.GetActiveWindow | flowtabs/src/window/WindowManager.ts:55-67 | as written: the active id is the trimmed report text, and the windows become the activated list for that id; a valid list stays valid |
| WindowRepo.WindowManager.GetActiveWindowById | flowtabs/src/window/WindowManager.ts:55-67 | corrected: the active id is the numeric window id the report names, and the windows become the activated list for that id; a valid list stays valid |
| Transport.FieldOf | flowtabs/src/os/OSManager.ts:27 | a value is written out unless it is undefined |
| Transport.Encode | flowtabs/src/os/OSManager.ts:27 | `{action, ...payload}` holds `action` and the payload field if defined, and nothing else; a payload field named `action` overrides it |
| BrowserAgent.Filled | extension-chrome/background.js:96-100 | after the fill loop, every reported tab has an entry, old entries are kept, and new ones hold `now` |
| BrowserAgent.Snapshot | extension-chrome/background.js:103-110 | the reported tabs sorted by last access, most recent first, each mapped to its entry; stated by `BrowserAgent.SnapshotSortedAndComplete` |
| BrowserAgent.SnapshotSortedAndComplete | extension-chrome/background.js:103-110 | the snapshot is the reported tabs' entries, as a multiset, by non-increasing last access; each entry carries title, url, icon and last access, and no id |
| BrowserAgent.SnapshotSharesOneScore | extension-chrome/background.js:105-110 | since no entry has an id, the editor scores every browser tab with the one score of the least recently used entry |
| BrowserAgent.ActivationRequest | extension-chrome/background.js:26-36 | the `onmessage` handler: a parsed `activateTab` message gives the url it carries, if any; anything else gives no activation; stated by the three lemmas below |
| BrowserAgent.EditorActivationHasNoUrl | extension-chrome/background.js:29-30 | the editor's `{action: "activateTab", id}` reaches `activateTab` without a url |
| BrowserAgent.ActivationByUrlCarriesUrl | extension-chrome/background.js:29-30 | a message carrying a url reaches `activateTab` with that url |
| BrowserAgent.SearchAndMalformedIgnored | extension-chrome/background.js:26-36 | a search message and an unparseable message trigger no activation |
| BrowserAgent.WebSocketManager.constructor | extension-chrome/background.js:2-8 | a new manager is connecting and has sent nothing |
| BrowserAgent.WebSocketManager.Connect | extension-chrome/background.js:14-17 | `connect` makes a fresh socket that is still connecting |
| BrowserAgent.WebSocketManager.Opened | extension-chrome/background.js:19 | the socket becomes open and nothing is sent |
| BrowserAgent.WebSocketManager.Send | extension-chrome/background.js:56-63 | a list is transmitted only on an open socket; otherwise it is dropped |
| BrowserAgent.TabManager.constructor | extension-chrome/background.js:67-71 | the history starts empty |
| BrowserAgent.TabManager.UpdateTabHistory | extension-chrome/background.js:88-90 | only the given tab's entry is set to `now` |
| BrowserAgent.TabManager.SendTabsToVSCode | extension-chrome/background.js:92-113 | the history becomes `Filled`, and the snapshot is sent if the socket is open |
| BrowserAgent.TabManager.OnActivated | extension-chrome/background.js:74-77 | the activated tab is stamped with `now`, the history is then filled, and the snapshot is sent exactly when the socket is open; the socket is unchanged |
| BrowserAgent.TabManager.OnRemoved | extension-chrome/background.js:80-83 | the removed tab's entry is deleted, and it stays deleted unless the tab is still reported; the snapshot is sent exactly when the socket is open; the socket is unchanged |
| BrowserAgent.TabManager.ActivateTab | extension-chrome/background.js:115-123 | only the first matching tab is activated and stamped, and then the snapshot is sent exactly when the socket is open; with no match nothing changes and nothing is sent; the socket is unchanged |
| BrowserAgent.TabManager.OnOpen | extension-chrome/background.js:19-24 | once the socket opens, the history is filled and the snapshot of the reported tabs is transmitted |
| TreeView.IconOf | flowtabs/src/views/TabTreeDataProvider.ts:22-26 | the element's own icon when it has one; otherwise "globe" for a tab and "window" for a window |
| TreeView.TabTreeDataProvider.constructor | flowtabs/src/views/TabTreeDataProvider.ts:9-14 | a new view stores no items and refers to the given calculator |
| TreeView.TabTreeDataProvider.GetChildren | flowtabs/src/views/TabTreeDataProvider.ts:33-41 | shows every window and every tab whose url does not start with `chrome://newtab/`, as a sub-sequence of the stored list |
| TreeView.TabTreeDataProvider.ContextValue | flowtabs/src/views/TabTreeDataProvider.ts:28 | "favoriteTab" exactly when the calculator has the element's id among the favourites, "tab" otherwise |
| TreeView.TabTreeDataProvider.UpdateTabs | flowtabs/src/views/TabTreeDataProvider.ts:43-46 | replaces the stored list wholesale and redraws |
| TreeView.TabTreeDataProvider.Refresh | flowtabs/src/views/TabTreeDataProvider.ts:48-50 | redraws and leaves the stored list unchanged |
| Extension.OnSelection | flowtabs/src/extension.ts:82-92 | as written, for both views: no command for an empty selection; for a tab, bring the browser forward, then send `activateTab` with the selected tab's id; for a window, exactly one command activating that window |
| Extension.OnSelectionByUrl | flowtabs/src/extension.ts:84-87 | like `OnSelection` for a window; for a tab, bring the browser forward, then send `activateTab` with the selected tab's url |
| Extension.Wire | flowtabs/src/os/OSManager.ts:27 | the object the browser parses for a sent message, `{action, ...payload}`; stated by `Transport.Encode` |
| Extension.SelectionReachesBrowserWithoutUrl | flowtabs/src/extension.ts:87 | a tab selected as written reaches the browser's `activateTab` without a url |
| Extension.SelectionByUrlReachesBrowser | flowtabs/src/extension.ts:87 | a tab selected by url reaches the browser's `activateTab` with its url |
| Extension.OnSearch | flowtabs/src/extension.ts:106-120 | no command exactly when the input was dismissed or is blank; otherwise activate or open the browser, then send the search url |
| Extension.RelevantViewNeverFilled | flowtabs/src/extension.ts:17-19 | as written, the overflow view gets its list and the relevant view gets none |
| Extension.SyncTabsAsWritten | flowtabs/src/extension.ts:17-19 | the two lists `syncTabs` reads as written, `allTabs` and `relevantTabs`; stated by `Extension.RelevantViewNeverFilled` |
| Extension.SyncTabsLists | flowtabs/src/extension.ts:17-19 | reading `relevantTabsWithFavorites`, each view gets its own list |
| Extension.FlowTabs.constructor | flowtabs/src/extension.ts:41-46 | a new extension has no client, an empty calculator, two distinct empty views that both ask that calculator about favourites, and an empty repository |
| Extension.FlowTabs.SyncTabs | flowtabs/src/extension.ts:15-20 | corrected: reading `relevantTabsWithFavorites` rather than `relevantTabs`; the calculator's list becomes the ranking of the current tabs and windows, the overflow view and the relevant view get the two lists `getScore` returns, and each redraws once; the tabs, windows and favourites stay |
| Extension.FlowTabs.OnConnection | flowtabs/src/extension.ts:57-59 | a new connection replaces the client |
| Extension.FlowTabs.OnMessage | flowtabs/src/extension.ts:61-71 | a parsed message replaces the tab list and re-syncs both views; an unparseable one changes no list and no view; the windows and favourites stay |
| Extension.FlowTabs.OnClose | flowtabs/src/extension.ts:73-79 | on close the views keep their lists, the tab list is emptied, the window list and the favourites stay, and the client is forgotten |
| Extension.FlowTabs.AddFavorite | flowtabs/src/extension.ts:125-128 | the favourite is added, the tabs and windows stay, and both views are re-synced |
| Extension.FlowTabs.RemoveFavorite | flowtabs/src/extension.ts:130-133 | the favourite is removed, the tabs and windows stay, and both views are re-synced |
| Extension.FlowTabs.UpdateCycle | flowtabs/src/extension.ts:25-29 | one cycle merges the enumeration, activates the reported window and records it as the last active one, hands the windows to the calculator, and re-syncs both views; the tabs and favourites stay; the activation is the corrected `GetActiveWindowById`, not the as-written `GetActiveWindow` |

## Left out

- **Recency.**
  - `Math.exp` and `Date.now()` are left out: recency is the parameter `decay`, and the clock is the parameter `now`.
  - `Date.now()`, which the source reads again for each item, is modelled as a single `now`.
  - Arithmetic is exact (`real`), not IEEE floating point.
- **Sockets, processes and the editor API.**
  - The socket server and client, their reconnect timer, their ready-state transitions, and the polling `setTimeout` are not modelled: they are I/O and timers. The ready state is a field that `Connect` and `Opened` set.
  - PowerShell, nircmd, `tasklist` and `start` are not modelled: they are external processes. This also leaves out the parsing of their output, `getIcon`, and the icon written back into a window.
  - `OSFactory`, `WindowManagerInterface` and the VS Code API (tree items, URIs, commands, input box) are not modelled: they are platform and UI code. So is the folder deletion in `deactivate`.
  - Concurrency: each handler is one atomic step, and promise interleavings are not modelled.
  - Logging is left out.
  - `FileSystemUtils` is the default import of the `utils` module (flowtabs/src/window/WindowManager.ts:3 and flowtabs/src/os/windows/WindowsOSManager.ts:4). Among the files modelled, both paths resolve to flowtabs/src/utils.ts, whose default export (line 162) is the older calculator. That class has no `executeCommand` or `createDirectory`, so as written every command call in `WindowManager` (lines 25, 57, 83 and 87) would reject before the merge or the activation runs. The model assumes a working command runner: the enumeration and the activation report are given as values.
- **JavaScript semantics.**
  - Object keys are stringified: a numeric id and the string of the same digits would share one score entry. The model keeps them apart.
  - `toLowerCase` is modelled for ASCII letters only.
  - `encodeURIComponent` is the parameter `encode`.
- **Malformed inputs.**
  - A message that parses but has no `tabs` field is not modelled: it would store `undefined` as the tab list.
  - An enumeration record without a process name is not modelled: it would make the filter throw.
  - `chrome.tabs.query` is not modelled: its result is the parameter `matching`.
- **State not captured.**
  - SyncTabs: the model's `syncTabs` reads `relevantTabsWithFavorites`, so the relevant view gets its list; as written it reads `relevantTabs` and the relevant view gets `undefined` (see Findings). OnMessage, AddFavorite, RemoveFavorite and UpdateCycle re-sync through this corrected `SyncTabs`.
  - UpdateCycle: the cycle uses the corrected numeric activation `GetActiveWindowById`; the as-written `GetActiveWindow` never matches a window (see Findings).
  - The model does not capture that `this.tabs.sort` works in place. The sorted list is reassigned instead, and aliasing of the array is not modelled.
  - Objects stored in several lists are not modelled as shared: a window's fields are updated in the repository's list only.
  - `Extension.FlowTabs.OnClose` models one connection: the source clears the client on the close of any connection, even if it is not the current one.

## Findings

| source | as written | input that shows it | evidently intended | confidence | as-written member | corrected member |
|---|---|---|---|---|---|---|
| flowtabs/src/utils.ts:149 | the favourites are appended to the relevant list only when some non-favourite scores below 0.5 | one tab, which is a favourite: both outputs are empty | the favourites are always in the relevant list, as in flowtabs/src/tabScoreCalculator.ts:160-161 | high, not executed | Ranking.LegacyLosesOnlyFavourite | Ranking.SplitFavouritesAtTail |
| flowtabs/src/extension.ts:17 | `syncTabs` destructures `relevantTabs`, but `getScore` returns `relevantTabsWithFavorites` | any call: the relevant view is given `undefined` | the relevant view shows `relevantTabsWithFavorites` | high, not executed | Extension.RelevantViewNeverFilled | Extension.FlowTabs.SyncTabs |
| flowtabs/src/window/WindowManager.ts:58-60 | the active id is the trimmed report text, compared with `===` to numeric window ids | windows with ids 1 and 2, report "1": no window is stamped or counted | the report is parsed to the number it names | medium, not executed | WindowRepo.NumericIdsNeverActivated | WindowRepo.NumericActivationStampsWindow |
| flowtabs/src/extension.ts:87 | selecting a tab sends `{action: "activateTab", id}`, but the browser activates `data.url` (extension-chrome/background.js:30) | any tab selection: the browser queries tabs with an undefined url | the message names the tab by its url | medium, not executed | Extension.SelectionReachesBrowserWithoutUrl | Extension.SelectionByUrlReachesBrowser |
