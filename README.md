# LeadSync AI: the modelled core

LeadSync AI is a browser dashboard. A user keeps *keyword collections*:
a name, a niche, a location, keywords and exclude keywords. For the active
collection the app asks a generative search service for organic social-media
leads, then turns the search's grounding citations ("chunks") into `Lead`
records. It shows them with per-platform and per-status counts and a
"lead health" bar.

This project models the logic under that UI, one Dafny module per source file:

- `GeminiService` (services/geminiService.ts). It builds the prompt sent
  for a collection. It classifies a chunk's uri into a platform label: the
  leftmost of linkedin/reddit/twitter/facebook/instagram/quora, ignoring
  case, capitalised, or "Web Content". It maps the chunk list to leads, one
  per chunk, in order, and treats a failed call as empty leads and sources.
- `CreateFileDialog` (components/CreateFileDialog.tsx). It parses the
  comma-separated keyword fields (split, trim, drop empties) and decides
  whether the form may be submitted. An empty location becomes "Global".
- `App` (App.tsx). A class `AppState` holds the component state: `files`,
  `activeFileId`, `leads`, `dialogMode` and `isRefreshing`. Its methods are
  the handlers (load, create, update, delete, select, refresh, dialog
  open/close/submit). Each method's new state is given by the pure list
  functions beside the class, and lemmas prove those functions' properties.
- `OverviewDashboard` (components/OverviewDashboard.tsx). Counts by platform
  (a case-insensitive substring test) and by status, the four platform
  tiles with the Twitter/X fallback, and the four outreach statistics.
- `Dashboard` (components/Dashboard.tsx). Which view is rendered, and the
  lead-health width and label.
- `Types` (types.ts) holds the records. `Text` holds the JavaScript string
  built-ins the code relies on: `toLowerCase`, `includes`, `split`, `trim`,
  `join` and number rendering in templates. `Wrappers` holds `Option`.

The clock (`Date.now()`) is a parameter `now`. The search call's outcome is
the input `SearchOutcome`: either `Failed`, or `Answered` with an optional
chunk list. How the awaited call settles in the refresh handler is the
input `App.Settlement`: resolved with such an outcome, or rejected, which
happens when the client construction at services/geminiService.ts:7 throws
outside the service's own `try`. The saved collection list is an optional,
already-parsed list.

What the code does not do, and so the model does not either:
- There is no URL normalisation, de-duplication, CSV export or group scope,
  and the exclude keywords never reach the prompt.
- The relevance score is the constant 85, not a computed or random value.
- Deleting a collection leaves `leads` untouched; nothing cascades.

The lead literal in `findLeads` sets no status. `GeminiService.FindLeadsAsWritten`
models the lead list exactly as written, with no status. `GeminiService.FindLeads`
is the corrected list, in which every lead starts as "to be outreached" (see
Findings); the app state and the scan counts use it.

## Model

| member | source | states |
|---|---|---|
| `GeminiService.Prompt` | services/geminiService.ts:10-24 | the prompt opens with the fixed header up to "- Niche: " and closes with the fixed instructions |
| `GeminiService.PromptPlacesProfile` | services/geminiService.ts:10-14 | the niche sits right after the header, the keywords joined with ", " right after "- Keywords: ", the location right after "- Target Location: ", and the fixed instructions follow the location to the end |
| `GeminiService.PromptMentionsProfile` | services/geminiService.ts:10-14 | the prompt contains the niche, the keywords joined with ", ", and the location |
| `GeminiService.PromptIgnoresOtherFields` | services/geminiService.ts:8 | two collections with the same niche, keywords and location get the same prompt, so exclude keywords never reach it |
| `GeminiService.PlatformOf` | services/geminiService.ts:40-41 | "Web Content" exactly when there is no uri or no platform name occurs in it, ignoring case; otherwise the leftmost occurrence with its first letter upper-cased and the rest spelt as in the uri, so its lower-case form is one of the six names |
| `GeminiService.CapitalizedMatch` | services/geminiService.ts:41 | the label built from the leftmost match lower-cases back to the matched name and is never "Web Content" |
| `GeminiService.LeadIdInjective` | services/geminiService.ts:44 | for one clock value, `lead-<now>-<i>` and `lead-<now>-<j>` are equal only when i = j |
| `GeminiService.LeadId` | services/geminiService.ts:44 | the id is `lead-`, the clock's digits and `-`, followed by digits that read back as the chunk's index |
| `GeminiService.Snippet` | services/geminiService.ts:46 | the snippet mentions the location and the first keyword, or "undefined" when there is none |
| `GeminiService.ChunkToLeadAsWritten` | services/geminiService.ts:43-53 | one lead as the literal builds it: its platform is "Web Content" or lower-cases to one of the six names, its title and url are never empty, and it has no status and no author |
| `GeminiService.FindLeadsAsWritten` | services/geminiService.ts:37-60 | a failed call yields no leads and no sources; otherwise exactly one lead per chunk in chunk order (none when the chunk list is absent), each with id `lead-<now>-<index>`, its uri's platform, the title/url fallbacks, score 85, the file's id, the shared snippet, positive sentiment, no author and no status; the ids are pairwise distinct |
| `GeminiService.FindLeads` | services/geminiService.ts:37-60 | the corrected scan: the same sources and the same leads as written, except that every lead's status is "to be outreached" |
| `Text.TrimSlice` | components/CreateFileDialog.tsx:19 | `trim` returns a contiguous slice of its input, and everything it cuts off on either side is whitespace |
| `CreateFileDialog.ParseList` | components/CreateFileDialog.tsx:19 | every parsed keyword is non-empty, has no comma and no whitespace at either end; at most one keyword per comma plus one |
| `CreateFileDialog.ParseListAround` | components/CreateFileDialog.tsx:19 | parsing keeps input order: the keywords of `a,b` are those of `a` followed by those of `b` |
| `CreateFileDialog.ParseListSingle` | components/CreateFileDialog.tsx:19 | a comma-free input is its trimmed text as one keyword, or nothing when that is empty |
| `CreateFileDialog.ParseListBlank` | components/CreateFileDialog.tsx:19 | input made only of commas and whitespace gives no keywords |
| `CreateFileDialog.ParseListJoin` | components/CreateFileDialog.tsx:19 | clean keywords joined with ", " (as the prompt joins them) parse back to the same list |
| `CreateFileDialog.HandleSubmit` | components/CreateFileDialog.tsx:17-31 | nothing is submitted exactly when the name is empty, the niche is empty or no keyword remains; otherwise name and niche untrimmed, location or "Global", both lists parsed the same way; an empty exclude list never blocks |
| `App.ApplyData` | App.tsx:58 | the updated file carries every submitted field and keeps its id and createdAt |
| `App.NewFile` | App.tsx:45-49 | a new file has id `file-<now>`, createdAt `now`, and the submitted fields |
| `App.DefaultFile` | App.tsx:24-32 | the first-start collection has id "default-1" and creation time `now`, a name, a niche and a location, and non-empty lists of clean keywords, as the form would produce |
| `App.FindFile` | App.tsx:42 | the first file whose id equals the active id; none when the id is null or no file has it |
| `App.UpdateWhere` | App.tsx:57-59 | same length and order; files with the active id are rewritten and keep id and createdAt; every other file is unchanged |
| `App.RemoveId` | App.tsx:83 | exactly the files with another id remain, never more than before |
| `App.RemoveIdAppend` | App.tsx:83 | removal keeps the remaining files in their original order |
| `App.ActiveAfterDelete` | App.tsx:85-87 | deleting another id keeps the active id; deleting the active id selects the first remaining file, or none exactly when no file remains |
| `App.DeleteKeepsResolved` | App.tsx:82-88 | if the active id named a file before a delete, it names a file (or is null) after it |
| `App.AppState.constructor` | App.tsx:10-14 | the initial state: no files, no active id, no leads, no dialog, not refreshing |
| `App.AppState.ActiveFile` | App.tsx:42 | the active file is a file whose id is the active id; there is none exactly when the id is null or no file has it |
| `App.AppState.Screen` | App.tsx:141-145 | the main area shows the empty state exactly when there is no active file; otherwise that file, with the loading placeholders exactly while refreshing and "No leads found yet" exactly when not refreshing with no leads |
| `App.AppState.Load` | App.tsx:17-35 | nothing saved: exactly one file, "default-1", and it is active; a saved non-empty list: that list, with its first file active |
| `App.AppState.SelectFile` | App.tsx:95 | the chosen id becomes active and nothing else changes |
| `App.AppState.OpenCreateDialog` | App.tsx:96 | opens the create dialog and nothing else changes |
| `App.AppState.EditFile` | App.tsx:98-101 | selects the file and opens the edit dialog |
| `App.AppState.CloseDialog` | App.tsx:151 | closes the dialog and nothing else changes |
| `App.AppState.CreateFile` | App.tsx:44-53 | appends exactly one file after the unchanged old ones, makes it active, closes the dialog |
| `App.AppState.UpdateFile` | App.tsx:55-61 | with no active id (null or "") nothing changes; otherwise only files with the active id are rewritten, the dialog closes, and an active id that named a file still does |
| `App.AppState.SubmitDialog` | App.tsx:152 | create mode: the new file is appended and made active, and the dialog closes; edit mode with an active id: the files with that id are rewritten and the dialog closes; edit mode with a null or "" active id, or no dialog: nothing changes; leads and the refresh flag never change |
| `App.AppState.SubmitForm` | components/CreateFileDialog.tsx:22-30 | a refused form changes nothing; an accepted one has exactly the effect of `SubmitDialog` on its parsed data, mode by mode |
| `App.AppState.BeginRefresh` | App.tsx:63-65 | with no active file nothing changes; otherwise refreshing starts and the dashboard shows the loading placeholders |
| `App.AppState.FinishRefresh` | App.tsx:66-73 | a resolved call replaces the leads with the scan result; a rejected call keeps the old leads; either way refreshing ends and the collections and dialog stay |
| `App.AppState.RefreshLeads` | App.tsx:63-74 | with no active file nothing changes; otherwise the leads become the active file's scan result, or stay when the call rejects, and `isRefreshing` ends false |
| `App.AppState.DeleteFile` | App.tsx:82-88 | removes every file with that id, keeps the rest in order; if it was active, the first remaining file's id or null becomes active, otherwise the active id stays |
| `OverviewDashboard.CountIf` | components/OverviewDashboard.tsx:10-11 | a filtered count is at most the number of leads, and zero for no leads |
| `OverviewDashboard.CountIfAppend` | components/OverviewDashboard.tsx:10-11 | appending one lead raises a filtered count by one if the lead passes the test, else leaves it |
| `OverviewDashboard.CountByPlatform` | components/OverviewDashboard.tsx:10 | a platform count is at most the number of leads |
| `OverviewDashboard.CountByStatus` | components/OverviewDashboard.tsx:11 | a status count is at most the number of leads |
| `OverviewDashboard.CountByPlatformIgnoresCase` | components/OverviewDashboard.tsx:10 | names that lower-case alike ("facebook", "FACEBOOK") give the same count |
| `OverviewDashboard.CountsAfterAppend` | components/OverviewDashboard.tsx:10-11 | appending a lead raises each platform and status count by 0 or 1 |
| `OverviewDashboard.StatusCountsSum` | components/OverviewDashboard.tsx:21-24 | the four status counts add up to the number of leads that carry a status, because the status has exactly four values |
| `OverviewDashboard.AllWithStatus` | components/OverviewDashboard.tsx:11 | when every lead has a status, the number of leads carrying a status (`WithStatus`) equals the number of leads |
| `OverviewDashboard.TwitterXCount` | components/OverviewDashboard.tsx:16 | the Twitter/X tile counts platforms containing "x", and falls back to the "twitter" count only when that is zero |
| `OverviewDashboard.PlatformTiles` | components/OverviewDashboard.tsx:13-18 | four tiles, none with a count above the number of leads |
| `OverviewDashboard.Stats` | components/OverviewDashboard.tsx:20-25 | four statistics whose values add up to the number of leads that carry a status |
| `OverviewDashboard.ScannedTwitterTile` | components/OverviewDashboard.tsx:16 | no scanned label contains an "x", so over scanned leads the Twitter/X tile is the "twitter" count |
| `OverviewDashboard.NoXInLabel` | services/geminiService.ts:41 | no platform label contains an "x" in any case |
| `OverviewDashboard.ScannedStatusCounts` | components/OverviewDashboard.tsx:21-24 | over a scan's leads, "to be outreached" counts every lead and the four counts add up to the number of leads |
| `OverviewDashboard.AsWrittenScanCountsNoStatus` | services/geminiService.ts:43-53 | over a scan as written no lead carries a status, so all four status counts are zero |
| `OverviewDashboard.AsWrittenLeadHasNoStatus` | services/geminiService.ts:43-53 | a scan as written of one reddit chunk has one lead, yet every status count is zero |
| `Dashboard.HealthWidth` | components/Dashboard.tsx:115 | the width is min(10 * leads, 100); it lies in [0, 100] and reaches 100 exactly from ten leads on |
| `Dashboard.HealthWidthMonotone` | components/Dashboard.tsx:115 | the width never shrinks as the lead count grows |
| `Dashboard.HealthLabel` | components/Dashboard.tsx:117 | "High" exactly when there are more than five leads, otherwise "Moderate" |
| `Dashboard.Render` | components/Dashboard.tsx:12-101 | no active file gives the empty state whatever the leads; loading takes precedence; "No leads found yet" only when not loading with no leads; cards show the leads; the excluded-keyword block only when that list is non-empty |

## Left out

- The search call itself is foreign, asynchronous I/O (`generateContent` in `findLeads`, and all of `analyzeLeadText`). Only its outcome is modelled, as an input.
- Malformed chunks: only two kinds make the `map` throw, after which the `catch` gives the empty result. One is a `null` chunk (reading `web` of `null`); the other is a `web.uri` that is present but not a string (it has no `match`). A primitive chunk such as `5` has no `web` and behaves exactly like `Chunk(None)`. Chunks here are well-formed values, and `uri` and `title` are strings when present, so neither throwing case is modelled.
- The `console.error` calls in both catches (services/geminiService.ts:58, App.tsx:70) are console I/O and are not modelled.
- localStorage and `JSON.parse`/`JSON.stringify` are browser I/O. The saved list arrives already parsed. A malformed saved string, which makes the start-up effect throw, is not modelled.
- `Date.now()` is one parameter `now` per operation. The source reads the clock separately for each id and timestamp.
- `useEffect`/`useCallback` scheduling is not modelled: the refresh that runs whenever `activeFileId` changes, the save on every `files` change, and overlapping refreshes. This is framework event-loop behaviour.
- The `toFixed(1) + 'K'` display of counts above 1000 is floating-point formatting.
- JSX, CSS classes and icons are left out. So are components/Sidebar.tsx, components/LeadCard.tsx and components/NextdoorConnector.tsx (UI, an AI call, and a timer-simulated connection) and vite.config.ts.
- `GeminiService.FindLeads`: gives every lead the status "to be outreached", which the literal at services/geminiService.ts:43-53 does not set. The list exactly as written is `GeminiService.FindLeadsAsWritten`, and the Findings table records the difference.
- `App.AppState.FinishRefresh` and `App.AppState.RefreshLeads`: store the corrected leads of `GeminiService.FindLeads`, so their leads carry the intended status rather than none.
- `OverviewDashboard.CountByPlatform`: lower-cases ASCII letters only. JavaScript's `toLowerCase` also maps non-ASCII letters; that mapping is not modelled.
- `GeminiService.PlatformOf`: matches names ignoring ASCII case only. This equals the regex's `/i` behaviour, which without the `u` flag never matches a non-ASCII character against these ASCII names.
- `GeminiService.LeadIdInjective`: proves ids distinct within one clock value only. Across scans, uniqueness depends on the clock and is not a property of the code.

## Findings

| source | as written | input that shows it | evidently intended | confidence | as-written member | corrected member |
|---|---|---|---|---|---|---|
| services/geminiService.ts:43-53 | the lead object literal sets no `status`, although `Lead.status` is required (types.ts:41), so every scanned lead has `status` undefined | one grounding chunk with uri `https://reddit.com/r/x`: one lead whose `status` is undefined, so `getCountByStatus` (components/OverviewDashboard.tsx:11) counts it for none of the four statuses; App.tsx and components/Dashboard.tsx do not mount `OverviewDashboard`, so no statistic is shown on screen from them | new leads start as `to_be_outreached` | medium; not executed | `GeminiService.FindLeadsAsWritten`, exhibited by `OverviewDashboard.AsWrittenLeadHasNoStatus` and `OverviewDashboard.AsWrittenScanCountsNoStatus` | `GeminiService.FindLeads` (used by `App.AppState.FinishRefresh`), proved in `OverviewDashboard.ScannedStatusCounts` |
