# Notes app core, modelled in Dafny

This project models the three pieces of sequential logic in a single-user note-taking app:

- **The notes store** (`NotesService`): it keeps one flat list of notes under the storage key `"notes"`. It has four operations. Load-all falls back to the empty list. Save updates the first matching note in place or prepends a new one. Delete filters out every note with a given id. Search is a case-insensitive substring match over title or content. The store is the class `NotesService.NotesStore`. Its field `stored` is the storage entry, and `None` stands for a missing, unreadable or unparseable entry. Each method is specified against a pure function on the loaded list: `Upsert`, `Deleted` or `SearchResults`. The lemmas state the frame conditions and the filter semantics of those functions.
- **The theme state machine** (`ThemeProvider`): two state variables, `theme` and `isLoading`, plus the stored `"theme"` entry. `loadTheme` takes the stored value, else the OS scheme, and swallows a failed read. `toggleTheme` flips the theme in memory and then persists it. `ColorsFor` picks the palette.
- **The relative-date label** (`formatDate` in a note row): elapsed milliseconds are turned into a day count by ceiling division, and the day count into a label. The model keeps the source's edge case: a timestamp equal to now, or in the future, is shown as "-1 days ago" or lower.

Supporting modules model the JavaScript built-ins the core uses:
- `Seqs.Filter` is `Array.prototype.filter`.
- `JsStrings` holds `trim`, `toLowerCase` and `includes`.
- `Types` holds the records of `types/index.ts`.

Behaviour of the code worth knowing, which the model keeps:
- `deleteNote` re-throws a failed write (services/notesService.ts:59-62). It is not only logged. `DeleteNote` returns `Fail(WriteFailed)`.
- A new note's id is only time-plus-random. Freshness is not guaranteed, so it is a parameter and no uniqueness is claimed.
- The stored theme is adopted without checking that it is `"light"` or `"dark"`. `ToggleTwiceNormalizes` shows that such a value does not survive two toggles.
- A partial note that carries `createdAt` overrides the stored one. So `updatedAt >= createdAt` is not maintained by the code, and timestamps are opaque strings here.

## Model

| member | source | states |
|---|---|---|
| `NotesService.NotesStore.GetAllNotes` | services/notesService.ts:7-15 | returns the stored list, or the empty list when the entry is missing, unreadable or unparseable; it has no failure result |
| `NotesService.FindIndex` | services/notesService.ts:24 | returns -1 exactly when no note carries the id; otherwise the first position whose note carries it |
| `NotesService.Overlay` | services/notesService.ts:26-30 | every field supplied in the partial overrides the stored one; `updatedAt` is `now` even when the partial supplied its own |
| `NotesService.NewNote` | services/notesService.ts:37-43 | the new note has the given fresh id; the title is "Untitled" exactly when the supplied title is missing, empty or "Untitled" itself; the content is `""` when missing; `createdAt == updatedAt == now` |
| `NotesService.Upsert` | services/notesService.ts:17-47 | the returned note is an element of the list written back (save then load finds it) |
| `NotesService.UpsertUpdatesInPlace` | services/notesService.ts:22-33 | with a truthy id held at first position i: same length, position i holds the returned note, which is the old record overlaid with the partial, and every other position is unchanged |
| `NotesService.UpsertPrependsNew` | services/notesService.ts:22-47 | with no id, an empty id or an id nobody holds: the new note is at index 0, the old list follows unchanged and the length grows by one |
| `NotesService.UpsertKeepsIdOrder` | services/notesService.ts:22-47 | when the supplied id is truthy and found, the list of ids stays exactly as it was (ids never change, no re-sort); otherwise the fresh id goes in front of the old ids |
| `NotesService.NotesStore.SaveNote` | services/notesService.ts:17-52 | on a successful write, stores `Upsert` of the loaded list and returns its note, which is then in the stored list; a failed write is returned as `WriteFailed` and leaves storage unchanged |
| `NotesService.Deleted` | services/notesService.ts:57 | the filtered list is no longer than the input, none of its notes carries the id, and every note with another id is in it |
| `NotesService.DeleteKeepsOthers` | services/notesService.ts:56-58 | the result is an order-preserving subsequence of the list, none of its notes has the id, every note with a different id is kept, and each such note keeps exactly as many copies as it had |
| `NotesService.DeleteAbsentIsIdentity` | services/notesService.ts:57 | deleting an id nobody holds leaves the list unchanged |
| `NotesService.DeleteIdempotent` | services/notesService.ts:57 | deleting twice equals deleting once |
| `NotesService.DeleteUndoesCreate` | services/notesService.ts:36-58 | deleting a freshly created note (whose id nobody else held) restores the list it was prepended to |
| `NotesService.NotesStore.DeleteNote` | services/notesService.ts:54-63 | on a successful write, stores the loaded list without the id's notes; a failed write is propagated and storage is unchanged |
| `NotesService.Matcher` | services/notesService.ts:71-74 | the search filter holds of a note exactly when the lower-cased query occurs at some position of the lower-cased title or of the lower-cased content |
| `NotesService.SearchResults` | services/notesService.ts:68-74 | the search result is no longer than the stored list and holds only stored notes |
| `NotesService.SearchBlankReturnsAll` | services/notesService.ts:68 | an empty or whitespace-only query returns the stored list unchanged |
| `NotesService.SearchSelectsHits` | services/notesService.ts:70-74 | any other query returns an order-preserving subsequence of the list holding exactly the notes whose lower-cased title or content contains the lower-cased query, each with all its copies |
| `NotesService.SearchIgnoresQueryCase` | services/notesService.ts:70-74 | lower-casing the query first does not change the result |
| `NotesService.SearchDoesNotTrimQuery` | services/notesService.ts:68-74 | the query is matched untrimmed: "b" finds a note titled "ab", "b " does not |
| `NotesService.NotesStore.SearchNotes` | services/notesService.ts:65-79 | returns `SearchResults` of the loaded list, which is the whole list for a blank query; storage is not written |
| `Seqs.Filter` | services/notesService.ts:57 | the result is no longer than the input; every kept element is in the input and satisfies the predicate, and every input element that satisfies it is kept |
| `Seqs.FilterAppend` | services/notesService.ts:57 | filtering distributes over concatenation, which fixes the order and the multiplicity of what survives |
| `Seqs.FilterCount` | services/notesService.ts:57 | every element survives the filter with all of its copies or with none |
| `Seqs.FilterIsSubsequence` | services/notesService.ts:71-74 | the filtered list is a subsequence of its input |
| `JsStrings.Trim` | services/notesService.ts:68 | `trim` returns the part of the string left after removing whitespace at both ends: it occurs at some position k, everything before k and after it is whitespace, and it neither starts nor ends with whitespace |
| `JsStrings.TrimEmptyIffBlank` | services/notesService.ts:68 | `trim` yields the empty string exactly for the strings made only of whitespace |
| `JsStrings.Lower` | services/notesService.ts:70 | lower-casing keeps the length and maps each character on its own |
| `JsStrings.Includes` | services/notesService.ts:72-73 | the empty string is always included, a longer string never is, and a string of equal length only when it is the same string |
| `JsStrings.IncludesIff` | services/notesService.ts:72-73 | `includes` holds exactly when the substring occurs at some position |
| `ThemeContext.ThemeProvider.constructor` | contexts/ThemeContext.tsx:38-39 | the initial state is `theme == "light"` and `isLoading == true` |
| `ThemeContext.ColorsFor` | contexts/ThemeContext.tsx:41 | the light palette exactly when the theme is "light", the dark palette exactly for every other string |
| `ThemeContext.ThemeProvider.Colors` | contexts/ThemeContext.tsx:41 | the provider's palette is the light one exactly when its theme is "light", and the dark one exactly when it is any other string |
| `ThemeContext.ThemeAfterLoad` | contexts/ThemeContext.tsx:47-60 | a failed read keeps the current theme; a non-empty stored string is adopted unvalidated; otherwise the result is "dark" exactly when the system scheme is "dark" (and "light" for a null scheme), and so always valid |
| `ThemeContext.LoadKeepsValid` | contexts/ThemeContext.tsx:47-60 | from a valid theme, loading gives a valid theme unless storage holds some other non-empty string |
| `ThemeContext.ThemeProvider.LoadTheme` | contexts/ThemeContext.tsx:47-61 | the theme becomes `ThemeAfterLoad` of the old state; `isLoading` is false on every path; storage is not written |
| `ThemeContext.Toggled` | contexts/ThemeContext.tsx:65 | "light" becomes "dark", and every other value becomes "light" |
| `ThemeContext.ToggleTwiceRestores` | contexts/ThemeContext.tsx:65 | from "light" or "dark", toggling changes the theme and toggling twice restores it |
| `ThemeContext.ToggleTwiceNormalizes` | contexts/ThemeContext.tsx:65 | from any other stored string, two toggles give "dark", not the original |
| `ThemeContext.ThemeProvider.ToggleTheme` | contexts/ThemeContext.tsx:63-71 | the in-memory theme is flipped whatever the write does; storage holds the new theme after a successful write and is unchanged after a failed one; `isLoading` is untouched |
| `ThemeContext.LoadAfterToggleRestores` | contexts/ThemeContext.tsx:49-67 | a persisted toggle is what the next successful load adopts, whatever the system scheme |
| `NoteItem.CeilDiv` | components/NoteItem.tsx:31 | the result is the least integer q with a <= q * d |
| `NoteItem.DiffDays` | components/NoteItem.tsx:30-31 | the day count d is the ceiling of the elapsed time in days, (d-1) days < elapsed <= d days, and is zero or below exactly when the timestamp is not in the past |
| `NoteItem.FormatDate` | components/NoteItem.tsx:27-38 | a "days ago" count is never 0 or 1 (those are "Today" and "Yesterday"), only 2..6 or -1 and below; the locale date is the note's own and is used only beyond seven days |
| `NoteItem.FormatDateBuckets` | components/NoteItem.tsx:27-38 | "Today" exactly for 0 < elapsed <= 1 day, "Yesterday" exactly for 1 day < elapsed <= 2 days, the days-ago branch (with 2..6 days) for 2 days < elapsed <= 7 days, and also for elapsed <= 0, the locale date of the note exactly beyond 7 days |
| `NoteItem.NonPositiveElapsedIsNegativeDaysAgo` | components/NoteItem.tsx:31-35 | a timestamp at or after now falls into the days-ago branch with a count of -1 or below, and exactly -1 within one day in the future |
| `NoteItem.Text` | components/NoteItem.tsx:33-37 | the labels read "Today" and "Yesterday"; a days-ago label is the count's decimal numeral (which reads back as the count) followed by " days ago"; the locale label is the locale text |
| `NoteItem.IntToText` | components/NoteItem.tsx:35 | the interpolated number is a canonical decimal numeral (optional minus sign, digits, no leading zero) that reads back as the number, with a minus sign exactly when it is negative |
| `NoteItem.SameInstantText` | components/NoteItem.tsx:33-35 | a note stamped at the current instant is shown as "-1 days ago" |

## Left out

- AsyncStorage I/O and async sequencing. Storage is a class field, a failed read is a `readOk` parameter or a `None` entry, and a failed write is a `writeOk` parameter.
- JSON encoding and decoding. The stored list is held as a value, and a corrupt entry is `None`. A well-formed JSON value that is not a list of notes is not modelled.
- Id generation (`Date.now()` plus `Math.random()`). It is the `freshId` parameter of `SaveNote`. No uniqueness is claimed, because the code does not guarantee it.
- The clock. `now` is a parameter: an ISO string for the store, integer milliseconds for `FormatDate`.
- A partial note whose field is present with the value `undefined`. The model only distinguishes supplied from missing.
- Records in storage that lack `title` or `content`. There, search would throw and fall back to `[]`. The model has only well-formed notes, so the catch branch of `searchNotes` is not modelled.
- `JsStrings.Lower`: only ASCII letters are mapped. Full Unicode case mapping is a runtime library behaviour outside this model.
- `NoteItem.FormatDate`: the day count is the exact rational ceiling. The floating-point division agrees with it for elapsed times below about 2^26 days. Invalid dates (NaN) are not modelled.
- `NoteItem.Text`: `toLocaleDateString()` is the opaque `locale` argument.
- React state updates are applied at once. The stale `theme` a `toggleTheme` closure may capture, overlapping toggles, and lost updates between overlapping store calls are concurrency issues outside this sequential model.
- Rendering, styles, hooks and context plumbing: the `useTheme` guard, the list and editor screens, the search bar, the tab bar and the layout wrappers.
