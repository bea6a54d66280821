# WatchLog in Dafny

WatchLog is a personal log of watched films, series and anime. It has a
dashboard of entries, a statistics panel, a CSV import from Letterboxd
exports and a small social layer: friend requests, a friends page and an
activity feed. The backend is a hosted Postgres database behind Supabase.
A proxy route in the app forwards searches to The Movie Database (TMDB).

This project models the parts of the app that make decisions:

- the CSV import, which covers the quote-aware line splitter, the
  header lookup with its defaults and the enrichment loop;
- the entry list of the dashboard, with its add, update, delete, filter
  and sorts;
- the statistics panel, which covers the category counts, rating
  buckets, top three and platform tally;
- the new-entry form, the edit dialog and the entry card;
- the friendship table and the components that read and write it;
- the sign-up checks, the theme picker and the search proxy route.

One Dafny module per source file:

| module | file | models |
|---|---|---|
| `Optional`, `Seqs`, `JsStrings` | (shared) | nullable values; `filter`/count; `trim`, `split`, `indexOf`, `\|\|` fallbacks with JavaScript semantics |
| `Types` | src/lib/types.ts | the `entries`, `profiles` and `friends` rows, the `search_users` hit, `Partial<Entry>` and its spread |
| `CsvImport` | src/components/ImportModal.tsx | `parseLine` (a loop), `parseCSV`, the enrichment loop of `startImport` |
| `EntryViews` | (shared by the two below) | the average score, a sort by a key |
| `Dashboard` | src/components/Dashboard.tsx | class `Dashboard` with the three list handlers; filter, sorts, totals |
| `Stats` | src/components/StatsDashboard.tsx | counts, buckets, `topRated`, the `platforms` tally (a loop over a map), `topPlatform` |
| `MissionForm` | src/components/MissionForm.tsx | class with the form state; payload and partial reset |
| `EditModal` | src/components/EditModal.tsx | initial form, payload, preview; class with the form state |
| `MissionCard` | src/components/MissionCard.tsx | poster, icon, score, platform and date fallbacks |
| `Friends` | (shared by the friend components) | class `FriendsTable` (insert, status update, delete), pair uniqueness, the other party of a row, profile joins, the display name |
| `AddFriendModal` | src/components/friends/AddFriendModal.tsx | class with search, send and close |
| `FriendRequestCard` | src/components/friends/FriendRequestCard.tsx | class with the accept/reject answer |
| `FriendCard` | src/components/friends/FriendCard.tsx | class with confirm, cancel and unfriend |
| `FriendsPage` | src/app/friends/page.tsx | class with the three lists and the theme; the theme wording table |
| `ActivityFeed` | src/components/friends/ActivityFeed.tsx | class with the feed |
| `Signup` | src/app/auth/signup/page.tsx | class with the form; validation order and default username |
| `ThemeSelector` | src/components/ThemeSelector.tsx | the four themes; class with the guarded selection |
| `TmdbSearch` | src/app/api/tmdb/search/route.ts | the `GET` handler with the upstream reply as an input |

Every backend call is an input: a failure flag, or the data it returned
(`None` for `null`). The `friends` table is an object, `FriendsTable`,
whose methods may fail and are shared by every component that writes it.

The proofs show two things about the source:

- The theme picker offers the id `art_deco`, but the friends page's
  wording table has the key `art-deco`. So if the stored theme is the
  picker's id 'art_deco', the page falls back to the 'cosmos' wording
  (`FriendsPage.PickerIdsAgainstTable`). The picker saves to the
  profile's `theme_id`, while the page reads the browser's
  `watchlog-theme` entry, which no file of the source writes.
- A send keeps one row per pair of users only while the duplicate
  lookup answers. When that lookup fails its data is `null`, so the
  insert goes ahead for a pair that already has a row
  (`AddFriendModal.LookupFailureDuplicates`).

A behaviour of the code that a reader might not expect, modelled as
written:

- `parseCSV` keeps a row whose name field is empty or missing: an empty
  name field gives the title '', and a row with fewer fields than the
  name column gives an `undefined` title (`None` in the model).

## Model

| member | source | states |
|---|---|---|
| Types.ApplyPatch | src/components/Dashboard.tsx:53 | `{ ...e, ...updates }`: for each of the eleven fields, a field present in the patch replaces the entry's own and an absent one keeps it |
| Types.ScoreOrZero | src/components/StatsDashboard.tsx:16 | `score \|\| 0`: the score, or 0 for null |
| Types.PlatformLabel | src/components/StatsDashboard.tsx:31 | `platform \|\| 'Unknown'`: a non-empty platform as itself, 'Unknown' for null or '' |
| JsStrings.TrimSpec | src/components/ImportModal.tsx:18 | `trim()` is a slice of the string that neither starts nor ends with whitespace, and only whitespace was removed |
| JsStrings.TrimEmptyIffBlank | src/components/MissionForm.tsx:21 | a string trims to '' exactly when it is all whitespace |
| JsStrings.SplitOn | src/components/ImportModal.tsx:17 | `split(sep)`: at least one part, no part contains `sep`, the first part is the prefix before the first `sep` |
| JsStrings.JoinSplitOn | src/components/ImportModal.tsx:17 | joining the parts of a split with the separator gives the text back |
| JsStrings.BeforeFirst | src/components/MissionCard.tsx:69 | `split(c)[0]`: the prefix before the first `c`, or the whole string |
| JsStrings.IndexOf | src/components/ImportModal.tsx:39-41 | `indexOf`: -1 exactly when absent, otherwise the first position holding the value |
| JsStrings.ToLower | src/components/ImportModal.tsx:18 | `toLowerCase()` character by character, same length |
| JsStrings.OrElse | src/app/api/tmdb/search/route.ts:10 | `x \|\| d`: the default exactly when the value is null or empty (or is the default) |
| JsStrings.NullIfEmpty | src/components/MissionForm.tsx:29 | `s \|\| null`: null exactly for '' |
| Seqs.FilterSpec | src/components/Dashboard.tsx:65 | `filter`: the result holds only elements that satisfy the test, and every element that does |
| Seqs.FilterAppend | src/components/Dashboard.tsx:65 | filtering distributes over concatenation, so order is kept |
| Seqs.FilterAll | src/components/Dashboard.tsx:71 | a test every element passes keeps the whole list |
| Seqs.FilterNone | src/components/Dashboard.tsx:71 | a test no element passes keeps nothing |
| Seqs.CountSnoc | src/components/StatsDashboard.tsx:17 | a count grows by one exactly when the appended element passes the test |
| CsvImport.PrependTo | src/components/ImportModal.tsx:25-31 | the open field gains text in front; the other fields are unchanged |
| CsvImport.Pieces | src/components/ImportModal.tsx:25-32 | the split from a position on is never empty |
| CsvImport.JoinPieces | src/components/ImportModal.tsx:25-32 | joining the raw pieces with commas gives the scanned text back |
| CsvImport.JoinSplit | src/components/ImportModal.tsx:25-32 | the raw fields of a line, joined with commas, are the line: nothing is lost or reordered |
| CsvImport.PiecesRun | src/components/ImportModal.tsx:25-31 | a run without quotes, and without unquoted commas, only extends the open field |
| CsvImport.PiecesShift | src/components/ImportModal.tsx:25-31 | the split of a suffix does not depend on the text before it, in the same quote state |
| CsvImport.QuotedSplit | src/components/ImportModal.tsx:20-28 | a comma inside a quoted span does not split: `"a, b",rest` gives the quoted field and then the fields of `rest` |
| CsvImport.QuotedFields | src/components/ImportModal.tsx:20-28 | that quoted field, once cleaned, is its inner text trimmed, commas included |
| CsvImport.PlainSplit | src/components/ImportModal.tsx:25-30 | a field without quotes or commas, then a comma, is a field of its own |
| CsvImport.StripQuotesSlice | src/components/ImportModal.tsx:28 | `replace(/^"\|"$/g, '')` removes at most the first and the last character, each only when it is a quote |
| CsvImport.CleanAll | src/components/ImportModal.tsx:28-32 | every raw field is trimmed, unquoted once and trimmed again |
| CsvImport.ParseLine | src/components/ImportModal.tsx:21-34 | the loop returns the cleaned split of the line, with exactly one more field than the line has commas outside quotes |
| CsvImport.FieldAt | src/components/ImportModal.tsx:46-48 | `values[idx]`: undefined for -1 or past the end, otherwise that field |
| CsvImport.Headers | src/components/ImportModal.tsx:18 | the header row lowercased, split on every comma and trimmed |
| CsvImport.MakeRecord | src/components/ImportModal.tsx:45-51 | title from the name column; date from its column, else today; score 0 for a missing or empty rating, else the parsed rating; category 'Movie', platform 'Letterboxd Import', no poster and no catalogue id |
| CsvImport.ParseCsv | src/components/ImportModal.tsx:16-53 | no `name` header gives no records; otherwise one record per non-blank data line, in order, even one without a name |
| CsvImport.ParsedDefaults | src/components/ImportModal.tsx:47-50 | every parsed record has a non-empty date, category 'Movie' and platform 'Letterboxd Import' |
| CsvImport.TopHit | src/components/ImportModal.tsx:94-95 | the first result exactly when the route answered with a non-empty list |
| CsvImport.Enrich | src/components/ImportModal.tsx:94-103 | a top hit overwrites poster, catalogue id and title and keeps a non-empty date; no hit or a failed request leaves the record as it was |
| CsvImport.EnrichRecords | src/components/ImportModal.tsx:79-109 | one output per record, in order, each the record merged with its own answer; one request per record with its title and type 'movie'; the progress reports in sequence |
| CsvImport.StartImport | src/components/ImportModal.tsx:70-110 | nothing without a file; otherwise every parsed record is enriched and handed on |
| CsvImport.EnrichKeepsParsedDate | src/components/ImportModal.tsx:47-99 | enrichment never changes a parsed record's date: the year fallback cannot fire |
| EntryViews.Average | src/components/Dashboard.tsx:85-87 | the average score exists exactly for a non-empty list |
| EntryViews.SumScoresBounds | src/components/StatsDashboard.tsx:16 | with scores in [0, 5] the sum lies between 0 and 5 per entry |
| EntryViews.AverageInRange | src/components/StatsDashboard.tsx:16 | with scores in [0, 5] the average lies in [0, 5] |
| EntryViews.Insert | src/components/Dashboard.tsx:72 | one insertion step of the sort: one more element, the same multiset plus the new one |
| EntryViews.InsertSorted | src/components/Dashboard.tsx:72 | inserting into a sorted list keeps it sorted |
| EntryViews.SortByKey | src/components/Dashboard.tsx:72-81 | `sort` by a subtracted key: a permutation of the input, sorted by the key |
| EntryViews.DescendingScores | src/components/StatsDashboard.tsx:26 | sorted by `(b.score \|\| 0) - (a.score \|\| 0)`, scores never increase |
| Dashboard.UpdateById | src/components/Dashboard.tsx:53 | entries with the id take the updates; every other entry and the order stay |
| Dashboard.DeleteByIdSpec | src/components/Dashboard.tsx:65 | no entry with the id is left, and every other entry is kept |
| Dashboard.DeleteByIdAppend | src/components/Dashboard.tsx:65 | the delete keeps the remaining entries in their order |
| Dashboard.DeleteAbsent | src/components/Dashboard.tsx:65 | deleting an id that is not there changes nothing |
| Dashboard.UpdateKeepsIds | src/components/Dashboard.tsx:53 | an update without an id field keeps every id, so the same entries stay addressable |
| Dashboard.FilterByCategorySpec | src/components/Dashboard.tsx:71 | 'All' keeps every entry; any other filter keeps exactly the entries of that category, in order |
| Dashboard.FilteredElements | src/components/Dashboard.tsx:71 | an entry is kept exactly when it is in the list and passes the category test |
| Dashboard.Displayed | src/components/Dashboard.tsx:70-81 | `filteredEntries`: exactly the entries the filter keeps, sorted by the chosen key |
| Dashboard.DateArgument | src/components/Dashboard.tsx:74-79 | `date_finished \|\| 0`: a date is used exactly when it is non-empty |
| Dashboard.DisplayedIsPermutation | src/components/Dashboard.tsx:70-81 | the displayed list is a permutation of the filtered list |
| Dashboard.RatingHighOrder | src/components/Dashboard.tsx:75 | 'rating-high' shows non-increasing scores, null counted as 0 |
| Dashboard.RatingLowOrder | src/components/Dashboard.tsx:76 | 'rating-low' shows non-decreasing scores, null counted as 0 |
| Dashboard.Dashboard.constructor | src/components/Dashboard.tsx:20-25 | the page's entries, nothing being edited, filter 'All', sort 'newest' |
| Dashboard.Dashboard.AddEntry | src/components/Dashboard.tsx:34-44 | the returned row goes to the front; no row, no change |
| Dashboard.Dashboard.UpdateEntry | src/components/Dashboard.tsx:46-56 | on success the entries with the id are merged and editing ends; on error nothing changes |
| Dashboard.Dashboard.DeleteEntry | src/components/Dashboard.tsx:58-67 | on success the entries with the id are removed; on error nothing changes |
| Dashboard.Dashboard.StartEditing | src/components/Dashboard.tsx:183-204 | only the entry being edited changes |
| Dashboard.Dashboard.ChooseView | src/components/Dashboard.tsx:22-23 | only the filter and the sort change |
| Dashboard.Dashboard.TotalEntries | src/components/Dashboard.tsx:84 | `totalEntries` is the number of entries |
| Dashboard.Dashboard.AvgRating | src/components/Dashboard.tsx:85-87 | no average (shown '0.0') exactly for an empty list |
| Stats.CategoryCounts | src/components/StatsDashboard.tsx:17-19 | movies + series + anime is at most the total, and equals it exactly when every category is one of the three |
| Stats.BucketsPartition | src/components/StatsDashboard.tsx:21-24 | with no score above 5 the four rating buckets add up to the total |
| Stats.BucketsDisjoint | src/components/StatsDashboard.tsx:21-24 | no entry is in two buckets |
| Stats.TopRated | src/components/StatsDashboard.tsx:26 | `topRated` has min(3, total) entries |
| Stats.TopRatedSpec | src/components/StatsDashboard.tsx:26 | the top entries come from the list, best first, and no entry left out scores higher than the last one shown |
| Stats.TopRatedOrdered | src/components/StatsDashboard.tsx:26 | the top entries are in non-increasing score order |
| Stats.TopRatedOmitted | src/components/StatsDashboard.tsx:26 | an entry left out of the top scores no higher than the last one shown |
| Stats.TopRatedSplit | src/components/StatsDashboard.tsx:26 | the list's entries are the top ones plus the rest of the sorted copy |
| Stats.Summarize | src/components/StatsDashboard.tsx:12-26 | an empty list renders nothing; otherwise the total and the average |
| Stats.SummaryTotals | src/components/StatsDashboard.tsx:15-26 | the panel's figures add up: categories at most the total, buckets exactly the total, min(3, total) top entries |
| Stats.OccurrencesIsCount | src/components/StatsDashboard.tsx:30-32 | the tally's count of a label is the number of entries shown under it |
| Stats.NoDuplicatesDistinct | src/components/StatsDashboard.tsx:34 | a list without duplicates has pairwise distinct elements |
| Stats.PlatformOrder | src/components/StatsDashboard.tsx:29-33 | the object's keys in insertion order hold no label twice |
| Stats.PlatformOrderKeys | src/components/StatsDashboard.tsx:29-33 | the keys are exactly the labels that occur |
| Stats.SumOverBump | src/components/StatsDashboard.tsx:32 | bumping one count raises the sum by one when the label is a key |
| Stats.SumOverFresh | src/components/StatsDashboard.tsx:32 | setting the count of a label that is not a key leaves the sum alone |
| Stats.PlatformTally | src/components/StatsDashboard.tsx:29-33 | the loop's keys, in order, are the labels in order of first appearance, each count is that label's number of entries, and the counts add up to the total |
| Stats.TopPlatform | src/components/StatsDashboard.tsx:34 | the first key with a maximal count; none exactly when there are no keys |
| Stats.LabelOccurs | src/components/StatsDashboard.tsx:31 | the label of every entry occurs in the tally |
| Stats.TopPlatformOf | src/components/StatsDashboard.tsx:29-34 | a leader exists exactly when there are entries, and no label has more entries than it |
| MissionForm.Payload | src/components/MissionForm.tsx:26-35 | untrimmed title, category, score and date as typed; empty platform or poster URL as null; never a custom poster or catalogue id |
| MissionForm.MissionForm.constructor | src/components/MissionForm.tsx:11-17 | empty fields, category 'Movie', score 0, today's date |
| MissionForm.MissionForm.Fill | src/components/MissionForm.tsx:11-16 | the inputs as typed |
| MissionForm.MissionForm.Submit | src/components/MissionForm.tsx:19-43 | a blank title submits nothing and changes nothing; otherwise the payload of the fields, then title, platform, score and poster URL cleared while category and date stay |
| MissionForm.BlankTitleRefused | src/components/MissionForm.tsx:21 | a title of blanks only is refused |
| MissionForm.VisibleTitleAccepted | src/components/MissionForm.tsx:21 | a title with a visible character is accepted |
| EditModal.EmptyIfNull | src/components/EditModal.tsx:15-18 | `x \|\| ''`: '' exactly for null or '' |
| EditModal.DatePart | src/components/EditModal.tsx:17 | the date before its 'T', or '' for null |
| EditModal.InitialForm | src/components/EditModal.tsx:13-18 | title and category as stored; platform and custom poster as stored, or '' for null; a null score as 0; the date part before the first 'T' |
| EditModal.EditPayload | src/components/EditModal.tsx:25-32 | title, category and score pass through; an empty platform, date or custom poster becomes null and a non-empty one is sent as itself; id, owner, poster URL, catalogue id and creation time are never sent |
| EditModal.Normalized | src/components/EditModal.tsx:28-31 | an empty string read as null |
| EditModal.SaveWithoutEdits | src/components/EditModal.tsx:13-32 | saving without edits gives the entry back with a null score as 0, the date cut at 'T' and empty strings as null |
| EditModal.SaveWithoutEditsIsIdentity | src/components/EditModal.tsx:13-32 | so an entry with a score, no empty strings and a date without time is saved unchanged |
| EditModal.EditModal.CurrentPreview | src/components/EditModal.tsx:138-142 | the current form's preview: none when the field and the catalogue poster are empty, otherwise the field first |
| EditModal.PreviewOf | src/components/EditModal.tsx:138-148 | a preview exactly when the custom poster or the catalogue poster is non-empty, the custom one first; the caption says 'Custom poster' exactly when it is shown |
| EditModal.EditModal.constructor | src/components/EditModal.tsx:13-19 | the form starts from the entry |
| EditModal.EditModal.Edit | src/components/EditModal.tsx:13-18 | the form as edited |
| EditModal.EditModal.Submit | src/components/EditModal.tsx:21-35 | the payload of the current form; `loading` ends false |
| MissionCard.CategoryIcon | src/components/MissionCard.tsx:12-33 | the three fixed icons, and the fallback icon exactly for any other category |
| MissionCard.CardPoster | src/components/MissionCard.tsx:18-24 | a non-empty custom poster first, else a non-empty catalogue poster, else none (the icon) |
| MissionCard.DateText | src/components/MissionCard.tsx:69 | the text before the first 'T' when that is non-empty, otherwise 'N/A' |
| MissionCard.CardOf | src/components/MissionCard.tsx:18-69 | poster, icon, platform and date lines are the card's fallback rules; the score badge 0 for null |
| MissionCard.PlainDateShown | src/components/MissionCard.tsx:69 | a date without a time part is shown as stored |
| MissionCard.TimestampDateShown | src/components/MissionCard.tsx:69 | a time stamp `date` + "T" + time shows exactly `date` |
| Friends.SetStatusById | src/components/friends/FriendRequestCard.tsx:20-26 | rows with the id take the status and time; every other row stays |
| Friends.DeleteRowByIdSpec | src/components/friends/FriendCard.tsx:23-26 | no row with the id is left, and every other row is kept |
| Friends.SamePairsKeepUnique | src/components/friends/AddFriendModal.tsx:60-82 | rows with the same pairs, position by position, keep one row per pair |
| Friends.SetStatusKeepsUnique | src/components/friends/FriendRequestCard.tsx:20-26 | a status change keeps one row per pair |
| Friends.FilterKeepsUnique | src/components/friends/FriendCard.tsx:23-26 | dropping rows keeps one row per pair |
| Friends.DeleteKeepsUnique | src/components/friends/FriendCard.tsx:23-26 | a delete keeps one row per pair |
| Friends.AppendKeepsUnique | src/components/friends/AddFriendModal.tsx:76-82 | inserting a row for a pair without one keeps one row per pair |
| Friends.AtMostOneOnPair | src/components/friends/AddFriendModal.tsx:60-64 | with one row per pair, at most one row matches the two-way lookup |
| Friends.Single | src/components/friends/AddFriendModal.tsx:60-64 | `.single()`: a found row is in the table and joins the two users |
| Friends.SingleFindsPair | src/components/friends/AddFriendModal.tsx:60-66 | with one row per pair, the lookup finds nothing exactly when no row joins the two users |
| Friends.OtherParty | src/app/friends/page.tsx:67 | `user_id === me ? friend_id : user_id`: one of the row's users, the friend when I sent it |
| Friends.OtherPartyOfLink | src/app/friends/page.tsx:66-68 | of a row joining me and x, the other party is x |
| Friends.FriendIds | src/app/friends/page.tsx:66-68 | one id per row, in row order, the other party of each |
| Friends.FriendIdsAreOthers | src/components/friends/ActivityFeed.tsx:41-43 | each friend id is the user the row joins me to |
| Friends.AcceptedRowsSpec | src/app/friends/page.tsx:58-62 | the accepted rows are exactly my accepted friendships, in either direction |
| Friends.FindProfile | src/app/friends/page.tsx:80 | `find`: none exactly when no profile has the id (or there are none), otherwise the first profile with it |
| Friends.AttachSpec | src/app/friends/page.tsx:76-82 | one joined item per row, in order, with the profile whose id is the row's key, or none exactly when no profile has it |
| Friends.DisplayName | src/components/friends/FriendRequestCard.tsx:37 | display name, else username, else 'Unknown User'; never empty |
| Friends.AvatarLetter | src/components/friends/FriendCard.tsx:48 | the first character uppercased, one letter exactly for a non-empty name |
| Friends.AvatarOfDisplayName | src/components/friends/FriendCard.tsx:38-48 | a card's avatar always has exactly one letter |
| Friends.FriendsTable.constructor | src/lib/types.ts:72-80 | the table's rows |
| Friends.FriendsTable.Insert | src/components/friends/AddFriendModal.tsx:76-84 | the row is appended unless the insert fails |
| Friends.FriendsTable.SetStatus | src/components/friends/FriendRequestCard.tsx:20-28 | the status update by id, unless it fails |
| Friends.FriendsTable.Delete | src/components/friends/FriendCard.tsx:23-28 | the delete by id, unless it fails |
| AddFriendModal.WithoutId | src/components/friends/AddFriendModal.tsx:45-90 | no hit has the id, and every other hit is kept |
| AddFriendModal.ExistingMessage | src/components/friends/AddFriendModal.tsx:66-71 | 'Already friends!' for accepted, 'Friend request already pending' for pending, none for rejected |
| AddFriendModal.Existing | src/components/friends/AddFriendModal.tsx:60-66 | the found row is in the table and joins the pair; a failed lookup finds nothing |
| AddFriendModal.SendRows | src/components/friends/AddFriendModal.tsx:60-84 | the table gains the new row exactly when no row was found and the insert succeeded, and is unchanged otherwise |
| AddFriendModal.SendKeepsPairsUnique | src/components/friends/AddFriendModal.tsx:60-82 | with the lookup answering, a send keeps one row per pair and inserts exactly when no row joins the two users |
| AddFriendModal.LookupFailureDuplicates | src/components/friends/AddFriendModal.tsx:60-66 | when the lookup fails, a pair that already has a row gets a second one |
| AddFriendModal.PrefixUnique | src/components/friends/AddFriendModal.tsx:60-82 | every suffix of a table with one row per pair has one row per pair |
| AddFriendModal.AddFriendModal.constructor | src/components/friends/AddFriendModal.tsx:15-20 | empty query and results, nothing loading, sending or shown |
| AddFriendModal.AddFriendModal.SetQuery | src/components/friends/AddFriendModal.tsx:15 | only the query changes |
| AddFriendModal.AddFriendModal.Search | src/components/friends/AddFriendModal.tsx:32-52 | a query under 2 characters does nothing; an error keeps the results and shows its message; data replaces the results without the current user; never lists the current user |
| AddFriendModal.AddFriendModal.Send | src/components/friends/AddFriendModal.tsx:54-96 | a found row sets its status's message and inserts nothing; otherwise one pending row from me to the target; on success the message is set, the target leaves the results and the callback runs; `sending` ends null |
| AddFriendModal.AddFriendModal.Close | src/components/friends/AddFriendModal.tsx:23-30 | query, results, error and success cleared |
| FriendRequestCard.FriendRequestCard.constructor | src/components/friends/FriendRequestCard.tsx:12-13 | the request and its sender, not loading |
| FriendRequestCard.FriendRequestCard.Respond | src/components/friends/FriendRequestCard.tsx:16-35 | only accepted or rejected is written, to the rows with the request's id; the callback runs exactly on success; `loading` ends false |
| FriendRequestCard.FriendRequestCard.Avatar | src/components/friends/FriendRequestCard.tsx:37-44 | one letter, the first of the shown name uppercased |
| FriendRequestCard.RespondTouchesOneRow | src/components/friends/FriendRequestCard.tsx:20-26 | an answer changes only the rows with the request's id, and keeps one row per pair |
| FriendCard.FriendCard.constructor | src/components/friends/FriendCard.tsx:14-16 | not loading, no confirmation shown |
| FriendCard.FriendCard.AskToConfirm | src/components/friends/FriendCard.tsx:85-91 | the ✕ button shows the confirmation |
| FriendCard.FriendCard.Cancel | src/components/friends/FriendCard.tsx:77-82 | Cancel hides it |
| FriendCard.FriendCard.Unfriend | src/components/friends/FriendCard.tsx:19-76 | reachable only from the confirmation; deletes the friendship's row; the callback runs exactly on success; ends not loading, confirmation hidden |
| FriendCard.FriendCard.Avatar | src/components/friends/FriendCard.tsx:38-48 | one letter, the first of the shown name uppercased |
| FriendCard.UnfriendRemovesOneRow | src/components/friends/FriendCard.tsx:23-26 | unfriending removes the friendship's row, keeps every other row, and keeps one row per pair |
| FriendsPage.SavedTheme | src/app/friends/page.tsx:38 | a non-empty stored theme as itself, 'cosmos' for none or '' |
| FriendsPage.FriendsPage.Content | src/app/friends/page.tsx:34 | `themeContent`: the current theme's own wording, or that of 'cosmos' when the table has no such key |
| FriendsPage.ContentFor | src/app/friends/page.tsx:34 | always one of the table's wordings |
| FriendsPage.ContentFallback | src/app/friends/page.tsx:34 | a key selects its own wording, anything else the wording of 'cosmos' |
| FriendsPage.PickerIdsAgainstTable | src/lib/constants.ts:19 | the picker's 'art_deco' is not a key, so it gets the 'cosmos' wording; every other picker id is a key |
| FriendsPage.SenderIds | src/app/friends/page.tsx:95 | one sender id per request, in order |
| FriendsPage.RecipientIds | src/app/friends/page.tsx:118 | one recipient id per request, in order |
| FriendsPage.RequestsSpec | src/app/friends/page.tsx:88-115 | incoming requests are exactly the pending rows addressed to me; outgoing ones exactly the pending rows I sent |
| FriendsPage.FriendsGetFriendProfiles | src/app/friends/page.tsx:76-82 | each accepted row keeps its place and gets the profile of the friend on its other side, or none when no profile has that id |
| FriendsPage.FriendsPage.constructor | src/app/friends/page.tsx:24-29 | empty lists, loading, theme 'cosmos' |
| FriendsPage.FriendsPage.LoadTheme | src/app/friends/page.tsx:36-41 | the stored theme, or 'cosmos' |
| FriendsPage.FriendsPage.LoadFriendsData | src/app/friends/page.tsx:53-137 | each list is replaced by its join only when its query answered and its id list is non-empty, otherwise it keeps its old value; `loading` ends false |
| ActivityFeed.FeedOf | src/components/friends/ActivityFeed.tsx:29-71 | empty without accepted friendships or without entries; otherwise one item per entry, in order, with the profile of its owner or none |
| ActivityFeed.ActivityFeed.constructor | src/components/friends/ActivityFeed.tsx:16-17 | empty feed, loading |
| ActivityFeed.ActivityFeed.LoadFeed | src/components/friends/ActivityFeed.tsx:24-78 | no user changes nothing; otherwise the feed of the run and `loading` false |
| Signup.Validate | src/app/auth/signup/page.tsx:24-34 | no error exactly for equal passwords of at least 6 characters; a mismatch is reported before the length |
| Signup.MismatchReportedFirst | src/app/auth/signup/page.tsx:24-34 | a short pair that also differs reports the mismatch |
| Signup.DefaultUsername | src/app/auth/signup/page.tsx:41-53 | the typed username, or the email up to its first '@' |
| Signup.UsernameFromEmail | src/app/auth/signup/page.tsx:41 | with no username, an email `local@domain` gives `local` |
| Signup.SignUpPage.constructor | src/app/auth/signup/page.tsx:9-15 | empty form, no error, not loading |
| Signup.SignUpPage.Fill | src/app/auth/signup/page.tsx:9-12 | the inputs as typed |
| Signup.SignUpPage.SignUp | src/app/auth/signup/page.tsx:19-60 | a failed check shows its message and calls nothing; otherwise the request with the default username is sent; an auth error is shown; a returned user gets a profile with that username and theme 'cosmos' |
| ThemeSelector.ThemesDistinct | src/components/ThemeSelector.tsx:12-17 | four themes with distinct ids |
| ThemeSelector.ThemeSelector.constructor | src/components/ThemeSelector.tsx:19-20 | not updating |
| ThemeSelector.ThemeSelector.Select | src/components/ThemeSelector.tsx:23-42 | the current theme or a pending save does nothing; otherwise the parent is told first and then the save is sent, and `updating` ends false whatever the save did |
| TmdbSearch.SearchType | src/app/api/tmdb/search/route.ts:10 | 'tv' exactly when the parameter is 'tv' |
| TmdbSearch.Endpoint | src/app/api/tmdb/search/route.ts:22 | TV search exactly for 'tv', movie search otherwise |
| TmdbSearch.Overview | src/app/api/tmdb/search/route.ts:37 | the first 150 characters plus '...', or 'undefined...' without an overview |
| TmdbSearch.ShapeItem | src/app/api/tmdb/search/route.ts:33-37 | id kept; title from `name` for tv, else `title`; year the date before its first '-', or ''; poster URL the image base plus the path when there is one; overview cut to 150 characters plus '...' |
| TmdbSearch.ShapeResults | src/app/api/tmdb/search/route.ts:32 | at most five hits, in upstream order |
| TmdbSearch.Search | src/app/api/tmdb/search/route.ts:7-45 | 400 exactly for a missing or empty query; 500 without a key; 200 with the shaped results exactly when the upstream answered OK with a results list; an upstream failure gives its status message or 'TMDB API error', a throw its message or 'Search failed', a body without results the TypeError's message |

## Left out

- Supabase itself: authentication, queries, row-level security and the ordering and limit done by the server (the feed's 50 newest entries). Each answer is an input: the data, null, or a failure flag.
- The order of rows in the `friends` table as the server returns them: the model keeps the order in which they were inserted.
- I/O and time: `FileReader`, `fetch`, the 200 ms pause between lookups, `setTimeout` before the sign-up redirect, router navigation and `localStorage`. The clock's date, the file's text and the stored theme are parameters.
- CsvImport.MakeRecord: `parseFloat` is a parameter, so a rating that is not a number (NaN in the app) is whatever that parameter returns.
- Number formatting: `toFixed(1)` of the averages, star counts and bar widths. The averages are exact reals.
- Dashboard.Displayed: the 'newest', 'oldest' and title sorts use `Date` parsing and `localeCompare`, given as the parameters `time` and `collate`. The model sorts by a key, so for those sorts it proves the order by the key, the filter and the permutation, not the date or locale order itself; the two score orders are proved outright.
- EntryViews.SortByKey: an insertion sort stands for the engine's `sort`. Only its result (a sorted permutation) is stated; stability and the order of ties are not.
- Stats.PlatformTally: JavaScript lists integer-like keys of an object before the others. The model keeps every key in insertion order, which matters only for which of two tied leaders `topPlatform` shows.
- Lookups through the object prototype (`categoryIcons['constructor']`, `THEME_CONTENT['toString']`): the model treats every such key as absent.
- JavaScript strings are UTF-16. The model's lengths count characters, and `trim` and `toLowerCase`/`toUpperCase` cover the whitespace and letters listed in `JsStrings`. Full Unicode case mapping is not modelled.
- `encodeURIComponent` of the search query: a request is modelled as the query text and the type.
- The import preview (`handleFileChange`), which shows the first five parsed records: it is `parseCSV` again, sliced.
- The category badge on a card, `categoryIcons[entry.category]` with no fallback, renders as nothing for other categories and is not modelled.
- `themeContent.friendsHeader` and `themeContent.addFriend`, read by the friends page, are not keys of any theme in the table. Rendering them is not modelled.
- Exceptions other than backend errors: Supabase returns its errors rather than throwing. A failed `fetch` in the import is a `Lookup` of its own.
- Concurrency: every handler runs as one step, so a second click while a save or request is still pending is not modelled. The in-flight guards on `updating`, `loading` and `sending` (such as ThemeSelector.tsx:24) are stated but never meet a pending call, and two sends racing past the duplicate lookup are not modelled either. The one-row-per-pair proofs assume sends run one after another.
- Rendering, styling, the login page, the landing page and the server-side dashboard page.
