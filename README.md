# PixelTrack, modelled in Dafny

PixelTrack is an email open-tracking dashboard. The dashboard creates one
record per tracking pixel and hands out an HTML snippet that embeds it. A
mail client loads the pixel from a tracking endpoint, and the endpoint marks
the record as opened. The dashboard lists, edits, deletes and counts the
records. Everything revolves around one table, `tracked_emails`.

This project models that table and every operation that reads or writes it:

- `types.dfy` (module `Types`): the `TrackedEmail` and `Stats` shapes of
  `types.ts`. `status` is a two-constructor datatype, so it is always `sent`
  or `opened`. `openedAt` is optional and `createdAt` is not. The record
  carries both the server `id` and the client `trackingId`. The invariant
  `OpenedIffStamped` says that `status == opened` holds exactly when
  `openedAt` is set.
- `database.dfy` (module `Database`): the table as a class `Table` whose
  `rows` every INSERT, UPDATE and DELETE replaces. `Valid()` is the schema
  shown in `pages/Dashboard.tsx`: `id` is the primary key and `tracking_id`
  is UNIQUE. The CHECK on `status` is the `Status` type. Inserts are refused
  as Postgres refuses them.
- `storage.dfy` (module `Storage`): `services/storageService.ts`, meaning
  row mapping, `getEmails`, `saveEmail`, `updateEmail`, `markAsOpened`,
  `deleteEmail` and `getStats`.
- `track.dfy` (module `Track`): the `serve` handler of the tracking
  endpoint and its three fixed responses.
- `email_list.dfy` (module `EmailList`): the list page's state, its
  optimistic updates, its reload on failure and its search filter.
- `tracker_generator.dfy` (module `TrackerGenerator`): the new-record
  defaults, the saved record, the failure path and the pixel snippet.
- `seqs.dfy` and `wrappers.dfy`: `filter`/`map` over sequences with their
  lemmas, and `Option`/`Result`.

Inputs stand in for the outside world:

- Every database call takes `fault: Option<DbError>`, the error the hosted
  service may answer with.
- Clocks are `now` parameters. There are two of them where the code reads
  the clock twice.
- The fresh tracking id and the database-assigned `id` are parameters.
- The AI suggestion text is a parameter.

Timestamps are modelled as instants (`Time = nat`), not ISO strings.

Some behaviours of the code are worth stating outright:

- A request without `id`, or with an empty one, gets a 400 JSON answer
  (supabase/functions/track/index.ts:27-35). Every other GET gets the
  pixel, including after a failed select, a missing row or a failed update
  (index.ts:46-49, 80, 84). Only an `OPTIONS` preflight gets an empty 200.
- The pixel bytes at index.ts:91-96 do not make a transparent image, though
  the comments at index.ts:80 and 89 say they do. `PixelResponse` sends
  those bytes as written (`PixelIsOpaqueWhite`); the one-byte correction is
  `TransparentPixel` (see "## Findings").
- The endpoint's update is filtered by `id` only and is not a
  compare-and-swap. The model therefore treats one request at a time.
- `markAsOpened` overwrites `openedAt` on a record that is already opened.
  `MarkAsOpenedOverwrites` states this. Only the endpoint is first-open-wins
  (`OpenTransitionIdempotent`).
- The optimistic edit writes empty strings into the local list, but
  `updateEmail` skips empty fields. The list and the table then disagree
  (`EditDiverges`). With both fields non-empty they agree (`EditAgrees`).

## Model

| member | source | states |
|---|---|---|
| `Database.OpenPatch` | supabase/functions/track/index.ts:61-64 | the open update sets exactly `status = opened` and `opened_at = now`, nothing else |
| `Database.ApplyPatch` | services/storageService.ts:54-57 | an UPDATE never changes `id`, `tracking_id` or `created_at`; the empty update changes nothing |
| `Database.InsertError` | pages/Dashboard.tsx:108-116 | an insert succeeds iff the service reports no fault and neither the `tracking_id` nor the `id` is taken; a successful insert keeps both keys unique |
| `Database.UpdateWhereId` | services/storageService.ts:54-57 | exactly the rows whose `id` matches get the patch; every other row and the row count stay as they were |
| `Database.DeleteWhereId` | services/storageService.ts:78-82 | no remaining row has the deleted id, and every remaining row was in the table |
| `Database.UpdateKeepsKeys` | pages/Dashboard.tsx:109-110 | updates keep `id` and `tracking_id` unique |
| `Database.UpdateKeepsStamp` | services/storageService.ts:65-67 | an update that sets status and `opened_at` consistently, or touches neither, keeps every row's opened ⇔ `opened_at` invariant |
| `Database.EmptyUpdateIsNoOp` | services/storageService.ts:50-57 | an update with no fields leaves the table unchanged |
| `Database.DeleteKeepsKeys` | pages/Dashboard.tsx:109-110 | deleting keeps both keys unique |
| `Database.DeleteKeepsStamp` | services/storageService.ts:78-82 | deleting keeps the opened ⇔ `opened_at` invariant of the rows that remain |
| `Database.DeleteSpec` | services/storageService.ts:78-82 | a row survives a delete iff it was there and has another id, and the survivors keep their order |
| `Database.Lookup` | supabase/functions/track/index.ts:40-44 | the lookup returns a table row carrying the tracking id, or none when no row carries it |
| `Database.LookupUnique` | supabase/functions/track/index.ts:40-44 | with a unique `tracking_id`, the lookup returns the one row carrying it |
| `Database.Table.SelectAll` | services/storageService.ts:16-19 | a select yields all rows, or the service's error |
| `Database.Table.FindByTrackingId` | supabase/functions/track/index.ts:40-44 | the endpoint's select yields the lookup result, or the service's error |
| `Database.Table.Insert` | services/storageService.ts:31-40 | the row is appended iff `InsertError` is none; keys stay unique; a consistent row keeps the table consistent |
| `Database.Table.Update` | services/storageService.ts:54-57 | without a fault the rows become `UpdateWhereId`; with one they are unchanged; keys stay unique |
| `Database.Table.Delete` | services/storageService.ts:79-82 | without a fault the rows become `DeleteWhereId`; with one they are unchanged; keys stay unique |
| `Storage.MapToTrackedEmail` | services/storageService.ts:5-13 | each column goes to its field unchanged: inserting the mapped record under the row's id gives back the same row |
| `Storage.InsertedRow` | services/storageService.ts:33-40 | the inserted row carries the database-assigned id and the record's tracking id |
| `Storage.SavedReadsBack` | services/storageService.ts:29-40 | a saved record reads back as itself, except for the id the database assigned |
| `Storage.InsertNewestFirst` | services/storageService.ts:19 | inserting into a newest-first list keeps it newest-first and adds exactly one element |
| `Storage.SortNewestFirst` | services/storageService.ts:19 | the result is ordered by `createdAt` descending and is a permutation of the input |
| `Storage.GetEmails` | services/storageService.ts:15-27 | returns `[]` on error; otherwise every row, mapped, newest first |
| `Storage.ErrorText` | services/storageService.ts:44 | the reported message is the error's message when that is non-empty, and exactly 'Unknown database error' when it is empty |
| `Storage.SaveEmail` | services/storageService.ts:29-47 | success iff the insert is accepted, and the table then gains exactly the inserted row; on failure the error text is returned and the table is unchanged |
| `Storage.EditPatch` | services/storageService.ts:50-52 | the update carries `recipient` and `subject` only when present and non-empty, and never status or `opened_at` |
| `Storage.UpdateEmail` | services/storageService.ts:49-60 | the table becomes the edit applied to the row with that id, or stays unchanged on a fault; the invariant is kept |
| `Storage.EditOnlyTouchesText` | services/storageService.ts:49-57 | after an edit, every row keeps its ids, status and timestamps, and only the edited row's non-empty text fields change |
| `Storage.EmptyEditIsNoOp` | services/storageService.ts:50-57 | an edit with no non-empty text field changes nothing |
| `Storage.MarkAsOpened` | services/storageService.ts:62-76 | sets `opened` and `opened_at = now` on the row with that id without checking its status; returns none on success, the error message otherwise |
| `Storage.MarkAsOpenedOverwrites` | services/storageService.ts:62-69 | on an already opened row, `markAsOpened` replaces `opened_at` with the new time |
| `Storage.DeleteEmail` | services/storageService.ts:78-85 | the table loses exactly the rows with that id, or is unchanged on a fault |
| `Storage.OpenRate` | services/storageService.ts:104 | 0 when nothing was sent; otherwise the integer nearest to 100·opened/sent, halves up; always within 0..100 |
| `Storage.StatsOf` | services/storageService.ts:97-105 | `totalSent` is the row count and `totalOpened` is the count of opened rows, so `totalOpened ≤ totalSent`; `openRate` is `OpenRate(totalOpened, totalSent)`, the percentage rounded half-up, within 0..100 and 0 on an empty table |
| `Storage.GetStats` | services/storageService.ts:87-106 | all zeros when the service fails; otherwise the fold over the rows |
| `Storage.StatsOfEmpty` | services/storageService.ts:98-104 | no records give `{0, 0, 0}` |
| `Storage.StatsOfFourOneOpened` | services/storageService.ts:98-104 | four records with one opened give `{4, 1, 25}` |
| `Track.GifLayout` | supabase/functions/track/index.ts:91-96 | the 43 bytes are the signature, screen descriptor, colour table, graphic control extension, image descriptor, image data and trailer at their fixed offsets |
| `Track.PixelIsOpaqueWhite` | supabase/functions/track/index.ts:91-96 | the bytes as written draw colour index 0 (white) while the transparent index is 1, so the pixel is not transparent |
| `Track.TransparentPixelIsTransparent` | supabase/functions/track/index.ts:80-96 | with transparent index 0 the image draws its one pixel in the transparent colour; it differs from the written bytes only at offset 25 |
| `Track.PixelResponse` | supabase/functions/track/index.ts:90-105 | status 200; a 43-byte body that starts with the GIF89a signature, is exactly the written `Pixel` (GIF89a signature, a 1×1 screen, trailer `3b`), which does not show a transparent pixel; `image/gif`; no-store/no-cache; any origin |
| `Track.PreflightResponse` | supabase/functions/track/index.ts:12-19 | status 200, empty body, `Allow-Methods: GET, OPTIONS` |
| `Track.MissingIdResponse` | supabase/functions/track/index.ts:28-34 | status 400 with the JSON error body `{"error":"Missing tracking ID"}` |
| `Track.OpenTransition` | supabase/functions/track/index.ts:40-78 | the row count is kept; an unknown tracking id leaves the table unchanged |
| `Track.Serve` | supabase/functions/track/index.ts:9-87 | OPTIONS gives the preflight answer and a missing or empty id gives 400, both with the table unchanged; every other request gives the pixel; the table changes only when both database calls succeed, and then by the open transition |
| `Track.OpenTransitionOpens` | supabase/functions/track/index.ts:58-65 | a `sent` row becomes `opened` with `opened_at = now`, and no other row is written |
| `Track.OpenTransitionKeepsOpened` | supabase/functions/track/index.ts:74-78 | an already opened row is never written again |
| `Track.OpenTransitionIdempotent` | supabase/functions/track/index.ts:58-78 | a second pixel load for the same id, at any time, leaves the table as the first left it (first open wins) |
| `Track.OpenTransitionKeepsInvariants` | supabase/functions/track/index.ts:59-65 | the transition keeps both keys unique and keeps the opened ⇔ `opened_at` invariant |
| `Track.ServeTwice` | supabase/functions/track/index.ts:57-81 | two served loads for one id both answer with the pixel and leave the table as the first did |
| `Seqs.Filter` | pages/EmailList.tsx:43 | the filter is no longer than its input and keeps only elements of the input that pass the test |
| `Seqs.FilterKeeps` | pages/EmailList.tsx:43 | every element that passes the test survives |
| `Seqs.FilterMembership` | pages/EmailList.tsx:85-88 | an element survives iff it is in the input and passes the test |
| `Seqs.FilterIsSubsequence` | pages/EmailList.tsx:85-88 | the filter keeps the original order |
| `Seqs.FilterAll` | pages/EmailList.tsx:85-88 | a test that every element passes keeps the whole list |
| `Seqs.FilterMap` | services/storageService.ts:26 | mapping rows to records commutes with filtering by a test that reads through the mapping |
| `Seqs.MapWhere` | pages/EmailList.tsx:51-53 | same length; selected entries rewritten, all others unchanged |
| `EmailList.RemoveById` | pages/EmailList.tsx:43 | no remaining entry has the deleted id, and each remaining entry was in the list |
| `EmailList.RemoveByIdKeepsOthers` | pages/EmailList.tsx:41-43 | an entry stays iff its id differs, and the remaining entries keep their order |
| `EmailList.OpenById` | pages/EmailList.tsx:50-53 | same length; matching entries become opened at `now`; all others are unchanged; the opened ⇔ `openedAt` invariant is kept |
| `EmailList.EditById` | pages/EmailList.tsx:77-79 | same length; matching entries take the form's recipient and subject and keep their other fields; all others are unchanged |
| `EmailList.FormUpdates` | pages/EmailList.tsx:82 | `saveEditing` sends exactly the form's recipient and subject |
| `EmailList.DeleteAgrees` | pages/EmailList.tsx:43-44 | the optimistic delete shows exactly what the table's delete leaves |
| `EmailList.OpenAgrees` | pages/EmailList.tsx:51-56 | the optimistic open shows exactly what `markAsOpened` writes, given the same clock value |
| `EmailList.EditAgrees` | pages/EmailList.tsx:77-82 | with both fields non-empty, the optimistic edit shows exactly what `updateEmail` writes |
| `EmailList.EditDiverges` | pages/EmailList.tsx:77-82 | with an empty recipient, the list shows an empty recipient while the table keeps the old one |
| `EmailList.LowerChar` | pages/EmailList.tsx:86 | ASCII lower-casing: capitals move down by 32, everything else is kept, and no capital remains |
| `EmailList.Lower` | pages/EmailList.tsx:86-87 | lower-cases each character of the string, keeping its length |
| `EmailList.IncludesAt` | pages/EmailList.tsx:86-87 | if the term occurs at some position, `includes` is true |
| `EmailList.IncludesWitness` | pages/EmailList.tsx:86-87 | if `includes` is true, the term occurs at some position |
| `EmailList.IncludesIffOccurs` | pages/EmailList.tsx:86-87 | `includes` holds iff the term occurs somewhere |
| `EmailList.FilteredEmails` | pages/EmailList.tsx:85-88 | every shown entry is in the list and matches the term |
| `EmailList.SearchSpec` | pages/EmailList.tsx:85-88 | an entry is shown iff its lowercased recipient or subject contains the lowercased term; order is kept; an empty term shows everything |
| `EmailList.CanSimulateOpen` | pages/EmailList.tsx:224 | the simulate-open action is offered exactly for entries still `sent` |
| `EmailList.EmailListView.constructor` | pages/EmailList.tsx:7-13 | empty list, empty term, loading, no editor open |
| `EmailList.EmailListView.LoadEmails` | pages/EmailList.tsx:15-25 | the list becomes a fresh `getEmails` read; `loading` ends false when it was shown |
| `EmailList.EmailListView.OnTableChange` | pages/EmailList.tsx:31-33 | a change event reloads the whole list silently |
| `EmailList.EmailListView.HandleDelete` | pages/EmailList.tsx:40-46 | after confirmation, the entry leaves the list and the row is deleted; without it nothing changes |
| `EmailList.EmailListView.HandleSimulateOpen` | pages/EmailList.tsx:48-63 | the entry is opened locally and the row is marked opened; if the service reports an error, the list is replaced by a fresh read |
| `EmailList.EmailListView.StartEditing` | pages/EmailList.tsx:65-68 | the editor opens on that entry with its current recipient and subject |
| `EmailList.EmailListView.CancelEditing` | pages/EmailList.tsx:70-73 | the editor closes and the form is cleared |
| `EmailList.EmailListView.SaveEditing` | pages/EmailList.tsx:75-83 | the form goes into the matching entry, the editor closes, and the table gets `updateEmail` of the form |
| `EmailList.EmailListView.SetSearchTerm` | pages/EmailList.tsx:105 | the visible entries become the list filtered by the new term |
| `TrackerGenerator.FinalRecipient` | pages/TrackerGenerator.tsx:24 | an empty recipient becomes 'Belirtilmedi'; a non-empty one is kept verbatim |
| `TrackerGenerator.FinalSubject` | pages/TrackerGenerator.tsx:25 | an empty subject becomes a placeholder starting 'Hızlı Takip - '; a non-empty one is kept verbatim |
| `TrackerGenerator.NewEmail` | pages/TrackerGenerator.tsx:27-35 | the new record is `sent`, has no `openedAt`, has id '' and the fresh tracking id, and satisfies the opened ⇔ `openedAt` invariant |
| `TrackerGenerator.TrackUrl` | pages/TrackerGenerator.tsx:49 | the URL is the endpoint prefix ending in `?id=` followed by the unencoded tracking id; the endpoint reads the id back whenever it has no `&`, `#`, `%`, `+`, tab, LF or CR and does not end in a space or C0 control character |
| `TrackerGenerator.ValueUntilDelimiter` | supabase/functions/track/index.ts:24-25 | the query value `searchParams.get("id")` yields: the longest prefix without `&` or `#`, cut exactly at the first of them |
| `TrackerGenerator.SafeValueIsWhole` | supabase/functions/track/index.ts:24-25 | a value with no delimiter, escape character, tab or line break is read whole |
| `TrackerGenerator.GeneratedIdRoundTrip` | services/storageService.ts:137-139 | a base-36 id, the alphabet `generateTrackingId` produces, comes back from its tracking URL intact |
| `TrackerGenerator.AmpersandCutsId` | pages/TrackerGenerator.tsx:49 | an id holding `&` does not round-trip: the URL for `a&b` carries the id `a` |
| `TrackerGenerator.Snippet` | pages/TrackerGenerator.tsx:50 | the snippet is a hidden 1×1 `<img>` whose `src` is exactly the tracking URL |
| `TrackerGenerator.GeneratorView.constructor` | pages/TrackerGenerator.tsx:7-16 | empty form, no code, no error, not busy |
| `TrackerGenerator.GeneratorView.GenerateCode` | pages/TrackerGenerator.tsx:18-54 | on success the table gains the new record, and the snippet is returned and stored; on failure `saveError` holds the save's message, null is returned, and `generatedCode` and the table are untouched; `isGenerating` ends false |
| `TrackerGenerator.GeneratorView.HandleGenerate` | pages/TrackerGenerator.tsx:56-59 | generates from the form's fields, with `GenerateCode`'s outcome: on success the row is added, the snippet is returned and stored in `generatedCode` and `saveError` is cleared; on failure the table and `generatedCode` are unchanged and `saveError` holds the error text; `isGenerating` ends false; `recipient`, `subject`, `copied` and the AI fields are unchanged |
| `TrackerGenerator.GeneratorView.HandleQuickGenerate` | pages/TrackerGenerator.tsx:61-71 | generates with placeholders ('Belirtilmedi', 'Hızlı Takip - ' + time), with `GenerateCode`'s outcome for the table, `generatedCode`, `saveError` and `isGenerating`; marks the code copied only when a code was returned; `recipient`, `subject` and the AI fields are unchanged |
| `TrackerGenerator.GeneratorView.CopyToClipboard` | pages/TrackerGenerator.tsx:73-79 | with a non-empty code on screen `copied` becomes true, otherwise it is unchanged; no other field changes |
| `TrackerGenerator.GeneratorView.HandleAiOptimize` | pages/TrackerGenerator.tsx:81-87 | does nothing while the subject is empty; otherwise shows the suggestions and ends not loading |

## Findings

| source | as written | input that shows it | evidently intended | confidence | as-written member | corrected member |
|---|---|---|---|---|---|---|
| supabase/functions/track/index.ts:91-96 | the graphic control extension marks index 1 (black) transparent, while the LZW data `44 01` (codes clear 4, pixel 0, end 5) draws index 0 (white) | the response body itself: offset 25 is `01`, offset 39 is `44` | a transparent 1×1 pixel, as the comments at index.ts:80 and 89 say; transparent index 0 gives that | high for the bytes, not executed | `Track.PixelIsOpaqueWhite` | `Track.TransparentPixelIsTransparent` |

## Left out

- The time between the endpoint's select and its update (supabase/functions/track/index.ts:40-65). Two concurrent loads could both see `sent` and both write. The model runs one request at a time.
- `subscribeToChanges` (services/storageService.ts:109-135): the realtime channel itself, and the unsubscribe on teardown. A change event is modelled only as a full reload (`OnTableChange`).
- `generateTrackingId` (services/storageService.ts:137-139) uses `Math.random`. The tracking id is an input.
- Wall-clock reads (`new Date().toISOString()`, `toLocaleTimeString`) are inputs. So is their ISO/locale text: timestamps are instants, and the local time is an opaque string.
- `Storage.OpenRate` is exact integer rounding of 100·opened/sent. It does not cover floating-point error in `Math.round((o / s) * 100)` at values near an exact half.
- `EmailList.Lower` lowercases ASCII only. `toLowerCase` also folds non-ASCII letters; Unicode case mapping is not modelled.
- `Storage.SortNewestFirst` picks one order for rows with equal `created_at`. Postgres may return such rows in any order, and `GetEmails` promises only the ordering and the permutation.
- URL and query-string parsing (`new URL(req.url)`) is modelled only as far as `IdFromTrackUrl`: the value up to the first `&` or `#` of a URL built on the endpoint prefix. Percent-escapes and `+` are not decoded, and of the WHATWG URL rules only the removal of tabs and line breaks and the stripping of trailing spaces and C0 controls are accounted for, so `TrackUrl` states its round trip only for ids that `SurvivesUrl` (none of `&`, `#`, `%`, `+`, tab, LF, CR; no trailing space or control character). The request carries the already extracted `id`. An exception in the handler has the same outcome as a failed select: the pixel and no change.
- `.single()` answers zero matching rows with an error. The model gives it a "not found" result. Both branches give the pixel and change nothing.
- The status column's default `'sent'` is never used, because every insert supplies a status.
- Logging (`console.*`), `alert`, `confirm` (an input to `HandleDelete`), the clipboard and the 2-second `setTimeout` that clears `copied`.
- Interleaving of the React handlers' `await`s, and of the reload that `handleSimulateOpen` starts without awaiting. Each handler runs to completion.
- Rendering, styling, navigation (components/Layout.tsx, App.tsx) and the Dashboard page's chart and `slice(0, 5)`.
- services/geminiService.ts is not part of this model. Its answer is an input to `HandleAiOptimize`.
- `GeneratorView.CopyToClipboard` (pages/TrackerGenerator.tsx:73-79) sets `copied` when a code is on screen; the clipboard write itself and the 2-second timer that clears `copied` again are not modelled.
