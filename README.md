# Panel wiring reference library — Dafny model

This project models the logic of a browser catalogue of panel-wiring
reference records. Each record has a title, a customer, an order number,
a panel section, tags, notes, an image and two timestamps. The model
covers these parts:

- **Record store** (`storage.dfy`). This is a class over one storage cell. The cell is missing, empty, unparsable, or holds a stored list.
  - Reading falls back to the seed and seeds storage when the value is missing or empty.
  - Saving upserts by id: the first record with the id is replaced in place, or the record is put in front.
  - Deleting filters the id out, and resetting stores the seed.
- **The source's shared seed array** (`storage_aliasing.dfy`). The store as written, where the seed array is handed out and then changed in place. See "## Findings".
- **Seed generator** (`seed.dfy`). This is the 25-iteration loop that builds the initial records from fixed customer, order, section and tag lists.
- **Audit client** (`audit.dfy`). It reduces an image reference to the raw base64 payload: the data-URL split, the http branch with its error mapping, and the pass-through fallback. It also checks the model's reply: empty, unparsable, or parsed.
- **Page logic.** These are pure queries over the record list:
  - the form's record construction, tag editing, edit-mode loading and image handlers (`admin_form.dfy`);
  - the detail page's lookup and related-record selection (`reference_detail.dfy`);
  - the library's customer list, search and filter predicate, and the three sort orders (`library.dfy`);
  - the dashboard's key figures, recent list and top customers (`dashboard.dfy`).
- **Create-then-edit scenario** (`scenarios.dfy`). It chains the form and the store, from an empty browser: 25 records, then 26 after a create, and still 26 after an edit.

Shared pieces are the datatypes (`types.dfy`), string and sequence
helpers (`strings.dfy`, `seqs.dfy`), and the id lookup and sorts
(`records.dfy`).

Timestamps are integer milliseconds. The clock is a parameter `now`,
read once per operation. The source reads `Date.now()` separately for
`createdAt` and `updatedAt` (`constants.ts:43-44`, `pages/AdminForm.tsx:48-50`).
The model assumes those readings are the same instant.

Where a reader might expect other behaviour, the model follows the code:

- A reader might expect seed record N to be older than record N+1. The code gives record i `createdAt = now − i·86400000`, so record i+1 is the older one (`Seed.SeedOlderDownTheList`).
- A reader might expect an embedded data string with no payload after its prefix to be a fatal input error. The code returns a `data:` string without a comma whole, and one whose first comma has nothing after it yields `""` (`Audit.DataUrlWithoutComma`, `Audit.DataUrlEmptyPayload`).
- A reader might expect out-of-domain scores and statuses to be rejected. The code returns the parsed reply unchecked (`Audit.OutOfDomainPassesThrough`).
- A reader might expect every fetch failure on the remote branch to become the "could not access" error. In the code, the reader's own two rejections escape that mapping, because the reader's promise is returned without being awaited inside the `try` (`Audit.ProcessImageInput`, `Audit.ReaderErrorEscapes`).

## Model

| member | source | states |
|---|---|---|
| Strings.DecimalRoundTrip | constants.ts:32 | the decimal text of a number reads back as that number |
| Strings.DecimalInjective | constants.ts:32 | different numbers have different decimal texts |
| Strings.ContainsAt | pages/Library.tsx:32-36 | `includes` holds exactly when the needle occurs at some position of the text |
| Strings.SplitJoin | services/gemini.ts:47 | joining the pieces of a split with the separator gives back the original string |
| Strings.SplitSecondPiece | services/gemini.ts:47-48 | when the separator occurs, the second piece is the separator-free stretch right after its first occurrence, running to the next separator or the end |
| Strings.LexLeTotal | pages/Library.tsx:45-46 | any two strings are ordered one way or the other by the code-point order used for the alphabetical sorts |
| Strings.LexLeTrans | pages/Library.tsx:45-46 | that order is transitive |
| Strings.LexLeAntisym | pages/Library.tsx:45-46 | strings ordered both ways are equal |
| Seqs.FilterAppend | lib/storage.ts:36 | filtering a concatenation filters each part, so kept elements keep their relative order |
| Seqs.FilterMultiset | lib/storage.ts:36 | filtering keeps every passing element as often as before and drops every failing one |
| Seqs.DedupSpec | pages/Library.tsx:26 | the set-to-array list is duplicate-free, has exactly the input's values, and follows first-occurrence order |
| Seqs.NoDupCard | pages/Dashboard.tsx:37-38 | a duplicate-free list has as many distinct values as elements |
| Seqs.DistinctCount | pages/Dashboard.tsx:43-44 | a set's size is the length of the duplicate-free list, and at most the list's length |
| Seqs.CountAll | pages/Dashboard.tsx:39 | a filter count equals the length exactly when every element passes |
| Seqs.CountPositive | pages/Dashboard.tsx:171 | a value in the list that passes the test is counted at least once |
| Records.FindIndex | lib/storage.ts:24 | `findIndex` is −1 exactly when no record has the id; otherwise it is the first position with the id |
| Records.FindById | pages/ReferenceDetail.tsx:30 | `find` is absent exactly when no record has the id; otherwise it is the record at the first position with the id |
| Records.InsertNewest | pages/Dashboard.tsx:51 | inserting into a newest-first list keeps it newest-first, adds exactly that record, and grows by one |
| Records.SortNewest | pages/Dashboard.tsx:51 | the newest-first sort returns a permutation of its input in descending creation time |
| Records.InsertBy | pages/Library.tsx:45-46 | inserting into a list ascending by a string key keeps it ascending and adds exactly that record |
| Records.SortBy | pages/Library.tsx:45-46 | the alphabetical sort returns a permutation of its input in ascending key order |
| Seed.SectionsComplete | constants.ts:7-9 | the section list has 7 distinct entries, covers every section, and the section names are distinct |
| Seed.CommonTagsDistinct | constants.ts:11-14 | the common tag list has 11 distinct entries |
| Seed.SeedList | constants.ts:16-49 | the seed has 25 records |
| Seed.SeedListAt | constants.ts:22-46 | record k of the seed list is the record of iteration k+1 |
| Seed.SeedRecord | constants.ts:23-44 | iteration i gives a record with two different common tags, an image of url kind, a listed customer and order, and section `SECTIONS[i % 7]`; for i ≥ 1 it was created before it was updated, and updated before `now` |
| Seed.GenerateSeed | constants.ts:16-49 | the loop over i = 1..25 pushes the record of each iteration, and its result is the seed list |
| Seed.SeedIdInjective | constants.ts:32 | `ref-<i>` ids of different iterations differ |
| Seed.SeedIdsDistinct | constants.ts:32 | all 25 seed ids are distinct |
| Seed.SeedTimestamps | constants.ts:43-44 | each seed record has createdAt < updatedAt ≤ now |
| Seed.SeedOlderDownTheList | constants.ts:43 | creation times strictly decrease along the seed list |
| Storage.LoadTwice | lib/storage.ts:9-13 | a second read right after a read sees the same list and leaves the same cell |
| Storage.Upsert | lib/storage.ts:24-30 | after a save the id finds exactly the saved record; a present id keeps the length; an absent id puts the record in front of the old list, which grows by one |
| Storage.UpsertReplaces | lib/storage.ts:24-27 | saving an id that is present keeps the length, puts the record at the first position with the id, and leaves every other position unchanged |
| Storage.UpsertKeepsOthers | lib/storage.ts:24-30 | a save leaves a record of another id where it was, or one place later |
| Storage.Removed | lib/storage.ts:36 | after the filter no record has the id, every record of another id is still there, and the list is no longer |
| Storage.RemovedSpec | lib/storage.ts:35-37 | after a delete no record has the id, records of other ids are kept as often as before, and their order is kept |
| Storage.RemoveAbsent | lib/storage.ts:36 | deleting an absent id writes the list back unchanged |
| Storage.RemoveTwice | lib/storage.ts:35-37 | deleting twice is deleting once |
| Storage.RemoveUnique | lib/storage.ts:36 | deleting an id held by exactly one record removes exactly that record |
| Storage.ReferenceStore.constructor | constants.ts:51 | the store's seed is the generated seed list |
| Storage.ReferenceStore.GetReferences | lib/storage.ts:7-20 | a missing or empty value returns the seed and stores it; unparsable text returns the seed and stays as it was; a stored list is returned unchanged |
| Storage.ReferenceStore.SaveReference | lib/storage.ts:22-33 | the cell becomes the upserted list of what a read returns, so corrupt storage is overwritten; the id then finds the record; the length is kept for a present id; for an absent id the record goes in front |
| Storage.ReferenceStore.DeleteReference | lib/storage.ts:35-38 | the cell becomes the read list without the id; no record has the id; an absent id leaves the list unchanged |
| Storage.ReferenceStore.ResetData | lib/storage.ts:40-41 | the cell becomes exactly the seed, whatever it held |
| StorageAliasing.ResetKeepsSavedRecord | lib/storage.ts:14-30 | as written, saving a new record over unparsable storage and then resetting stores the seed with that record in front, not the seed |
| StorageAliasing.FirstSaveCorruptsSeed | lib/storage.ts:10-30 | as written, the first save over missing storage changes the shared seed array, so a later reset stores the saved record too |
| StorageAliasing.StoredStateAgrees | lib/storage.ts:14-15 | once a list is stored, the as-written save equals the store's upsert and leaves the seed array alone |
| StorageAliasing.SaveAsWritten | lib/storage.ts:10-32 | as written, a save stores a list in which the id finds the saved record; when the read handed out the seed array, that array is the stored list afterwards; otherwise the array is untouched |
| StorageAliasing.DeleteAsWritten | lib/storage.ts:35-37 | as written, a delete stores a list without the id and never changes the seed array, since `filter` copies |
| StorageAliasing.ResetAsWritten | lib/storage.ts:40-41 | as written, a reset stores whatever the seed array holds at that moment, and leaves the array as it is |
| Audit.ProcessImageInput | services/gemini.ts:44-80 | a `data:` string never fails; a failure only comes from the http branch, and is one of the access, read and extract errors; an http success is a non-empty comma-free payload; input with neither prefix is returned unchanged |
| Audit.DataUrlPayload | services/gemini.ts:46-48 | a `data:` string with a comma yields the comma-free stretch right after its first comma, without error |
| Audit.DataUrlWithoutComma | services/gemini.ts:48 | a `data:` string without a comma is returned unchanged |
| Audit.DataUrlEmptyPayload | services/gemini.ts:48 | an empty stretch after the first comma yields `""`, without error |
| Audit.DataUrlNeverFetched | services/gemini.ts:46-52 | a `data:` string never reaches the fetch: its outcome is the same whatever the fetch would return |
| Audit.FallbackIsIdentity | services/gemini.ts:78-79 | input with neither prefix is returned unchanged |
| Audit.HttpFailuresMapToAccessError | services/gemini.ts:53-75 | on the http branch, a thrown fetch, a non-ok status and an unreadable body all become the single "could not access" error |
| Audit.HttpPayload | services/gemini.ts:62-67 | on the http branch, a reader result whose first comma is followed by a non-comma character yields exactly the non-empty, comma-free stretch after that comma, ending at the next comma or the end |
| Audit.ReaderErrorEscapes | services/gemini.ts:69 | on the http branch, a reader error fails with "Failed to read image as base64", which differs from the access error |
| Audit.EmptyPayloadOnlyRejectedAfterFetch | services/gemini.ts:62-66 | a reader result with nothing after its first comma fails with "Failed to extract base64 data", while the same text as direct input yields `""` |
| Audit.CheckResponse | services/gemini.ts:123-133 | a reply is accepted exactly when its text is present, non-empty and JSON, and then the result is the parsed value; missing or empty text fails with the empty-response error, other failures with the invalid-format error; no default result |
| Audit.OutOfDomainPassesThrough | services/gemini.ts:129 | a parsed reply with score 150 and status "Maybe", and JSON of another shape, are both returned as a successful audit; the two reply errors have different messages |
| Audit.AuditWiringImage | services/gemini.ts:82-134 | an image that cannot be normalised fails the audit with its own error; a rejected model call fails; a normalised image and an answered call give the response check's verdict on that text; a successful audit had a normalised image and a non-empty reply that parsed to the result |
| Audit.FetchFailureDistinctFromBadReply | services/gemini.ts:72-132 | a failed fetch and a malformed reply end in different errors with different messages |
| AdminForm.BuildRecord | pages/AdminForm.tsx:46-51 | the saved record is the form with the id, createdAt and updatedAt filled in: a non-empty form id is kept, else `ref-<now>`; a present createdAt is kept, else now; updatedAt is now |
| AdminForm.SubmitNew | pages/AdminForm.tsx:46-50 | a new form saves id `ref-<now>` with createdAt = updatedAt = now, and every other field from the form |
| AdminForm.SubmitEdit | pages/AdminForm.tsx:46-50 | resubmitting a loaded record gives the same record with only updatedAt set to now; createdAt is kept |
| AdminForm.AddTagSpec | pages/AdminForm.tsx:61-66 | adding does nothing exactly for an empty or present tag; otherwise it appends the tag, clears the input and changes nothing else |
| AdminForm.AddTag | pages/AdminForm.tsx:61-66 | adding either changes nothing or appends the typed tag and clears the input; a non-empty tag is in the list afterwards; no other field changes; a duplicate-free tag list stays duplicate-free |
| AdminForm.RemoveTag | pages/AdminForm.tsx:68-70 | the tag is gone afterwards, every other tag is kept, and nothing else changes |
| AdminForm.RemoveTagSpec | pages/AdminForm.tsx:68-70 | removing drops every occurrence of the tag and keeps the other tags, their counts and their order |
| AdminForm.AddThenRemove | pages/AdminForm.tsx:61-70 | removing a tag just added gives the old tags back |
| AdminForm.LoadForEdit | pages/AdminForm.tsx:34-41 | in edit mode the first record with the route id becomes the form; without a route id or a matching record the form is untouched |
| AdminForm.ClearImage | pages/AdminForm.tsx:229 | clearing sets an empty image of url kind, so the URL field is empty, and changes nothing else |
| AdminForm.TypeImageUrl | pages/AdminForm.tsx:258-261 | typed text always gives an image of url kind, shown back in the URL field; nothing else changes |
| AdminForm.FileLoaded | pages/AdminForm.tsx:72-84 | a loaded file gives an image of base64 kind holding the data URL, and the URL field shows nothing; nothing else changes |
| AdminForm.UrlFieldText | pages/AdminForm.tsx:257 | the URL field is empty or shows the value of an image of url kind |
| ReferenceDetail.Shown | pages/ReferenceDetail.tsx:30 | the shown record is the first with the route id, and none is shown exactly when no record has it |
| ReferenceDetail.Related | pages/ReferenceDetail.tsx:32-37 | at most 4 related records; none without a shown record; each is in the list, has another id than the route id, and shares the customer or a tag with the shown record |
| ReferenceDetail.RelatedSpec | pages/ReferenceDetail.tsx:32-37 | the related records are the first min(4, n) of the n qualifying records; with fewer than 4, every qualifying record is included |
| ReferenceDetail.RelatedOrder | pages/ReferenceDetail.tsx:34-36 | selection keeps list order: qualifying records of a front part come before those of the rest |
| Library.Customers | pages/Library.tsx:26 | the customer list has exactly the customers of the records |
| Library.CustomersSpec | pages/Library.tsx:26 | every record's customer is listed exactly once and nothing else is listed, in first-occurrence order |
| Library.MatchesSearch | pages/Library.tsx:31-36 | an empty search text matches every record |
| Library.Sorted | pages/Library.tsx:43-48 | each sort order returns a permutation of its input |
| Library.Filtered | pages/Library.tsx:28-48 | a record is in the result exactly when it is in the input and passes the search, customer and section tests; the result is no longer than the input |
| Library.FilteredContents | pages/Library.tsx:28-42 | each record that passes the three tests appears as often as in the input, and every other record not at all |
| Library.FilteredOrder | pages/Library.tsx:43-48 | the result is newest first, or ascending by customer, or ascending by order number |
| Library.SearchIgnoresQueryCase | pages/Library.tsx:31-36 | the search gives the same answer for a query and its lower-cased form |
| Library.NoFiltersKeepsAll | pages/Library.tsx:28-48 | with no search text and both filters `all`, the result is a permutation of the input |
| Library.CustomerFilterSpec | pages/Library.tsx:30-42 | a customer filter keeps only that customer's records, and every one of them that passes the search and section tests |
| Dashboard.StatsSpec | pages/Dashboard.tsx:37-44 | the unique counts are the lengths of the duplicate-free customer and order lists |
| Dashboard.Stats | pages/Dashboard.tsx:36-47 | the total is the record count; the unique counts are each at most the total; the tagged count is at most the total, and equals it exactly when every record has a tag |
| Dashboard.OneCustomer | pages/Dashboard.tsx:37 | records of a single customer count one unique customer |
| Dashboard.Recent | pages/Dashboard.tsx:49-53 | the recent list has min(8, n) records, newest first, each drawn from the input at most as often as it occurs there |
| Dashboard.RecentSpec | pages/Dashboard.tsx:49-53 | no record left out of the recent list is newer than one shown |
| Dashboard.LeftOutNotNewer | pages/Dashboard.tsx:51-52 | in a newest-first list, a record outside the first n is no newer than any of them |
| Dashboard.TopCustomers | pages/Dashboard.tsx:162 | at most 5 customers, each once, each a customer of the list |
| Dashboard.TopCustomersSpec | pages/Dashboard.tsx:162-171 | the customers shown follow first-occurrence order and each has a count of at least 1; any customer left out first appears after every customer shown; with fewer than 5, every customer is shown |
| Dashboard.CustomerCount | pages/Dashboard.tsx:171 | a customer's count is at most the record count, and at least 1 exactly for a customer of the list |
| Dashboard.CustomerCountSpec | pages/Dashboard.tsx:171 | a customer's count adds up over the list: each record of that customer counts 1 and every other record counts 0 |
| Scenarios.CreateThenEdit | lib/storage.ts:7-33 | from missing storage the store has 25 records; a new form saves a 26th with createdAt = updatedAt; editing its notes keeps 26 records and createdAt; updatedAt advances; the id finds the edited record |

## Left out

- The `typeof window` check in `getReferences` (`lib/storage.ts:8`) is left out. The model assumes a browser.
- `localStorage` and JSON are abstracted as the storage cell. Text that parses to something other than a list of records (for example `null`) is not distinguished from a stored list. The storage key is not modelled.
- `window.location.reload` after a reset or delete is left out. The seed is regenerated at the next load.
- `fetch`, `Blob` and `FileReader`, and the `generateContent` call with its API key, prompt and response schema, are left out. Their outcomes are inputs (`Audit.FetchOutcome`, `Audit.ModelOutcome`), and `JSON.parse` is a parameter. The model does not see the error text of a rejected model call, so its message is left out too.
- `Audit.AuditResult`: the score is an `int`, not a floating-point number.
- `Audit.CheckResponse`: JSON of a shape other than the result type (`{}`, `[]`, `42`, `null`) is one opaque value, `OtherShape`. What it holds, and what the page later does with its missing fields, is not modelled.
- `Storage.ReferenceStore.SaveReference`, `Storage.ReferenceStore.DeleteReference`, `Storage.ReferenceStore.ResetData` and `Storage.ReferenceStore.GetReferences`: a `setItem` that throws (storage full or disabled) is not modelled. Every write is assumed to succeed, so the case where a save throws after it has already changed the shared seed array is not covered either.
- `Library.Filtered`: `localeCompare` is modelled as code-point lexicographic order. Locale collation is not modelled.
- `Strings.LexLe`: JavaScript strings are sequences of UTF-16 code units, while the model's strings are sequences of Unicode scalar values. Texts with characters outside the Basic Multilingual Plane can therefore have a different length and order in the model.
- `Library.MatchesSearch`: lower-casing is ASCII only. Unicode case mapping is not modelled.
- Dates are integer milliseconds rather than ISO strings. Parsing and formatting are left out. So is the submit rule that replaces an empty `createdAt` string, because the model has no empty timestamp.
- `Records.SortNewest` and `Records.SortBy` do not state stability. Records with equal keys are ordered, but their relative order is not part of the contracts.
- React state, rendering, `navigate`, `setTimeout`, `alert` and `confirm` are left out. So are the form's plain field setters and the success flag.
- The dashboard's recent list sorts a copy, which the value model gets for free: the input sequence cannot be reordered.
- The layout, standards page and router (`components/Layout.tsx`, `pages/Standards.tsx`, `App.tsx`) are left out. Their only logic is calling `resetData` or reading the store.
- The delete and audit handlers on the detail page are left out. They only call `deleteReference` and `auditWiringImage`, which are modelled.
- Several tabs writing at once are left out.

## Findings

| source | as written | input that shows it | evidently intended | confidence | as-written member | corrected member |
|---|---|---|---|---|---|---|
| lib/storage.ts:12-29 | `getReferences` returns the module's seed array itself when storage is missing, empty or unparsable, and `saveReference` then changes that array in place (`refs[i] = ref`, `refs.unshift(ref)`); `resetData` stores whatever the array holds | unparsable text under the storage key, then saving a record whose id is not a seed id, then resetting: the stored list is that record followed by the 25 seed records | reset stores exactly the 25 generated seed records | not executed | StorageAliasing.ResetKeepsSavedRecord | Storage.ReferenceStore.ResetData |
