# Delivro dashboard: a verified model of its client-side rules

This project models four pieces of the Delivro shipment dashboard's client code in Dafny. It then proves what each piece promises.

- **Invoice upload dialog** (`upload_dialog.dfy`). The dialog holds a session made of:
  - the parsed files;
  - an error message;
  - the parsing, uploading and open flags.

  Its handlers are:
  - reset;
  - open change;
  - cancel;
  - add files, which skips a file whose name/modification-time/size key is already in the session;
  - drop, which keeps only JSON files;
  - toggle a file's preview;
  - remove a file;
  - confirm, which sends every file's raw records in order.

  The code changes these fields step by step, so the model uses the same form. A class `UploadSession` holds the fields, and each handler is a method. Each method is proved to perform a pure transition function on a `Session` value. The properties are proved about those functions:
  - de-duplication;
  - the all-or-nothing batch add;
  - order of the appended entries;
  - "only the matching entry changes";
  - the upload payload;
  - an invariant `Valid()`: every entry is the correctly keyed parse of its own file.

  The transition functions take the per-file parser as a parameter of type `Parser`. What they promise therefore holds for any parser. The class instantiates it with `ParseInvoiceFile`. The dialog's `addFiles` loop behaves the same as `parseInvoiceFile` (`components/UploadInvoicesDialog.tsx:124-151` against `lib/types/invoices.ts:52-73`), so the model uses one definition for both. The loop itself is the method `ParseEach`.
- **Per-file helpers** (`invoices.dfy`). These model `buildFileKey`, `isJsonFile` and `parseInvoiceFile`. `parseInvoiceFile` turns an array or a single object into a record list, and maps each record to a preview row with its placeholder defaults.
- **Pager** (`pagination.dfy`). It covers:
  - when the pager is hidden;
  - when each button is enabled;
  - which page a click requests.
- **Company filter** (`dashboard.dfy`). This is the case-insensitive company-name substring filter over the demo shipments, together with the empty-result message.

Support modules:
- `wrappers.dfy`: `Option`, `Result`.
- `sequences.dfy`: `Filter` and its membership, count and subsequence lemmas.
- `strings.dfy`: ASCII lower-casing, prefix/suffix/substring tests, decimal rendering of integers.
- `json.dfy`: parsed JSON values.

`json.dfy` models JavaScript property access as follows:
- Reading a property of `null` or `undefined` throws.
- Reading a property of any other non-object gives `undefined`.
- `??` replaces both `null` and `undefined`.

The code and the intended behaviour differ in places. The model follows the code:
- One file in a batch that fails to parse discards the whole batch. The error becomes `invalidJson`.
- De-duplication compares a new file only with the files already in the session. The same file twice in one batch is added twice (`DuplicateInBatchAddedTwice`).
- Confirming with no files sets the `invalidJson` message and sends nothing.
- The footer's cancel button only sets `open` to false and does not reset the session. Closing through the dialog itself (`handleOpenChange(false)`) does reset it.
- The file key is `name-lastModified-size`. It identifies a file only while `lastModified` is not negative (`FileKeyInjective`). With negative times two different files can share a key (`NegativeTimeKeyCollision`).

## Model

| member | source | states |
|---|---|---|
| Invoices.FileKey | lib/types/invoices.ts:35-37 | `buildFileKey`; specified by SameIdentitySameKey, FileKeyInjective and NegativeTimeKeyCollision. |
| Invoices.SameIdentitySameKey | lib/types/invoices.ts:35-37 | Two files with equal name, lastModified and size get the same key. |
| Invoices.FileKeyInjective | lib/types/invoices.ts:35-37 | For non-negative modification times, equal keys mean equal name, lastModified and size. |
| Invoices.NegativeTimeKeyCollision | lib/types/invoices.ts:35-37 | "x-" at time 1 and "x" at time -1, both of size 2, share the key "x--1-2". |
| Invoices.IsJsonFile | lib/types/invoices.ts:39-44 | `isJsonFile`; specified by IsJsonFileCharacterised and UpperCaseExtensionAccepted. |
| Invoices.IsJsonFileCharacterised | lib/types/invoices.ts:39-44 | A file is JSON exactly when its media type is "application/json" or its name ends in "." followed by j, s, o, n in either case. |
| Invoices.UpperCaseExtensionAccepted | lib/types/invoices.ts:39-44 | A name ending in ".JSON" is accepted whatever the media type. |
| Invoices.RecordsOf | lib/types/invoices.ts:54-56 | An array is the record list unchanged; any other value becomes a one-element list. |
| Invoices.PreviewRowOf | lib/types/invoices.ts:58-73 | A record maps to a row exactly when it is an object whose `shipment` is an object with a non-null `company`; otherwise reading through it throws (MalformedRecord). |
| Invoices.DefaultRowId | lib/types/invoices.ts:63 | The generated row id `file-<name>-row-<index>`; PreviewRowDefaults states when it is used. |
| Invoices.PreviewRowDefaults | lib/types/invoices.ts:63-71 | A missing or null id becomes `file-<name>-row-<index>`, tracking number and provider "N/A", company name "Unknown", countries "-", price 0; present values are kept. The weight is absent exactly when the record has no `invoicedWeight` key. |
| Invoices.PreviewRows | lib/types/invoices.ts:58-73 | The mapping succeeds exactly when every record has a shipment company, and then gives one row per record; otherwise the error is MalformedRecord. |
| Invoices.PreviewRowsPointwise | lib/types/invoices.ts:58-73 | Row i is the row mapping applied to record i with index i. |
| Invoices.ParseInvoiceFile | lib/types/invoices.ts:47-76 | The result is NotJson exactly when the text did not parse; accepted records are the normalised parsed value itself. |
| Invoices.ParseInvoiceFileOutcome | lib/types/invoices.ts:47-76 | A file is accepted exactly when it parsed and all its records have a shipment company; a parsed file that fails failed with MalformedRecord; an accepted file has as many rows as records. |
| Invoices.ParsedRowsFollowRecords | lib/types/invoices.ts:58-75 | In a parsed file, row i comes from record i. |
| Invoices.SingleObjectGivesOneRow | lib/types/invoices.ts:54-75 | One well-formed record object gives records [object] and exactly one row. |
| Invoices.ArrayGivesOneRowPerRecord | lib/types/invoices.ts:54-75 | An array of N well-formed records gives those records unchanged and N rows. |
| Json.Member | components/UploadInvoicesDialog.tsx:135-136 | Property access fails exactly when the value read through is null or undefined. |
| Json.Coalesce | lib/types/invoices.ts:63-69 | `??` gives the fallback for undefined and null alike, and the value itself otherwise. |
| UploadDialog.ResetSession | components/UploadInvoicesDialog.tsx:85-91 | No files, no error, not uploading, not parsing; the open flag is untouched. |
| UploadDialog.OpenChanged | components/UploadInvoicesDialog.tsx:93-96 | The open flag takes the new value; closing gives the initial empty session, opening changes nothing else. |
| UploadDialog.Cancelled | components/UploadInvoicesDialog.tsx:454 | The dialog is closed; the files, the error and both activity flags are kept. |
| UploadDialog.UniqueFiles | components/UploadInvoicesDialog.tsx:106-115 | The `uniqueFiles` filter; specified by UniqueFilesSpec, KnownFileNotAddedAgain and DuplicateInBatchAddedTwice. |
| UploadDialog.UniqueFilesSpec | components/UploadInvoicesDialog.tsx:106-115 | The files kept are exactly the input files whose key no session entry has, each as often as it occurs in the input, as a subsequence of the input. |
| UploadDialog.Admitted | components/UploadInvoicesDialog.tsx:153-159 | The entry pushed for a parsed file; ParseBatchAt and AddedEntryIsNewFile state its id and collapsed flag. |
| UploadDialog.ParseBatch | components/UploadInvoicesDialog.tsx:119-160 | The loop's outcome: when accepted, one entry per file; ParseBatchAt, ParseBatchFailsAt and ParseBatchSucceeds give the rest. |
| UploadDialog.ParseBatchAt | components/UploadInvoicesDialog.tsx:119-160 | In an accepted batch, file i parsed and entry i is file i with its key as id, its rows and records, collapsed. |
| UploadDialog.ParseBatchFailsAt | components/UploadInvoicesDialog.tsx:124-128 | One file that fails to parse rejects the whole batch. |
| UploadDialog.ParseBatchSucceeds | components/UploadInvoicesDialog.tsx:119-160 | A batch whose files all parse is accepted. |
| UploadDialog.ParseEach | components/UploadInvoicesDialog.tsx:117-160 | The loop yields exactly the accepted batch, or nothing when some file fails. |
| UploadDialog.FilesAdded | components/UploadInvoicesDialog.tsx:99-169 | An empty call changes nothing. Otherwise parsing ends false and the error is invalidJson exactly when the batch failed, in which case the files are unchanged; on success the batch is appended. |
| UploadDialog.AddKeepsExisting | components/UploadInvoicesDialog.tsx:162 | The previous entries stay, in order, at the front. |
| UploadDialog.AddedEntryIsNewFile | components/UploadInvoicesDialog.tsx:106-159 | Every appended entry comes from an input file with an unknown key, has that key as id and is collapsed. |
| UploadDialog.AddedEntriesInInputOrder | components/UploadInvoicesDialog.tsx:112-162 | Appended entry k comes from the k-th input file with an unknown key. |
| UploadDialog.KnownFileNotAddedAgain | components/UploadInvoicesDialog.tsx:106-115 | A file whose key is already in the session is not among the appended entries. |
| UploadDialog.AllKnownFilesChangeNothing | components/UploadInvoicesDialog.tsx:100-168 | A non-empty batch of known files only clears the error and the parsing flag. |
| UploadDialog.WellFormedEntryPreview | components/UploadInvoicesDialog.tsx:130-159 | A well-formed entry's records are its file's normalised content, and its preview has one row per record, row i made from record i. |
| UploadDialog.AddKeepsWellFormed | components/UploadInvoicesDialog.tsx:153-162 | If every entry is its file's keyed parse before an add, the same holds after it. |
| UploadDialog.OneBadFileDiscardsBatch | components/UploadInvoicesDialog.tsx:124-165 | A good file added with a bad one leaves the files unchanged and shows invalidJson. |
| UploadDialog.NonJsonFileDiscardsBatch | components/UploadInvoicesDialog.tsx:124-165 | With the invoice parser, a file that is not JSON discards a valid file added with it. |
| UploadDialog.DuplicateInBatchAddedTwice | components/UploadInvoicesDialog.tsx:106-115 | In any session, a file with an unknown key given twice in one batch becomes two appended entries of that file, both with its key as id. |
| UploadDialog.Dropped | components/UploadInvoicesDialog.tsx:193-204 | A drop adds exactly the JSON files of the drop; a drop without JSON files changes nothing. |
| UploadDialog.DropAddsOnlyJsonFiles | components/UploadInvoicesDialog.tsx:197-203 | Every entry a drop appends is a dropped JSON file. |
| UploadDialog.ToggledExpanded | components/UploadInvoicesDialog.tsx:206-210 | Same length and order; entries with the id have `expanded` flipped, all others are unchanged. |
| UploadDialog.ToggleTwiceRestores | components/UploadInvoicesDialog.tsx:206-210 | Toggling one id twice gives back the list. |
| UploadDialog.ToggleKeepsWellFormed | components/UploadInvoicesDialog.tsx:206-210 | Toggling keeps every entry its file's keyed parse. |
| UploadDialog.WithoutFile | components/UploadInvoicesDialog.tsx:212-214 | The result holds exactly the entries without the id, each as often as before, as a subsequence. |
| UploadDialog.RemoveUnknownIdChangesNothing | components/UploadInvoicesDialog.tsx:212-214 | Removing an id no entry has leaves the list as it is. |
| UploadDialog.RemoveKeepsWellFormed | components/UploadInvoicesDialog.tsx:212-214 | Removing keeps every entry its file's keyed parse. |
| UploadDialog.AllRecords | components/UploadInvoicesDialog.tsx:223-225 | No files give no records; the first file's records open the payload. |
| UploadDialog.AllRecordsAppend | components/UploadInvoicesDialog.tsx:223-225 | The payload of a + b is the payload of a followed by that of b. |
| UploadDialog.AllRecordsSingle | components/UploadInvoicesDialog.tsx:223-225 | One file's payload is its records. |
| UploadDialog.AddAppendsToPayload | components/UploadInvoicesDialog.tsx:223-225 | After a successful add the payload is the old payload followed by the new files' records. |
| UploadDialog.ConfirmedUpload | components/UploadInvoicesDialog.tsx:216-254 | No files: invalidJson and no request. Otherwise the request is every file's records in order; success closes and resets, and failure keeps the files, shows errorUpload and ends uploading. |
| UploadDialog.FailedUploadCanBeRetried | components/UploadInvoicesDialog.tsx:248-253 | After a failed upload, confirming again sends the same body. |
| UploadDialog.ConfirmDisabled | components/UploadInvoicesDialog.tsx:461 | The confirm button's disabled condition; EnabledConfirmSends states what pressing it when enabled does. |
| UploadDialog.EnabledConfirmSends | components/UploadInvoicesDialog.tsx:461 | Whenever the confirm button is enabled, pressing it sends a request. |
| UploadDialog.UploadSession.constructor | components/UploadInvoicesDialog.tsx:76-80 | A new dialog is closed and empty, and valid. |
| UploadDialog.UploadSession.ResetState | components/UploadInvoicesDialog.tsx:85-91 | Performs ResetSession and keeps Valid. |
| UploadDialog.UploadSession.HandleOpenChange | components/UploadInvoicesDialog.tsx:93-96 | Performs OpenChanged and keeps Valid. |
| UploadDialog.UploadSession.Cancel | components/UploadInvoicesDialog.tsx:454 | Performs Cancelled and keeps Valid. |
| UploadDialog.UploadSession.AddFiles | components/UploadInvoicesDialog.tsx:99-169 | Performs FilesAdded with the invoice parser and keeps Valid. |
| UploadDialog.UploadSession.HandleDrop | components/UploadInvoicesDialog.tsx:193-204 | Performs Dropped with the invoice parser and keeps Valid. |
| UploadDialog.UploadSession.ToggleFileExpanded | components/UploadInvoicesDialog.tsx:206-210 | Replaces the files by ToggledExpanded, changes nothing else and keeps Valid. |
| UploadDialog.UploadSession.HandleRemoveFile | components/UploadInvoicesDialog.tsx:212-214 | Replaces the files by WithoutFile, changes nothing else and keeps Valid. |
| UploadDialog.UploadSession.HandleConfirmUpload | components/UploadInvoicesDialog.tsx:216-254 | Performs ConfirmedUpload: the new state and the request body it returns, and keeps Valid. |
| Pagination.CanGoPrev | components/dashboard/Pagination.tsx:26 | `canGoPrev`; PrevClick and Render state what it gates. |
| Pagination.CanGoNext | components/dashboard/Pagination.tsx:27 | `canGoNext`; NextClick and Render state what it gates. |
| Pagination.Render | components/dashboard/Pagination.tsx:24-50 | Nothing is rendered exactly when there are no items; prev is disabled exactly when currentPage <= 1 or loading, next exactly when currentPage >= totalPages or loading. |
| Pagination.PrevClick | components/dashboard/Pagination.tsx:26-41 | A page is requested exactly when currentPage > 1, and it is currentPage - 1, at least 1. |
| Pagination.NextClick | components/dashboard/Pagination.tsx:27-50 | A page is requested exactly when currentPage < totalPages, and it is currentPage + 1, at most totalPages. |
| Pagination.EnabledButtonsRequest | components/dashboard/Pagination.tsx:40-50 | An enabled button's click always requests a page, and is enabled only when not loading. |
| Pagination.RequestsStayInRange | components/dashboard/Pagination.tsx:26-50 | From a page in 1..totalPages every request stays in 1..totalPages. |
| Pagination.NextThenPrevReturns | components/dashboard/Pagination.tsx:41-50 | From a page of at least 1, next then prev returns to that page. |
| Pagination.LoadingDisablesBoth | components/dashboard/Pagination.tsx:40-49 | While loading both buttons are disabled. |
| Pagination.MiddlePageBothEnabled | components/dashboard/Pagination.tsx:40-50 | Page 2 of 3, not loading: both buttons are enabled and request pages 1 and 3. |
| Pagination.SinglePageBothDisabled | components/dashboard/Pagination.tsx:26-49 | On page 1 of 1 both buttons are disabled. |
| Dashboard.FilteredShipments | app/page.tsx:70-74 | A shipment is shown exactly when it is in the list and the filter keeps it, as often as it occurs in the list; the result is an order-preserving subsequence, no longer than the list. |
| Dashboard.Keeps | app/page.tsx:71-73 | The filter's test for one shipment; specified by KeepsIffOccurrence, FilterIgnoresCase and FilterKeepsItsCompany. |
| Dashboard.KeepsIffOccurrence | app/page.tsx:71-73 | An empty filter keeps every shipment; a non-empty one keeps a shipment exactly when its lower-cased form occurs at some position of the lower-cased company name. |
| Dashboard.ShowsEmptyMessage | app/page.tsx:136 | The empty message condition; specified by EmptyMessageIffNoMatch. |
| Dashboard.EmptyMessageIffNoMatch | app/page.tsx:136 | The empty message shows exactly when the filter keeps no shipment. |
| Dashboard.EmptyFilterKeepsAll | app/page.tsx:71-73 | An empty filter shows every shipment, in order. |
| Dashboard.FilterIgnoresCase | app/page.tsx:72 | Filters that lower-case to the same string show the same shipments. |
| Dashboard.FilterKeepsItsCompany | app/page.tsx:72 | A filter that occurs in a company's lower-cased name keeps that company's shipments. |
| Dashboard.BetaFilterOnDemoData | app/page.tsx:24-74 | "BETA" on the demo data shows exactly the Beta Logistics shipment. |

## Left out

- The upload request: `fetch`, its status check and the response body are I/O against a backend. The server's answer is the parameter `succeeded`.
- `File.text()` and `JSON.parse` are foreign calls. A file carries what parsing made of its text (`body`), or `None` when reading or parsing threw.
- `Number(...)` and `toFixed(2)` work on floating point. A preview row keeps the value `Number(...)` would be applied to.
- Translations: the messages are the enum `Message` (`invalidJson`, `errorUpload`).
- Asynchrony: each handler runs to completion. The interleaving of two handlers, and the `isParsing`/`isUploading` values visible while a handler awaits, are not modelled. The final values of both flags are.
- `handleFileInputChange` only passes the picked files to `addFiles` and clears the input element. `AddFiles` covers it.
- The drag-over flag `isDragging` and other view state. Rendering, styling, `ShipmentCard`, the grid, the filters bar and the language switcher are view glue.
- The `onUploaded` callback and console logging have no effect on the session.
- `fetchShipmentHistory` and the history dialog are network loaders.
- The page-size formula and the page reset on filter change do not appear in the code shown.
- Lower-casing covers ASCII letters only. JavaScript's `toLowerCase` also maps non-ASCII letters.
- FileKey: renders `lastModified` and `size` as integer decimals. It does not model how JavaScript prints fractional or very large numbers.
- Pagination.Render: page numbers and item counts are integers, whereas JavaScript numbers could be fractional.
- Pagination.PrevClick: "the request is at least 1" holds for integer pages only; from page 1.5 JavaScript would request 0.5.
- Pagination.NextClick: "the request is at most totalPages" holds for integer pages only, for the same reason.
