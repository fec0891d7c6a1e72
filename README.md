# safeshare: share-link creation and upload orchestration in Dafny

safeshare is a small web application for sharing files for a short time.
A user drops files onto a page, the page uploads them to object storage, and
then it asks the server for a share link. The server's `POST /api/create-link`
handler works in a fixed order:

1. It keys the caller by the first `x-forwarded-for` entry.
2. It asks a sliding-window rate limiter (10 requests per 10 s).
3. It validates the body, `{ files: [{ url, filename }, ...] }`, with at least one file.
4. It writes one record under `share:<id>` with a ten-minute expiry.
5. It answers `201 { shareId }`.

The page then shows `<origin>/share/<id>`.

This project models three parts of that:

- **The handler** (module `CreateLink`, `create_link.dfy`).
  - The key-value store is a class `ShareStore` whose field is a `map<string, StoredShare>`.
  - `Post` is one request. It is a step-by-step method with early returns.
  - Its inputs are the forwarded header, the limiter (a function from client key to decision or failure), the parsed body (or a parse failure), the URL check of the schema, the value `nanoid(10)` produced, the clock in milliseconds, and whether the store write succeeds.
  - Its postconditions give the response and the new store for every branch.
  - Pure functions give the client key, the schema, the three rate-limit headers, the record and the `catch` handler.
- **The drop zone** (module `Dropzone`, `multi_file.dfy`).
  - It covers the file-state type shared with the page.
  - The `onDrop` cap on `maxFiles` is a method of class `Zone`, which owns the component's custom error.
  - The rule that disables the zone, removal by index, the control shown for each entry, and the mapping from rejection code to message are pure functions.
- **The upload page** (module `Upload`, `file_upload.dfy`).
  - The keyed `updateFileState` is a pure function.
  - The page's state is class `Uploader`, with methods `HandleUpload`, `HandleReset`, `AddFiles` and `RemoveFile`.
  - `HandleUpload` loops over the file list. For each pending file it applies that upload's events: attach the abort controller, apply each progress report, settle as uploaded, aborted or failed, and mark the file complete after a report of 100. Then it decides whether to call create-link, and with which files.
  - The batch is specified by a fold of keyed updates (`Batch`).
  - `BatchIsPerEntry` proves that, when keys are distinct, this fold equals an entry-by-entry reference definition (`EntryAfter`).

`common.dfy` (module `Common`) holds `Option` and the decimal numerals that
`Number.prototype.toString` gives non-negative safe integers (below 2^53). It also holds the
proof that such a numeral reads back as the same number.

Modelling choices:

- A file's concurrent upload callbacks become one event record, `UploadEvents`. The records are applied in list order. So when several uploads fail, the batch's error is that of the first failure in list order.
- The one-second pause before a file at 100% is marked `COMPLETE` is taken to end after that upload has settled. With this ordering, a file that reports 100 and then fails or is aborted ends up `COMPLETE`.
- The handler reads the clock twice, once for `createdAt` and once for `expiresAt`. Both reads are one input `now`, in milliseconds, so `expiresAt - createdAt` is exactly 600 000.
- The `ZodError` branch of the handler's `catch` block is modelled as `OnThrow(ZodFailure)`. `Post` never reaches it, because `safeParse` reports failure through its result and does not throw. `Post`'s last postcondition states this.
- A failed store write is taken to leave the store unchanged.
- `createResponseWithHeaders` is the `Response` constructor applied to the three rate-limit headers.

## Model

| member | source | states |
|---|---|---|
| `CreateLink.FirstField` | src/app/api/create-link/route.ts:41 | `split(",")[0]`: the result is a prefix of the header, holds no comma, and is followed by a comma unless it is the whole header |
| `CreateLink.ClientKey` | src/app/api/create-link/route.ts:40-41 | a missing or empty header gives `"127.0.0.1"`; otherwise the key is a comma-free prefix of the header |
| `CreateLink.FirstFieldUnique` | src/app/api/create-link/route.ts:41 | any comma-free prefix that ends at a comma or at the end of the header is the one `FirstField` returns |
| `CreateLink.ClientKeyIsFirstEntry` | src/app/api/create-link/route.ts:40-41 | for `first,rest` the key is exactly `first`, and a comma-free non-empty header is its own key |
| `Common.Decimal` | src/app/api/create-link/route.ts:46-48 | `toString` of a non-negative safe integer: non-empty, digits only, no leading zero, `"0"` only for 0 |
| `Common.ParseDecimalOfDecimal` | src/app/api/create-link/route.ts:46-48 | reading a written numeral back gives the number that was written |
| `Common.DecimalInjective` | src/app/api/create-link/route.ts:46-48 | different numbers give different numerals |
| `CreateLink.RateLimitHeaders` | src/app/api/create-link/route.ts:45-49 | exactly the three `X-RateLimit-*` headers; each is a numeral that reads back as the limiter's `limit`, `remaining` and `reset` |
| `CreateLink.RateLimitHeadersInjective` | src/app/api/create-link/route.ts:45-49 | equal headers mean equal limit, remaining and reset |
| `CreateLink.ParseEntries` | src/app/api/create-link/route.ts:17-22 | the element list parses exactly when every element is an object with a URL-valid string `url` and a non-empty string `filename`; the result has the same length and keeps each element's pair, in order |
| `CreateLink.Validate` | src/app/api/create-link/route.ts:15-24 | `safeParse` succeeds exactly on an object whose `files` is a non-empty array of valid entries; the data is those entries' `{url, filename}`, in order, with other keys stripped |
| `CreateLink.ShareKey` | src/app/api/create-link/route.ts:89 | the store key is `"share:"` followed by the id |
| `CreateLink.ShareKeyInjective` | src/app/api/create-link/route.ts:89 | distinct ids never write the same key |
| `CreateLink.NewShareRecord` | src/app/api/create-link/route.ts:82-86 | the record keeps the validated files, `createdAt` is the request time and `expiresAt` is 10 × 60 × 1000 ms later, the moment the store's 600 s TTL lets the key lapse |
| `CreateLink.OnThrow` | src/app/api/create-link/route.ts:95-107 | the catch block sets no rate-limit headers; status 400 exactly for a ZodError, with body `{message: "Invalid request data", code: "VALIDATION_ERROR"}`; any other failure gives 500 `"Internal server error"` |
| `CreateLink.ShareStore.Post` | src/app/api/create-link/route.ts:37-109 | limiter failure gives 500 with no write; a deny gives 429 `RATE_LIMIT_EXCEEDED` with the headers, before the body is read, and no write; a malformed body gives 500 with no write; an invalid body gives 400 `INVALID_REQUEST` with the headers and no write; a failed store write gives 500 and no change; otherwise exactly `share:<id>` is written, holding the validated files, the record and TTL 600 s, and the answer is 201 `{shareId}` with the same headers; no other key ever changes; every non-500 answer carries exactly the three rate-limit headers of the decision and every 500 carries none; a success body's id is ten URL-safe symbols; `VALIDATION_ERROR` is never answered |
| `Dropzone.Zone.constructor` | src/components/ui/multi-file.tsx:65 | the zone starts with no custom error |
| `Dropzone.NewEntries` | src/components/ui/multi-file.tsx:90-95 | one entry per dropped file, in order, each `PENDING` with its own key and no abort controller |
| `Dropzone.Zone.OnDrop` | src/components/ui/multi-file.tsx:80-99 | if a non-zero `maxFiles` is set and existing + dropped exceeds it, the too-many error is set and nothing is handed on; otherwise the error is cleared, the new entries go to `onFilesAdded` and the old list followed by them goes to `onChange` |
| `Dropzone.ZoneDisabled` | src/components/ui/multi-file.tsx:67-69 | a given `disabled` prop wins; without one, with a cap and a non-empty list, the zone is disabled exactly when a one-file drop would be refused; otherwise it is enabled |
| `Dropzone.RemoveAt` | src/components/ui/multi-file.tsx:174 | removing a valid index shortens the list by one and keeps the entries before and after it, in order; any other index leaves the list unchanged |
| `Dropzone.RemoveAtIsSplice` | src/components/ui/multi-file.tsx:174 | removal at `i` is the list without index `i` |
| `Dropzone.Control` | src/components/ui/multi-file.tsx:169-201 | the remove button appears exactly for `PENDING`; the error icon exactly for `ERROR`; the check mark exactly for `COMPLETE`; an abort button only for a numeric progress with a controller, disabled exactly at 100 |
| `Dropzone.ErrorMessage` | src/components/ui/multi-file.tsx:123-137 | no rejection gives no message; otherwise the first rejection's first code picks too-large (with `maxSize ?? 0`), invalid-type, too-many (with `maxFiles ?? 0`) or not-supported for any other or missing code |
| `Dropzone.MessageText` | src/components/ui/multi-file.tsx:45-58 | every message has a non-empty text, and the too-many-files text is the one the zone's own cap check sets |
| `Dropzone.TooManyFilesText` | src/components/ui/multi-file.tsx:52-54 | `ERROR_MESSAGES.tooManyFiles(maxFiles)`: the cap's numeral sits between the fixed prefix and suffix, where it can be read back (used by `TooManyFilesTextInjective`) |
| `Dropzone.TooManyFilesTextInjective` | src/components/ui/multi-file.tsx:52-54 | different caps are announced by different texts |
| `Dropzone.MessageTextIdentifies` | src/components/ui/multi-file.tsx:45-58 | equal texts come from the same kind of message with the same cap or the same formatted size limit |
| `Dropzone.AlertText` | src/components/ui/multi-file.tsx:151-153 | the alert is hidden exactly when there is no non-empty custom error and no rejection message; it shows the custom error when there is one, and otherwise the rejection's text |
| `Upload.UpdateFileState` | src/components/file/FileUpload.tsx:33-42 | length and order kept; entries with another key unchanged; each entry with the key takes exactly the fields that `changes` sets and keeps the rest |
| `Upload.ApplyReports` | src/components/file/FileUpload.tsx:62-63 | one keyed update per progress report, in order; the length, every entry's file and key, and every entry under another key are kept (the final progress is stated by `ApplyReportsPointwise`) |
| `Upload.RunUpload` | src/components/file/FileUpload.tsx:52-83 | every update made for one attempted upload: controller, reports, settling, then `COMPLETE` after a report of 100; it keeps the length, files and keys and touches no entry under another key (its effect is stated by `RunUploadPointwise`) |
| `Upload.Step` | src/components/file/FileUpload.tsx:50 | a non-pending entry is skipped and changes nothing; a pending one runs its upload, touching only entries under its key |
| `Upload.Batch` | src/components/file/FileUpload.tsx:48-85 | the fold of every entry's updates that `HandleUpload` is specified by; it never adds, drops, reorders or renames an entry (its per-entry effect is stated by `BatchIsPerEntry`) |
| `Upload.ApplyReportsPointwise` | src/components/file/FileUpload.tsx:62-63 | applying progress reports changes only the entries under the key, which end at the last report |
| `Upload.RunUploadPointwise` | src/components/file/FileUpload.tsx:52-83 | one upload's updates change only the entries under its key; each ends with a controller and its settled progress |
| `Upload.EntryAfter` | src/components/file/FileUpload.tsx:50-83 | reference entry: a non-pending entry is untouched; a pending one gets a controller and ends `COMPLETE` after a report of 100, else `PENDING` if aborted and `ERROR` if failed |
| `Upload.BatchPrefix` | src/components/file/FileUpload.tsx:48-85 | with distinct keys, the fold over the first `n` entries has replaced each of them by `EntryAfter` and left the rest alone |
| `Upload.BatchIsPerEntry` | src/components/file/FileUpload.tsx:48-85 | with distinct keys, the whole batch's list is `EntryAfter` applied to each entry of the snapshot |
| `Upload.BatchStep` | src/components/file/FileUpload.tsx:48-85 | extending the snapshot prefix by one entry adds exactly one step of the fold |
| `Upload.ResultsStep` | src/components/file/FileUpload.tsx:48-85 | extending the snapshot prefix by one entry appends exactly that entry's result |
| `Upload.FailureStep` | src/components/file/FileUpload.tsx:48-85 | extending the snapshot prefix by one entry keeps an earlier failure, or else records this entry's own failure |
| `Upload.PrefixStep` | src/components/file/FileUpload.tsx:48-85 | bundles `BatchStep`, `ResultsStep` and `FailureStep`: adding an entry to the snapshot prefix adds one fold step and one result; it keeps the first failure already found, or records this entry's failure |
| `Upload.ResultOf` | src/components/file/FileUpload.tsx:50-82 | an entry's value in `Promise.all`: non-null exactly for a pending entry whose upload succeeded, and then `{url: res.url, filename: file.name}`; null for a skipped (line 50) or aborted (line 82) entry; a failed entry rejects instead (line 80), which `FirstFailure` records, and the null the model gives it is a placeholder that is never sent |
| `Upload.Results` | src/components/file/FileUpload.tsx:49-85 | one result per entry; it is non-null exactly for a pending entry whose upload succeeded, so skipped and aborted entries give null; a non-null result is `{url: res.url, filename: file.name}`; a failed entry's null is a placeholder, since its rejection makes the batch fail and `HandleUpload` then sends nothing |
| `Upload.FirstFailure` | src/components/file/FileUpload.tsx:76-85 | the batch fails exactly when some pending entry's upload fails other than by an abort; then it fails with the first such entry's error |
| `Upload.Somes` | src/components/file/FileUpload.tsx:86-88 | the filtered list is empty exactly when every result is null |
| `Upload.SomesAppend` | src/components/file/FileUpload.tsx:86-88 | filtering distributes over concatenation, so it keeps list order |
| `Upload.PayloadExtends` | src/components/file/FileUpload.tsx:86-96 | the create-link payload grows entry by entry in the original order |
| `Upload.OneUploadedOneCancelled` | src/components/file/FileUpload.tsx:48-96 | two pending files, one uploaded and one cancelled: the batch does not fail, the payload is the uploaded file alone, and the cancelled file is pending again |
| `Upload.Payload` | src/components/file/FileUpload.tsx:86-88 | `results.filter(r => r !== null)`: at most one file per entry, and empty exactly when no pending file was uploaded (values and order stated by `PayloadExtends`) |
| `Upload.EntryJson` | src/components/file/FileUpload.tsx:96 | one `{url, filename}` object as the handler parses it: a valid entry exactly when the URL is accepted and the name is non-empty, and then it reads back as the same file |
| `Upload.PayloadJson` | src/components/file/FileUpload.tsx:96 | `{files: [...]}` with one `EntryJson` object per file, in order (its acceptance is stated by `PayloadRoundTrip`) |
| `Upload.PayloadRoundTrip` | src/components/file/FileUpload.tsx:91-97 | the body the page sends passes the handler's schema exactly when it is non-empty and every entry has a URL and a non-empty name; the handler then reads back the same files in the same order |
| `Upload.ShareUrl` | src/components/file/FileUpload.tsx:105 | the link is the origin, then `/share/`, then the share id |
| `Upload.ShareUrlInjective` | src/components/file/FileUpload.tsx:105 | different share ids give different links |
| `Upload.RejectedText` | src/components/file/FileUpload.tsx:101-103 | a non-empty server message is shown as it is; the default text `"Failed to create share link"` appears exactly when the message is missing, empty or that text itself |
| `Upload.ThrownText` | src/components/file/FileUpload.tsx:110 | an `Error` shows its own message; any other thrown value shows `"Failed to upload files"` |
| `Upload.PendingCount` | src/components/file/FileUpload.tsx:123-125 | the count is at most the list length; 0 exactly when no entry is pending; the full length exactly when all are |
| `Upload.PendingCountAppend` | src/components/file/FileUpload.tsx:123-125 | the count of two lists put together is the sum of their counts |
| `Upload.PendingCountRemoveAt` | src/components/file/FileUpload.tsx:123-125 | removing a pending entry lowers the count by one; removing any other entry leaves it unchanged |
| `Upload.DropAddsPending` | src/components/file/FileUpload.tsx:154-156 | every accepted dropped file adds one to the pending count |
| `Upload.CompletedBatchLeavesNothingPending` | src/components/file/FileUpload.tsx:62-67 | with distinct keys, a batch where every pending upload reached 100% leaves nothing pending |
| `Upload.Uploader.constructor` | src/components/file/FileUpload.tsx:25-30 | initial state: no files, no error, no link, not uploading, upload box shown |
| `Upload.Uploader.AddFiles` | src/components/file/FileUpload.tsx:154-156 | the dropzone's new entries are appended; nothing else changes |
| `Upload.Uploader.Drop` | src/components/file/FileUpload.tsx:147-156 | only while the upload box shows the zone (FileUpload.tsx:145), a drop onto it (cap 5, no `disabled` prop): when the list is full the zone is disabled and nothing changes; otherwise a drop that would exceed the cap leaves the list as it was and sets the too-many-files error, and any other drop appends one pending entry per file and clears the error; a list within the cap stays within it |
| `Upload.Uploader.RemoveFile` | src/components/ui/multi-file.tsx:169-176 | only while the upload box shows the zone, the remove button of a pending entry leaves the list without that entry and lowers the pending count by one; nothing else changes |
| `Upload.Uploader.UploadOne` | src/components/file/FileUpload.tsx:49-83 | a non-pending entry is skipped; a pending one goes through the fold's keyed updates; the method returns its result and any non-abort error |
| `Upload.Uploader.HandleUpload` | src/components/file/FileUpload.tsx:44-114 | the new list is the batch fold; uploading ends false; a failed batch sets the first error's text and makes no request; no successes means no request and no error; otherwise create-link gets exactly the successes in order, and the outcome is an error text (fetch failure or non-ok answer) or `<origin>/share/<id>` with the upload box hidden |
| `Upload.Uploader.Conclude` | src/components/file/FileUpload.tsx:86-113 | a failed batch sets its error text and makes no request; with no successes there is no request and no error; otherwise the successes are sent and the answer sets an error text or the link with the box hidden; uploading ends false |
| `Upload.Uploader.HandleReset` | src/components/file/FileUpload.tsx:116-121 | the list, the link and the error are cleared, the upload box is shown, and nothing is pending |

## Left out

- The rate limiter's sliding window lives in the limiter library and is not modelled. The limiter is a function input. `RateLimitRequests` and `RateLimitWindowSeconds` keep its configuration (src/lib/redis.ts:12) as constants only.
- The WHATWG URL parser behind zod's `.url()` is not modelled. The URL check is a function input, `isUrl`.
- `nanoid(10)` is an input (`freshId`), assumed to be ten URL-safe symbols. Id collisions are not detected: the store write is a blind overwrite, as in the source.
- `Math.random` keys for new entries are an input. `UpdateFileState` is stated for every entry that matches the key. The per-entry batch lemmas assume distinct keys.
- Concurrency and timing are not modelled. This covers the `Promise.all` fan-out, `AbortController` signalling, the 1000 ms pause before `COMPLETE` and the 2000 ms copy toast. Per-file events are applied in list order.
- JSON text, ISO date strings, `fetch`, `Response` and the `Content-Type` header are not modelled. A body is a parsed `Json` value (numbers are integers). Times are integer milliseconds. The answer the page receives is a `LinkReply` input.
- JavaScript string length counts UTF-16 code units. Dafny strings here count characters. This changes nothing for `filename.min(1)`.
- `Math.round` of fractional progress is display only. Progress is a whole percentage from 0 to 100.
- `formatFileSize` is foreign, so `MessageText` takes it as a parameter.
- The size, type and count filtering inside react-dropzone is not modelled. The files it accepts (`dropped`) and the rejections it produces are inputs. So the page's `maxSize` of 4 MiB appears only through those rejections. The library's own `maxFiles` filter, which hands `onDrop` an empty list when a drop holds more files than the cap, is not modelled either.
- Decimal: stated for safe integers only (below 2^53); above that JavaScript prints a rounded or exponent form, which the limiter's counts and reset times never reach.
- The `console.error` logging in the handler's catch block is not modelled.
- `handleCopyShareLink` and the clipboard are not modelled, and neither is `copySuccess`.
- JSX rendering, CSS classes and icons are not modelled. This covers src/app/page.tsx, src/components/nav.tsx, src/components/file/QrCodeDialog.tsx, src/components/file/FileDownload.tsx and `handleDownload` in src/lib/redis.ts. Client construction from environment settings is not modelled either. Two parts of the rendering are kept. One is the choice of control for each entry (`Control`, src/components/ui/multi-file.tsx:169-201). The other is the alert's show/hide condition and text (`AlertText`, src/components/ui/multi-file.tsx:151-155).
- Share resolution and expiry on read (src/app/share/[id]/page.tsx) are not part of this model.
