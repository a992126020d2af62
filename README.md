# Email task scheduler: task lifecycle model

This project models the core of an email scheduling service, `api/server.js`.
A caller submits an email task, either to send now or at a civil date-time in
Brazil's fixed −03:00 offset. Tasks are stored in the `agendamentos`
collection. A periodic scan dispatches the due tasks through an email delivery
API. Tasks can be listed in a history, marked complete (`concluida`) or
deleted.

- `tasks.dfy` (module `Tasks`) holds the task record and its five statuses:
  `pendente`, `processando`, `enviado`, `erro` and `concluida`.
  - `WellFormed` says which optional fields a task carries in each status.
  - `Evolves` says what no operation may do: change a request field, or move
    a status backwards (`Rank`, `Advances`).
- `mail.dfy` (module `Mail`) holds the newline-to-`<br>` rewrite of the body,
  the two substitution points of the HTML template, the dispatch mail and the
  completion follow-up mail.
- `lifecycle.dfy` (module `Lifecycle`) gives each operation as a pure
  transition over the collection, a `map<Id, Task>`. The operations are
  submit, dispatch, due scan, conclude and delete. The lemmas about them live
  here too.
- `history.dfy` (module `History`) lists the collection in insertion order.
  It also holds the history query (filter, sort on `criadoEm`, limit 50) and
  the scan's snapshot filter.
- `store.dfy` (module `Store`) has the class `TaskStore`. It holds the
  collection as a `map` field that the handlers update in place. Each handler
  is proved to leave exactly the collection that its `Lifecycle` transition
  gives, and to keep `Valid()`. `Valid()` says every stored id is below
  `nextId` and every task is `WellFormed`. The scan is a `for` loop over the
  snapshot, with a loop invariant.

The model makes these choices:

- Instants are integers in milliseconds since the epoch.
- The clock is a `now` or `agora` parameter.
- Each answer from the delivery API is an injected `SendOutcome`,
  `Ok(messageId)` or `Err(msg)`. The scan takes one answer per task id.
- Store ids come from a counter, `nextId`. So id order is insertion order,
  and the collection's natural order is id order.
- Missing request fields and missing query parameters are the empty string,
  matching the source's truthiness tests.
- The id route parameter is already classified as a well-formed object id or
  not (`IdParam`).

In these places the model follows the code as written:

- Conclude marks a task `concluida` from any status, not only from
  `enviado`. So a `concluida` task may lack `dataEnvio` and
  `mailgunMessageId`, and `WellFormed` puts no constraint on them there.
- The follow-up mail also needs a non-empty stored message id, not only the
  prior status `enviado`.
- The scan returns nothing.
- A send-now task's scheduled time is the submit time.
- In the completion-mail error handler, the line at `api/server.js:341` is
  modelled as the evident intent: errors from the completion mail are
  swallowed and change nothing.

## Model

| member | source | states |
|---|---|---|
| `Lifecycle.NewTask` | api/server.js:57-78 | The inserted record copies the four request fields and has `criadoEm = now`. Send-now tasks start `processando` with `dataAgendada = now`. Scheduled tasks start `pendente` with `dataAgendada` = civil time + 180 minutes. No dispatch or error field is set. |
| `Lifecycle.AfterSubmit` | api/server.js:50-92 | If any of the four required fields is empty, the collection is unchanged. Otherwise exactly one task is added under the new id and every existing task is unchanged. A send-now task is stored as the new task with the outcome `o` recorded on it (`Delivered`), so it is already `enviado` or `erro` on return. A scheduled task is stored as the new task: `pendente` at the shifted time. |
| `Lifecycle.SubmitReplyFor` | api/server.js:51-92 | The reply is "missing fields" exactly when a required field is empty, and the fixed "saved" reply otherwise. It does not carry the new id and does not depend on the dispatch outcome. |
| `Lifecycle.SubmitPreservesInvariants` | api/server.js:70-87 | Submit keeps every task well-formed and changes no existing task's request fields or status. |
| `Lifecycle.ScheduledTaskWaits` | api/server.js:383-386 | A task scheduled after the next scan's `agora` is still `pendente` after that scan. |
| `Lifecycle.Delivered` | api/server.js:354-372 | On `Ok(id)` the task becomes `enviado` with `dataEnvio = now` and `mailgunMessageId = id`. On `Err(m)` it becomes `erro` with `erroMsg = m`. No other field changes, and a well-formed `processando` task stays well-formed. |
| `Lifecycle.Dispatched` | api/server.js:357-371 | Dispatch updates only the task with the given id, and keeps the set of ids. |
| `Lifecycle.AfterScan` | api/server.js:382-396 | Every task that was `pendente` with `dataAgendada <= agora` is claimed and then gets its dispatch outcome. Every other task is unchanged, and no task is added or removed. |
| `Lifecycle.ScanSettlesExactlyTheDue` | api/server.js:382-396 | The scan changes a task if and only if it was due. Each due task ends `enviado` or `erro`, and no task is due afterwards. |
| `Lifecycle.ScanPreservesInvariants` | api/server.js:390-396 | The scan keeps every task well-formed and only moves statuses forward. |
| `Lifecycle.ConcludeOutcome` | api/server.js:140-159 | A malformed id is rejected and an unknown id is not found. A task already `concluida` gets "already concluded". Otherwise the task is concluded, with a follow-up mail if and only if it was `enviado` with a non-empty message id. That follow-up is the completion message for the task. |
| `Lifecycle.ConcludeFound` | api/server.js:148-158 | For an existing task: "already concluded" if and only if its status is `concluida`, and a follow-up if and only if it was `enviado` with a non-empty message id. |
| `Lifecycle.AfterConclude` | api/server.js:144-154 | Only the named task changes, and only its status, which becomes `concluida`. Any other input leaves the collection unchanged. |
| `Lifecycle.ConcludeIdempotent` | api/server.js:148-155 | Concluding twice gives the same collection as concluding once. The second call never concludes anything, so the follow-up is sent at most once. |
| `Lifecycle.ConcludePreservesInvariants` | api/server.js:151-154 | Conclude keeps every task well-formed and only moves statuses forward. |
| `Lifecycle.DeleteOutcome` | api/server.js:172-179 | A malformed id is rejected. The reply is "deleted" if and only if the id is stored, and "not found" otherwise. |
| `Lifecycle.AfterDelete` | api/server.js:176 | Delete removes exactly the given id and leaves every other task unchanged. |
| `Lifecycle.DeleteThenNotFound` | api/server.js:140-179 | After a delete, both conclude and delete report "not found" for that id. |
| `Mail.FormatMessage` | api/server.js:206 | The formatted body contains no newline. |
| `Mail.FormatMessageLength` | api/server.js:206 | The formatted body is longer than the original by 3 per newline. |
| `Mail.FormatMessageAppend` | api/server.js:206 | The rewrite distributes over concatenation, so it works character by character. |
| `Mail.FormatMessageChar` | api/server.js:206 | A newline becomes `<br>` and any other character is kept. With `FormatMessageAppend`, this fixes the output for every body. |
| `Mail.FormatMessageKeepsPlainText` | api/server.js:206 | A body without newlines is unchanged. |
| `Mail.Template` | api/server.js:205-207 | The template's heading is the subject. Its paragraph is `FormatMessage` of the body, so it contains no newline. |
| `Mail.DispatchMessage` | api/server.js:346-353 | The dispatch mail comes from the task's sender name at the configured origin address and goes to the task's recipient, with its subject and its plain-text body. Its HTML shows the subject and the formatted body, and it has no reply headers. |
| `Mail.ReplySubject` | api/server.js:324 | The follow-up subject starts with the four characters `Re: `, and the original subject follows them. |
| `Mail.CompletionMessage` | api/server.js:323-335 | The follow-up comes from the task's sender name at the configured origin address and goes to the task's recipient with subject `"Re: " + assunto`. Its text is the fixed completion sentence quoting the subject, and its HTML is the template over that subject and text. In-Reply-To and References both equal the stored message id, which threads the follow-up as section 3.6.4 of RFC 5322 describes. |
| `History.Collection` | api/server.js:122-123 | The collection's records appear in strictly increasing id order. Every stored task appears, each with its stored fields. |
| `History.Where` | api/server.js:107-117 | A record is kept if and only if it is in the input and its task satisfies the filter. |
| `History.WhereKeepsOrder` | api/server.js:383-386 | Filtering keeps the records' order, so the scan snapshot has distinct ids. |
| `History.WhereSubMultiset` | api/server.js:107-122 | Filtering only drops records. It never repeats one. |
| `History.DueSnapshot` | api/server.js:383-386 | The snapshot holds exactly the stored tasks that are `pendente` with `dataAgendada <= agora`, in id order. |
| `History.Lower` | api/server.js:112 | Case folding keeps the length and folds each character on its own. |
| `History.InsertSorted` | api/server.js:124 | Inserting one record into a sorted sequence keeps it sorted. |
| `History.SortByCreation` | api/server.js:118-124 | The result is sorted on `criadoEm` in the requested direction, and is a permutation of the input. |
| `History.FirstMatchesAreFirst` | api/server.js:122-126 | The result keeps only matching records, in order, and holds no record more often than the input does. It has exactly min(matches, 50) records. Every matching record left out comes after every record kept, and below the limit every matching record is kept. |
| `History.Listing` | api/server.js:125 | A history listing has at most 50 records. |
| `History.ListingSelectsFirstMatches` | api/server.js:106-126 | The listing holds only records that match the status and search filters. It is ordered by `criadoEm`: ascending if and only if `sort` is `antigos`, descending otherwise. It holds no record more often than the collection does, and has exactly min(matches, 50) records. These are the first 50 matches in that order, or all of them when fewer match. |
| `History.StatusFilterExact` | api/server.js:108-110 | With a status filter, every listed task has that status. When fewer than 50 are listed, every task with that status is listed. |
| `History.DeletedTaskNotListed` | api/server.js:176 | After a delete, no listing contains the deleted id. |
| `Store.TaskStore.Dispatch` | api/server.js:344-373 | Returns the mail handed to the delivery API. Leaves the collection as `Dispatched` gives for the outcome, and keeps the store valid. |
| `Store.TaskStore.Submit` | api/server.js:45-98 | Replies as `SubmitReplyFor` says, whatever the dispatch outcome. Leaves the collection as `AfterSubmit` gives under the old `nextId`, and advances `nextId` by one exactly when a task was inserted. Keeps the store valid. |
| `Store.TaskStore.ClaimAndDispatch` | api/server.js:390-396 | Sets the task to `processando`, then records its dispatch outcome. No other task changes. |
| `Store.TaskStore.RunDueScan` | api/server.js:377-400 | A loop over the snapshot leaves the collection as `AfterScan` gives, and keeps the store valid. |
| `Store.TaskStore.Conclude` | api/server.js:135-164 | Replies as `ConcludeOutcome` says, leaves the collection as `AfterConclude` gives, and keeps the store valid. |
| `Store.TaskStore.Delete` | api/server.js:167-186 | Replies as `DeleteOutcome` says, leaves the collection as `AfterDelete` gives, and keeps the store valid. |
| `Store.TaskStore.ListHistory` | api/server.js:101-132 | Answers the listing of the current collection. Every record shown is a stored task that matches the query. |

## Left out

- HTTP routing, CORS and body parsing, and the status codes of the replies, are framework I/O. Each handler returns a reply value in their place. The `/api/cron` endpoint only calls the scan.
- The database connection, `process.exit` and the `if (!db)` guards are not modelled. Store failures (the 500 replies) are not modelled either: every store call succeeds.
- The delivery API client and its network calls are replaced by injected `SendOutcome` values. The completion follow-up's outcome is ignored, as in the source, so it is not a parameter.
- The parsing of `dataAgendada + "-03:00"` is not modelled. The civil time arrives as milliseconds read as if it were UTC, and the model adds the 180-minute offset. A malformed date string, which the source stores as an invalid date, is not modelled.
- Each handler reads the clock once. The source calls `new Date()` separately for `dataAgendada`, `criadoEm` and `dataEnvio`. In the scan, `dataEnvio` is the scan's `agora`.
- Lifecycle.NewTask: the send-now `dataAgendada` and `criadoEm` are both `now`, where the source may differ by the milliseconds between two clock reads.
- The search filter is a case-insensitive substring test on `assunto` or `destinatario`. Regular-expression metacharacters are not modelled, and case folding covers only ASCII letters.
- Among records with equal `criadoEm`, the database's order is unspecified. The model keeps insertion order there, and no property depends on it.
- The object-id syntax check is abstracted: the route parameter arrives classified as `IdParam`.
- Request values that are not strings are not modelled. Fields are strings, and a missing one is empty.
- The static HTML and CSS of the template are not modelled. Only its two substitution points, the subject heading and the formatted body, are modelled. Console logging is left out too.
- The race between two concurrent scans is not modelled. The scan is one sequential call.
