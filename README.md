# Email client: a verified model

This project models the logic of a small email client with three parts.

- **The server's `emails` routes** (FastAPI over SQLite). The table is a class holding a map from id to stored row and the AUTOINCREMENT counter. It has five routes:
  - a filtered list, newest first;
  - fetching one email;
  - creating an email, with preview truncation and the default avatar;
  - a partial update built as a SET list;
  - deleting an email.
- **The client's state controller** (`EmailApp`). This covers the fetched list, the selection, the filter tab, the loading flag and the search box. It includes the query parameters each tab sends, the case-insensitive search, and the select, mark-as-read, archive and delete handlers.
- **The detail pane's reply composer** (`EmailDetail`). This covers the whitespace guard, the reply it posts, how its state changes with the outcome, and the mark-as-read toggle.

The client sends its requests over HTTP. In the model, every network call is a `Request` value that the handler returns. What the call came back with is an `Outcome` parameter: `Success(value)`, `Rejected` (a response whose `ok` is false) or `Threw`. `updateEmail` acts on `response.ok` before it reads the body, so a PUT comes back as a `PutOutcome` instead: `Accepted(body)` for a 2xx response, where `body` is `None` when reading it throws; `Refused` when `ok` is false; or `Failed` when the fetch throws. The module `EndToEnd` connects the two sides. It shows:

- which server parameters the client's query strings bind to;
- which records the server then stores and lists.

Modules:

- `Wrappers`: `Option` and `Result`.
- `Text`: ASCII lower-casing, substring search, lexicographic order and JavaScript `trim`.
- `Seqs`: `filter`.
- `Mail`: the JSON email record.
- `Wire`: requests, query parameters and error statuses.
- `EmailRoutes`, `EmailApp`, `EmailDetail` and `EndToEnd`: the parts described above.

The stored row keeps `is_read` and `is_archived` as the integers 0 and 1, as SQLite does. `ToDict` turns them into booleans, like `bool(row[9])`.

After an update or a delete the client refetches the whole list; selecting an email does not fetch it again.

## Model

| member | source | states |
|---|---|---|
| EmailRoutes.ToDictRoundTrip | backend/app/routes/emails.py:12-44 | `to_dict` loses nothing of a well-formed row (0/1 flags), and every response object is the image of exactly one well-formed row |
| EmailRoutes.Preview | backend/app/routes/emails.py:119 | a body of at most 100 characters is its own preview; a longer one gives a 103-character preview: the first 100 characters of the body followed by "..." |
| EmailRoutes.PreviewIdempotent | backend/app/routes/emails.py:173 | taking the preview of a preview changes nothing |
| EmailRoutes.WhereIsShown | backend/app/routes/emails.py:56-67 | the three WHERE clauses, `unread_only` winning over `archived_only`, are exactly the rules "unread and unarchived", "archived" and "unarchived" |
| EmailRoutes.TableScan | backend/app/routes/emails.py:69 | the scan contains exactly the rows stored under the ids of the range |
| EmailRoutes.TableScanDistinct | backend/app/routes/emails.py:69 | a scan lists every row once and only rows at or above its start id |
| EmailRoutes.InsertMultiset | backend/app/routes/emails.py:58 | inserting adds exactly the one row and loses none |
| EmailRoutes.InsertNewestFirst | backend/app/routes/emails.py:58 | inserting into a newest-first list keeps it newest first |
| EmailRoutes.InsertDistinct | backend/app/routes/emails.py:58 | inserting a row with a new id keeps ids distinct |
| EmailRoutes.OrderByCreatedDescSorted | backend/app/routes/emails.py:58-66 | `ORDER BY created_at DESC` gives a newest-first permutation of its input |
| EmailRoutes.OrderByCreatedDescDistinct | backend/app/routes/emails.py:58-66 | sorting keeps the ids of the rows distinct |
| EmailRoutes.FilterDistinct | backend/app/routes/emails.py:56-67 | a WHERE filter keeps ids distinct |
| EmailRoutes.ListingFacts | backend/app/routes/emails.py:47-72 | a listing holds each stored email the filter admits, only such emails, each once, ordered by `created_at` non-increasing |
| EmailRoutes.ListingSound | backend/app/routes/emails.py:56-72 | every listed email is a stored row, returned as that row's response object, and the tab's filter admits it |
| EmailRoutes.ListingComplete | backend/app/routes/emails.py:56-72 | every stored row that the tab's filter admits is listed |
| EmailRoutes.ListingOrdered | backend/app/routes/emails.py:56-72 | a listing names each id once and runs from newest to oldest `created_at` |
| EmailRoutes.AvatarOrDefault | backend/app/routes/emails.py:115 | a missing or empty avatar becomes "📧"; any other avatar is kept |
| EmailRoutes.CreatedIsListed | backend/app/routes/emails.py:104-110 | a newly inserted email is listed under the All and Unread filters and not under Archive, and the table invariant still holds |
| EmailRoutes.DeletedIsNotListed | backend/app/routes/emails.py:202 | a deleted id appears in no listing, and the rest of the table still meets the invariant |
| EmailRoutes.UpdatedRowFields | backend/app/routes/emails.py:153-183 | an update changes exactly the supplied flags, subject and body. A supplied body also sets the preview by the create rule. `updated_at` changes only when something was supplied. With nothing supplied the row is untouched. 0/1 flags are preserved |
| EmailRoutes.BuildUpdates | backend/app/routes/emails.py:153-178 | the SET list built by successive appends is empty exactly when nothing was supplied, and running it on the stored row gives the row `UpdatedRow` describes |
| EmailRoutes.OptionalBool | backend/app/routes/emails.py:138-139 | an absent parameter binds to None, "true"/"false" bind to that boolean, and any other value is answered 422 |
| EmailRoutes.BindList | backend/app/routes/emails.py:49-50 | binding succeeds exactly when both flags bind; each flag is true exactly when it was sent as "true", and false when absent |
| EmailRoutes.BindUpdate | backend/app/routes/emails.py:137-141 | binding succeeds exactly when both flags bind; the flags bind as `OptionalBool` says, and subject and body are the values sent, or None |
| EmailRoutes.BindCreate | backend/app/routes/emails.py:90-97 | binding succeeds exactly when all five required query parameters are present; each bound field is the value sent under its name, and the avatar and attachments are the values sent, or None |
| EmailRoutes.EmailTable.constructor | backend/migrations/002_create_emails_table.py:13 | an empty table whose AUTOINCREMENT counter hands out 1 first |
| EmailRoutes.EmailTable.GetEmails | backend/app/routes/emails.py:47-72 | `count` is the number of emails returned. Every stored email the filter admits is returned, only such emails, each once, newest first |
| EmailRoutes.EmailTable.GetEmail | backend/app/routes/emails.py:75-86 | the stored email exactly when the id is present, otherwise 404 |
| EmailRoutes.EmailTable.CreateEmail | backend/app/routes/emails.py:89-132 | stores one new row under the fresh id the counter hands out, and changes nothing else. The row is unread and unarchived, has equal `created_at`/`updated_at`, the truncated preview and the defaulted avatar, and it is returned |
| EmailRoutes.EmailTable.UpdateEmail | backend/app/routes/emails.py:135-187 | 404 with the table unchanged for a missing id; otherwise only that row changes, to `UpdatedRow`, and the stored result is returned |
| EmailRoutes.EmailTable.DeleteEmail | backend/app/routes/emails.py:190-205 | 404 with the table unchanged for a missing id; otherwise exactly that id is removed |
| Wire.HttpError.Status | backend/app/routes/emails.py:84 | a missing email is answered 404 and an unbindable request 422 |
| Wire.LookupMeaning | backend/app/routes/emails.py:91-97 | a parameter is found exactly when some pair carries its name, and the value found is that of the first such pair |
| Wire.ParseBool | backend/app/routes/emails.py:138-139 | a parsed boolean is one whose spelling was sent |
| Wire.BoolTextRoundTrip | frontend/app/EmailApp.tsx:71-72 | `String(b)` on the client parses back on the server to b |
| Text.Lower | frontend/app/EmailApp.tsx:116-118 | `toLowerCase` keeps the length and leaves no capital letter: each capital becomes the letter 32 code points above it, every other character is kept |
| Text.Upper | frontend/app/EmailApp.tsx:116-118 | a helper for SearchIgnoresCase, not a model of these lines (they only lower-case): upper-casing keeps the length and leaves no small letter |
| Text.LowerForgetsCase | frontend/app/EmailApp.tsx:116-118 | lower-casing an upper-cased string gives the same as lower-casing the string |
| Text.IncludesIffOccurs | frontend/app/EmailApp.tsx:116-118 | `includes` holds exactly when the query occurs at some position |
| Text.EmptyIncluded | frontend/app/EmailApp.tsx:116-118 | every string includes the empty query |
| Text.LexLeTotal | backend/app/routes/emails.py:58 | any two `created_at` values are ordered one way or the other |
| Text.LexLeTransitive | backend/app/routes/emails.py:58 | the `created_at` order is transitive |
| Text.TrimStart | frontend/app/components/EmailDetail.tsx:34 | removes exactly the leading whitespace: the result is a suffix that does not start with whitespace |
| Text.TrimEnd | frontend/app/components/EmailDetail.tsx:34 | removes exactly the trailing whitespace: the result is a prefix that does not end with whitespace |
| Text.TrimEmptyIff | frontend/app/components/EmailDetail.tsx:34 | `trim()` is empty exactly when the text is empty or only whitespace |
| Seqs.Filter | frontend/app/EmailApp.tsx:114 | a filtered list is no longer than its input |
| Seqs.FilterIsSubsequence | frontend/app/EmailApp.tsx:114-119 | filtering keeps elements in their order |
| Seqs.FilterMembers | frontend/app/EmailApp.tsx:114-119 | an element survives exactly when it is in the input and satisfies the predicate |
| Seqs.FilterAll | frontend/app/EmailApp.tsx:114-119 | filtering with a predicate every element satisfies returns the input |
| Seqs.FilterMultiset | frontend/app/EmailApp.tsx:114-119 | filtering keeps every copy of an element that satisfies the predicate and no copy of one that does not |
| EmailApp.BuildListParams | frontend/app/EmailApp.tsx:43-45 | All sends no parameter, Unread only `unread_only=true`, Archive only `archived_only=true` |
| EmailApp.BuildUpdateParams | frontend/app/EmailApp.tsx:70-72 | one parameter per defined flag, in the order is_read, is_archived |
| EmailApp.FilteredEmails | frontend/app/EmailApp.tsx:114-119 | an order-preserving subsequence of the list holding exactly the emails that match the search, each as many times as in the list; an empty query keeps the whole list |
| EmailApp.MatchesSearchMeaning | frontend/app/EmailApp.tsx:114-119 | an email matches exactly when the lower-cased query occurs in its lower-cased subject, sender name or preview |
| EmailApp.SearchIgnoresCase | frontend/app/EmailApp.tsx:116-118 | for every email and query: upper-casing the query, or the email's subject, sender name and preview, does not change whether it matches |
| EmailApp.AppState.constructor | frontend/app/EmailApp.tsx:28-33 | the initial state: empty list, nothing selected, the All tab, loading, empty search |
| EmailApp.AppState.VisibleEmails | frontend/app/EmailApp.tsx:132 | the list pane shows a subsequence of the fetched emails |
| EmailApp.AppState.FetchEmails | frontend/app/EmailApp.tsx:40-55 | requests the active tab's list. A fetch that throws leaves the list as it was, a successful one replaces it. `loading` ends false both ways and nothing else changes |
| EmailApp.AppState.ChangeFilter | frontend/app/EmailApp.tsx:36-38 | a new tab is fetched; choosing the current tab issues no request and changes nothing |
| EmailApp.AppState.SetSearchQuery | frontend/app/EmailApp.tsx:126 | only the search text changes |
| EmailApp.AppState.CompleteUpdate | frontend/app/EmailApp.tsx:78-84 | after a 2xx PUT the list is always refetched. The selection becomes the returned record exactly when the checked selection has the updated id and the body reads; an unreadable body leaves the selection as it was. A refused or failed PUT changes nothing |
| EmailApp.AppState.UpdateEmail | frontend/app/EmailApp.tsx:65-88 | sends only the defined flags. A 2xx response refetches, even when its body then fails to read, and a readable body replaces a matching selection. A refused or failed PUT leaves the state unchanged |
| EmailApp.AppState.HandleEmailSelect | frontend/app/EmailApp.tsx:57-63 | the selection becomes the email; a mark-read PUT is sent exactly when it is unread; after a 2xx PUT, the list is refetched and the returned (read) record becomes the selection; the clicked email stays selected if the body fails to read; nothing else changes |
| EmailApp.AppState.HandleEmailSelectAsWritten | frontend/app/EmailApp.tsx:57-63 | as the component runs it: after a 2xx PUT the list is refetched. The returned record becomes the selection only if the email open before the click had the same id and the body reads. Otherwise the clicked email stays selected, still unread |
| EmailApp.AppState.HandleArchiveEmail | frontend/app/EmailApp.tsx:90-95 | sends `is_archived=true`; the selection is cleared exactly when it has the archived id and is otherwise left alone; a 2xx PUT also refetches the list, and its body is never read; nothing else changes |
| EmailApp.AppState.HandleArchiveEmailAsWritten | frontend/app/EmailApp.tsx:90-95 | as the component runs it: after a 2xx PUT the list is refetched, and a selection with the archived id becomes the returned, archived record when the body reads. When the body does not read, or the PUT is refused or fails, that selection stays cleared. Nothing else changes |
| EmailApp.AppState.HandleDeleteEmail | frontend/app/EmailApp.tsx:97-112 | a matching selection is cleared only after a successful DELETE, together with a refetch; a failure changes nothing |
| EmailApp.AppState.OnMarkAsRead | frontend/app/EmailApp.tsx:144 | updates the read flag of the selected email. After a 2xx PUT the list is refetched, and the returned record becomes the selection when the body reads; otherwise the selection is kept. A refused or failed PUT changes nothing |
| EmailDetail.MarkAsReadArgument | frontend/app/components/EmailDetail.tsx:76 | the button passes the negation of the current read flag |
| EmailDetail.ReplyComposer.constructor | frontend/app/components/EmailDetail.tsx:30-31 | the composer starts hidden with empty text |
| EmailDetail.ReplyComposer.OpenReply | frontend/app/components/EmailDetail.tsx:185 | the Reply button shows the composer and keeps the text |
| EmailDetail.ReplyComposer.CloseReply | frontend/app/components/EmailDetail.tsx:137 | the close button hides the composer and keeps the text |
| EmailDetail.ReplyComposer.SetReplyText | frontend/app/components/EmailDetail.tsx:150 | typing replaces the text and nothing else |
| EmailDetail.ReplyComposer.HandleSendReply | frontend/app/components/EmailDetail.tsx:33-60 | empty or whitespace-only text sends nothing and changes nothing. Otherwise the reply is posted. Success clears the text and hides the composer; failure or an exception leaves both as they were |
| EndToEnd.ListQuerySelectsTab | frontend/app/EmailApp.tsx:43-45 | each tab's query binds on the server to the filter that lists exactly the emails the tab is meant to show |
| EndToEnd.UpdateQueryBinds | frontend/app/EmailApp.tsx:70-72 | the server reads back exactly the flags the client defined, and no subject or body |
| EndToEnd.ReplySenderLookup | frontend/app/components/EmailDetail.tsx:43-48 | the reply carries sender name "You", sender email "richard@company.com", avatar "👤" and no attachments |
| EndToEnd.ReplyMessageLookup | frontend/app/components/EmailDetail.tsx:45-47 | the reply carries the original sender as recipient, "Re: " plus the original subject, and the typed text as body |
| EndToEnd.ReplyAsWrittenIsRejected | frontend/app/components/EmailDetail.tsx:37-50 | the reply as posted puts its fields in the form body, so `create_email` finds no query parameters and answers 422 |
| EndToEnd.ReplyIsStoredAsAddressed | frontend/app/components/EmailDetail.tsx:42-49 | sent in the query string, a reply is stored unread and unarchived. It goes from the fixed sender to the original sender, with subject "Re: " plus the original's and the typed text as body |
| EndToEnd.MarkAsReadTwiceRestores | frontend/app/components/EmailDetail.tsx:76 | pressing mark-as-read twice restores the read flag; the row then differs from the original only in `updated_at` |
| EndToEnd.ArchiveMovesToArchiveTab | frontend/app/EmailApp.tsx:90-91 | after the archive PUT the email leaves the All and Unread tabs, appears under Archive, and keeps its read flag |

## Left out

- HTTP, FastAPI routing, SQLite connections and SQL text. Requests are values and outcomes are parameters. The table is a map.
- Clocks: `datetime.utcnow().isoformat() + "Z"` and `datetime.now().strftime(...)` are input strings (`now`, `dateTime`).
- Async interleaving in general. Each handler is one sequential transition that is given the outcomes of its calls. The two stale closures that change an outcome, in the select and archive handlers, are kept under "## Findings".
- Lower-casing is ASCII only. `toLowerCase` on other Unicode letters is not modelled.
- EmailApp.AppState.FetchEmails: a response whose `ok` is false is treated like a thrown fetch and keeps the list. The component would store the missing `data.emails` (undefined). The server's list route cannot fail for the parameters the client sends.
- Ids are unbounded integers. The 64-bit rowid limit (SQLITE_FULL) is not modelled.
- EmailRoutes.OrderByCreatedDesc: rows with equal `created_at` keep rowid order. SQLite leaves that order unspecified.
- `created_at` is compared character by character. This matches SQLite's BINARY collation on ASCII timestamps.
- EmailRoutes.OptionalBool: the model binds a boolean only from "true" and "false", which are all the client sends. FastAPI also accepts other spellings ("1", "yes", "on", …); those are not modelled, nor is the per-parameter error detail of a 422.
- Wire.LookupMeaning (Wire.Lookup): the model binds the first value of a repeated query parameter; the server (Starlette's QueryParams) binds the last. The client never repeats a key.
- The sidebar toggle (`sidebarOpen`) is not modelled, as are rendering, the Header, Sidebar, EmailList and RichTextEditor components, and the seed data of the migration.
- `console.error` logging.
- `delete_email` returns the message "Email {id} deleted successfully". Here that is the value `Deleted(id)`.

## Findings

| source | as written | input that shows it | evidently intended | confidence | as-written member | corrected member |
|---|---|---|---|---|---|---|
| frontend/app/components/EmailDetail.tsx:37-50 | the reply's fields are sent in an `application/x-www-form-urlencoded` body, while `create_email` declares them as required query parameters (`Query(...)`, emails.py:91-95) | any non-whitespace reply text, e.g. "Thanks" | the reply is stored as a new email | not executed | EndToEnd.ReplyAsWrittenIsRejected (on EmailDetail.ReplyRequestAsWritten) | EmailDetail.ReplyRequest, used by EmailDetail.ReplyComposer.HandleSendReply and proved by EndToEnd.ReplyIsStoredAsAddressed |
| frontend/app/EmailApp.tsx:57-63 | `handleEmailSelect` calls `updateEmail`, whose check at line 80 tests the `selectedEmail` captured before the click, not the clicked email | click an unread email while another email, or none, is open, with a successful PUT | the detail pane shows the returned, read record | not executed | EmailApp.AppState.HandleEmailSelectAsWritten | EmailApp.AppState.HandleEmailSelect |
| frontend/app/EmailApp.tsx:80 | `updateEmail` tests the `selectedEmail` captured when `handleArchiveEmail` was created, from before `setSelectedEmail(null)` at line 93 | archive the email that is open, with a successful PUT | archiving the open email closes it | not executed | EmailApp.AppState.HandleArchiveEmailAsWritten | EmailApp.AppState.HandleArchiveEmail |
