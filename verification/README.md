# Smart support backend — a verified model of its ticket, note and statistics handlers

The smart support backend is an Express and MongoDB service. It stores
support tickets and the notes attached to them, and reports statistics
about the tickets. This project models its core in Dafny:

- the Ticket and Note documents, with their defaults, their trim and
  lower-case setters and the rules checked on save;
- the status and priority enums and the pagination constants;
- the request-body schemas and the middleware that turns their failures
  into a 400 answer;
- the application-wide error classifier;
- the ticket handlers: list with filter, sort and pagination; get; partial
  update; soft delete; create;
- the note handlers: list and create, both guarded by "the ticket exists
  and is not deleted";
- the statistics report: one aggregation over the tickets that are not
  deleted, reshaped into zero-seeded maps.

The document store is a class, `Store.SupportStore`, that holds the ticket
and note collections and the counter that issues identifiers. The read
handlers are methods that change nothing. Their results are stated through
specification functions (`Matching`, `NewestFirst`, `Window`, `Aggregate`,
`GroupCounts`, `SortBy`), and lemmas prove what those functions mean. The
write handlers are methods with a `modifies` clause. They state the whole
new state and keep the store invariant `Consistent`:

- identifiers are unique;
- every ticket and note is well formed (trimmed, lower-case address, not
  blank);
- every note refers to a stored ticket.

Modules follow the source files:

| module | file | models |
|---|---|---|
| `Constants` | constants.dfy | `src/utils/constants.js` |
| `TicketModel` | ticket_model.dfy | `src/models/Ticket.js` |
| `NoteModel` | note_model.dfy | `src/models/Note.js` and the note queries |
| `Validation` | validation.dfy | `src/middleware/validation.js` |
| `ErrorHandler` | error_handler.dfy | `src/middleware/errorHandler.js` |
| `Pagination`, `TicketQuery` | pagination.dfy, ticket_query.dfy | the pure parts of `src/controllers/ticketController.js` |
| `Stats` | stats.dfy | `src/controllers/statsController.js` |
| `Store` | store.dfy | the handlers of the three controllers over the store |

The remaining modules are helpers:

- `Common`: Option, Result and the error answer;
- `Text`: JavaScript `trim`, lower-casing and substring search;
- `Sorting`: a stable sort by an integer key;
- `Grouping`: the `$group` stage with a `$sum: 1` counter.

Time is a parameter (`now`, in milliseconds). So are the two foreign
functions: the address check of the schema library (`isEmail`) and the HTML
sanitiser (`sanitize`). Query values reach the model as `parseInt` results,
with None standing for NaN.

Behaviour the model follows from the code:

- A page or limit that makes the skip negative (for example `page=-1`, or `page=2&limit=-5`)
  reaches the store. The store refuses a negative skip, and the list
  handler answers 500 "Failed to fetch tickets".
- A negative limit is kept (it is not 0, so `||` keeps it). The store uses
  its magnitude. `totalPages` is then `Math.ceil` of a negative quotient.
- `MAX_LIMIT` is defined but never applied.
- The update validators run before the update query. An invalid status or
  priority in a PATCH body therefore answers 500 "Failed to update ticket",
  even for an id that does not exist. Behind the route the schema already
  rejects such bodies (`Store.ValidatedUpdateApplies`).
- An empty status or priority in a PATCH body is falsy and is not set.
- A title, description or address made only of spaces passes the schema,
  whose minimum length counts the spaces. It is then empty after the trim
  setter, so the save fails and the create handler answers 500 "Failed to
  create ticket", not 400 (`Store.BlankTitleAnswers500`).
- Each controller catches its own failures. The error classifier is
  therefore modelled on its own, over the error it is given.

## Model

| member | source | states |
|---|---|---|
| Constants.StatusName | src/utils/constants.js:2-6 | every status has one of the three status strings as its name |
| Constants.PriorityName | src/utils/constants.js:7-11 | every priority has one of the three priority strings as its name |
| Constants.ParseStatus | src/utils/constants.js:2-6 | a string is recognised as a status iff it is one of the three values, and then it is that status's name |
| Constants.ParsePriority | src/utils/constants.js:7-11 | a string is recognised as a priority iff it is one of the three values, and then it is that priority's name |
| Constants.NamesRoundTrip | src/utils/constants.js:2-11 | parsing the name of a status or priority gives it back |
| Constants.EnumValuesDistinct | src/utils/constants.js:2-11 | the status values are three distinct strings, and so are the priority values |
| Constants.PaginationConstants | src/utils/constants.js:13-17 | DEFAULT_PAGE is 1, DEFAULT_LIMIT is 10, MAX_LIMIT is 100, and 0 < DEFAULT_LIMIT <= MAX_LIMIT |
| Text.Trim | src/models/Ticket.js:8 | the trim setter gives the middle of the input, with only white space dropped before and after it; no white space is left at either end; the result is empty iff the input is all white space; trimming a trimmed string changes nothing |
| Text.ToLower | src/models/Ticket.js:18 | the lowercase setter keeps the length and changes a character exactly when it is an ASCII capital |
| Text.ToLowerKeepsTrimmed | src/models/Ticket.js:15-20 | lower-casing keeps a trimmed address trimmed |
| Text.ToLowerIdempotent | src/models/Ticket.js:18 | lower-casing twice is lower-casing once |
| Text.ToLowerMakesLowerCase | src/models/Ticket.js:18 | lower-casing gives a lower-case string and leaves a lower-case one unchanged |
| Text.ContainsIffOccurs | src/controllers/ticketController.js:22-27 | the search term is contained in a text iff it occurs at some position |
| TicketModel.NormaliseEmail | src/models/Ticket.js:15-20 | the address setters give the input's middle, with only white-space margins dropped, lower-cased; the result is trimmed, lower-case, and empty iff the input is all white space |
| TicketModel.NormaliseEmailIdempotent | src/models/Ticket.js:15-20 | normalising an address twice equals normalising it once |
| TicketModel.WellFormedEmailIsNormal | src/models/Ticket.js:15-20 | a stored address is a fixed point of the setters |
| TicketModel.Required | src/models/Ticket.js:5-20 | the required rule reports nothing iff the value is present and not empty |
| TicketModel.InEnum | src/models/Ticket.js:21-30 | the enum rule reports nothing iff the value is absent or one of the allowed values |
| TicketModel.TicketErrors | src/models/Ticket.js:4-34 | saving reports no error iff title, description and address are present and not blank after the trim, and status and priority are absent or valid |
| TicketModel.BuildTicket | src/models/Ticket.js:4-37 | the save succeeds iff those rules hold; the ticket then has the trimmed texts, the normalised address, status open and priority medium unless given, deleted false, both timestamps now, and is well formed; a failure names at least one rule |
| TicketModel.Live | src/controllers/statsController.js:10-14 | keeps exactly the tickets that are not deleted, each as often as stored |
| NoteModel.RequiredRef | src/models/Note.js:4-13 | a reference rule reports nothing iff the reference is present |
| NoteModel.NoteErrors | src/models/Note.js:3-18 | saving a note reports no error iff both references are present and the text is not blank after the trim |
| NoteModel.BuildNote | src/models/Note.js:3-21 | the save succeeds iff those rules hold; the note then has the given references, the trimmed text, both timestamps now, and is well formed |
| NoteModel.NotesFor | src/controllers/noteController.js:18 | exactly the notes whose ticket id is the requested one, each as often as stored |
| NoteModel.NotesNewestFirst | src/controllers/noteController.js:20 | a permutation of the notes in descending created_at order |
| Pagination.ParsedOr | src/controllers/ticketController.js:6-7 | NaN and 0 fall back to the default; any other parsed value, negative ones included, is kept |
| Pagination.EffectivePage | src/controllers/ticketController.js:6 | the page is never 0, is the parsed page when that is not 0, and is 1 when absent, unparsable or 0 |
| Pagination.EffectiveLimit | src/controllers/ticketController.js:7 | the limit is never 0, is the parsed limit when that is not 0, and is 10 when absent, unparsable or 0 |
| Pagination.Skip | src/controllers/ticketController.js:8 | the skip is not negative for page >= 1 and is negative for a page below 1 with a positive limit |
| Pagination.CeilDiv | src/controllers/ticketController.js:36 | for a positive limit, the least number of pages holding all documents, 0 iff there are none; for a negative limit, the ceiling of the negative quotient |
| Pagination.Paginate | src/controllers/ticketController.js:36-46 | the pagination echoes the effective page and limit and the total; totalPages is the ceiling of total / limit, zero iff nothing matched; hasNext iff page < totalPages, which for a positive limit is iff documents remain after this page; hasPrev iff page > 1 |
| Pagination.HasNextIffMoreRemain | src/controllers/ticketController.js:36-45 | for a positive limit, page < totalPages iff documents remain after this page |
| Pagination.PaginationExample | src/controllers/ticketController.js:36-46 | 25 documents with limit 10 make 3 pages: page 3 has no next page, page 1 no previous page |
| Pagination.LimitNotCapped | src/controllers/ticketController.js:7-8 | a limit of 500 is used as is, above MAX_LIMIT |
| Pagination.NegativePageNotClamped | src/controllers/ticketController.js:6-8 | page -2 is kept and gives skip -30, for which the store answers 500 |
| TicketQuery.BuildFilter | src/controllers/ticketController.js:12-27 | the filter always requires not deleted; a status or priority constrains it iff it is one of the valid values; a search term constrains it iff it is not empty |
| TicketQuery.Matches | src/controllers/ticketController.js:12-29 | with a search term, a ticket matches iff its deleted flag, status and priority agree with the filter and the lower-cased term occurs at some position of the lower-cased title or address |
| TicketQuery.FilterSemantics | src/controllers/ticketController.js:12-27 | a ticket passes iff it is not deleted, has the valid requested status and priority, and for a non-empty term has it in its title or address ignoring case |
| TicketQuery.UnknownValuesIgnored | src/controllers/ticketController.js:14-20 | an unknown status such as "archived" builds the same filter as no status, and an unknown priority the same filter as no priority |
| TicketQuery.DeletedNeverListed | src/controllers/ticketController.js:12-29 | no ticket a built filter accepts is deleted |
| TicketQuery.Matching | src/controllers/ticketController.js:29-35 | exactly the accepted tickets, each as often as stored |
| TicketQuery.NewestFirst | src/controllers/ticketController.js:30 | a permutation in descending created_at order |
| TicketQuery.Window | src/controllers/ticketController.js:31-32 | at most n documents, those at positions skip, skip + 1, ... |
| TicketQuery.Views | src/controllers/ticketController.js:33 | every ticket of the page without its deleted flag |
| TicketQuery.FindVisible | src/controllers/ticketController.js:59-62 | the first position holding the id and not deleted, None iff there is none |
| TicketQuery.PatchFromBody | src/controllers/ticketController.js:81-91 | the update document sets a status or priority iff it is present and not empty, and is refused iff a set value is not valid |
| TicketQuery.ApplyPatch | src/controllers/ticketController.js:83-91 | only status, priority and updated_at change, to the patched values and now |
| TicketQuery.MarkDeleted | src/controllers/ticketController.js:115-119 | only deleted (to true) and updated_at (to now) change |
| TicketQuery.PatchKeepsWellFormed | src/controllers/ticketController.js:83-91 | a patched ticket stays well formed and keeps its id |
| TicketQuery.MarkKeepsWellFormed | src/controllers/ticketController.js:115-119 | a deleted ticket stays well formed and keeps its id |
| TicketQuery.DeletedIsNotFound | src/controllers/ticketController.js:115-125 | with unique ids, a ticket's id is not found once it is deleted, so a second delete answers not found |
| Sorting.SortBy | src/controllers/statsController.js:53-55 | the result is a permutation of the input in ascending key order |
| Sorting.SortStrictlyAscending | src/controllers/statsController.js:53-55 | with distinct keys the sorted result is strictly ascending |
| Grouping.GroupCounts | src/controllers/statsController.js:20-35 | one group per distinct key, counting its occurrences; keys distinct and taken from the input; counts add up to the input length |
| Grouping.GroupCountsExact | src/controllers/statsController.js:20-35 | every group counts its key's multiplicity, at least 1, and every key of the input has a group |
| Grouping.LookupLastWins | src/controllers/statsController.js:76-82 | writing the groups one after another leaves each key with the count of its last group, and 0 for a key no group has |
| Grouping.LookupOfDistinct | src/controllers/statsController.js:76-82 | with distinct keys, writing the groups one by one leaves each key with its group's count |
| Stats.DayKey | src/controllers/statsController.js:44-48 | the day of a timestamp is the one whose 24 hours contain it |
| Stats.WindowStart | src/controllers/statsController.js:6-7 | the window starts seven days of 24 hours before now, seven day numbers earlier |
| Stats.Aggregate | src/controllers/statsController.js:9-59 | the count facet is empty iff every ticket is deleted, and otherwise holds the number of visible tickets; the status and priority groups have distinct keys and counts adding up to that number; the day groups' counts add up to the number of creations in the window |
| Stats.RecentDays | src/controllers/statsController.js:36-52 | a day occurs iff some ticket created at or after the window start was created on it; never more days than tickets |
| Stats.RecentTicketCounted | src/controllers/statsController.js:10-52 | a visible ticket created in the window adds its day to the window's creation days |
| Stats.AssembleReport | src/controllers/statsController.js:61-82 | the total is the count or 0; each map has exactly its three keys, each holding the grouped count or 0; the day series is passed through |
| Stats.StatsResponse | src/controllers/statsController.js:61-89 | a failed aggregation answers 500 "Failed to fetch stats" with its message and no report; otherwise the assembled report |
| Stats.ReportSummarises | src/controllers/statsController.js:9-82 | the report over the store counts only tickets not deleted, gives each status and priority its number of tickets with both maps adding up to the total, and a strictly ascending day series with counts >= 1 and a sum <= total |
| Stats.ReportCounts | src/controllers/statsController.js:9-35 | the total is the number of visible tickets and each status and priority holds its number of them, each map adding up to the total |
| Stats.ReportDays | src/controllers/statsController.js:36-73 | the day series is strictly ascending, counts each day's creations in the window, covers every such day and adds up to their number |
| Stats.DaySeries | src/controllers/statsController.js:36-56 | the day series is strictly ascending, has one entry per day that occurs, each counting that day's creations, and its counts add up to the number of tickets in the window |
| Stats.DaySeriesAscending | src/controllers/statsController.js:53-55 | the day series is strictly ascending |
| Stats.DaySeriesCounts | src/controllers/statsController.js:42-52 | every day entry counts its day's creations, at least 1 |
| Stats.DaySeriesCovers | src/controllers/statsController.js:36-52 | every day that occurs has an entry |
| Stats.StatusTally | src/controllers/statsController.js:20-27 | the three status counts add up to the number of tickets |
| Stats.PriorityTally | src/controllers/statsController.js:28-35 | the three priority counts add up to the number of tickets |
| Stats.TotalCountSorted | src/controllers/statsController.js:53-55 | sorting the day groups keeps the sum of their counts |
| Stats.LiveAppend | src/controllers/statsController.js:10-14 | a deleted ticket adds nothing to the matched set and a visible one is added at the end |
| Stats.DeletedTicketIgnored | src/controllers/statsController.js:10-14 | adding a deleted ticket changes no facet of the aggregation |
| Stats.OldTicketOnlyInTotals | src/controllers/statsController.js:6-41 | a visible ticket older than the window adds one to the total and to its status and priority, and nothing to the day series |
| ErrorHandler.HandleError | src/middleware/errorHandler.js:4-30 | 400 iff the error is a validation error, a cast error or a duplicate key, checked in that order, with details only for validation errors; every other error answers 500 "Internal server error" |
| ErrorHandler.ValidationPathsReported | src/middleware/errorHandler.js:4-14 | every failed rule's path appears among the details |
| Text.Decimal | src/middleware/validation.js:15 | the number in a maximum-length message is written as base-ten digits without leading zeros that denote the maximum |
| Validation.JoinPath | src/middleware/validation.js:36 | a one-element path joins to that element |
| Validation.StringIssues | src/middleware/validation.js:3-28 | a string field has no issue iff it is present, within its length bounds and, where required, an address; an absent field gets "Required" alone; a present one gets exactly one issue per failing rule: the rule's minimum message, the library's "String must contain at most N character(s)", and the rule's address message |
| Validation.EnumIssues | src/middleware/validation.js:18-24 | an optional enum field has no issue iff it is absent or allowed, otherwise one naming the allowed and received values |
| Validation.RegisterIssues | src/middleware/validation.js:3-7 | accepts iff the name has 1 to 100 characters, the email is an address and the password has at least 6 characters |
| Validation.LoginIssues | src/middleware/validation.js:9-12 | accepts iff the email is an address and the password is not empty |
| Validation.TicketCreateIssues | src/middleware/validation.js:14-19 | accepts iff the title has 1 to 200 characters, the description is not empty, the address is valid and the priority is absent or valid |
| Validation.TicketUpdateIssues | src/middleware/validation.js:21-24 | accepts iff status and priority are each absent or valid |
| Validation.NoteIssues | src/middleware/validation.js:26-28 | accepts iff the text has 1 to 1000 characters |
| Validation.Validate | src/middleware/validation.js:30-44 | passes on iff the schema finds no issue, otherwise 400 "Validation failed" with one detail per issue, field the dotted path |
| Validation.EmptyUpdateAccepted | src/middleware/validation.js:21-24 | an empty update body passes |
| Validation.EmptyCreateRejected | src/middleware/validation.js:14-44 | an empty creation body gets one "Required" detail per required field, in order |
| Validation.UnknownPriorityRejected | src/middleware/validation.js:18 | priority "urgent" is reported with the allowed values |
| Validation.EmptyTitleMessage | src/middleware/validation.js:15 | an empty title is reported with "Title is required" |
| Store.LimitSize | src/controllers/ticketController.js:32 | the store takes a limit by its magnitude, never 0 for a limit that is not 0 |
| Store.CreateFields | src/controllers/ticketController.js:140-147 | the document gets the body's texts, no status, and the priority or "medium" when it is absent or empty |
| Store.CreateOutcome | src/controllers/ticketController.js:140-149 | creating succeeds iff the texts are present and not blank and the priority is absent, empty or valid; the ticket is then well formed, open, not deleted, and medium unless a priority was given |
| Store.ReplaceTicketKeepsConsistent | src/controllers/ticketController.js:83-119 | replacing a ticket by a well-formed one with the same id keeps the store invariant |
| Store.AppendTicketKeepsConsistent | src/controllers/ticketController.js:142-149 | appending a well-formed ticket under a fresh id keeps the store invariant |
| Store.AppendNoteKeepsConsistent | src/controllers/noteController.js:49-55 | appending a well-formed note about a stored ticket under a fresh id keeps the store invariant |
| Store.FindAppended | src/controllers/ticketController.js:149 | a new ticket with a fresh id is found by its id |
| Store.ListedAreMatching | src/controllers/ticketController.js:29-33 | every listed ticket is a stored, accepted, non-deleted ticket, and the page is newest first |
| Store.ValidatedUpdateApplies | src/routes/tickets.js:16 | a body the update schema accepts always gives a patch, setting exactly the fields present |
| Store.ValidatedCreateOutcome | src/routes/tickets.js:15 | behind the schema, a creation is saved iff title, description and address are not blank after the trim |
| Store.BlankTitleAnswers500 | src/middleware/validation.js:15 | a title of spaces passes the schema but fails the save |
| Store.SupportStore.GetAllTickets | src/controllers/ticketController.js:4-55 | 500 iff the skip is negative; otherwise the newest-first window of the accepted tickets, at most the limit, every one a stored non-deleted accepted ticket, with pagination over all of them |
| Store.SupportStore.GetTicketById | src/controllers/ticketController.js:57-77 | 404 iff no stored ticket has the id and is not deleted; otherwise the view of such a ticket |
| Store.SupportStore.UpdateTicket | src/controllers/ticketController.js:79-111 | an invalid value answers 500 and changes nothing; an absent or deleted id answers 404 and changes nothing; otherwise only that ticket gets the patch and the new updated_at |
| Store.SupportStore.DeleteTicket | src/controllers/ticketController.js:113-136 | an absent or deleted id answers 404 and changes nothing; otherwise only that ticket is marked deleted; afterwards its id is never found |
| Store.SupportStore.CreateTicket | src/controllers/ticketController.js:138-161 | the save fails with 500 iff a text is absent or blank or the priority is invalid; otherwise the open ticket with the next id is appended and found by its id |
| Store.SupportStore.AppendTicket | src/controllers/ticketController.js:149 | stores the ticket at the end under the counter's id and keeps the invariant |
| Store.SupportStore.ReplaceTicket | src/controllers/ticketController.js:83-91 | replaces one ticket in place and keeps the invariant |
| Store.SupportStore.AppendNote | src/controllers/noteController.js:55 | stores the note at the end under the counter's id and keeps the invariant |
| Store.SupportStore.GetNotesByTicket | src/controllers/noteController.js:5-29 | 404 iff the ticket is absent or deleted; otherwise exactly the notes of that ticket, newest first |
| Store.SupportStore.CreateNote | src/controllers/noteController.js:31-69 | 404 and no change for an absent or deleted ticket; 500 and no change for a sanitised text that is blank; otherwise one note with the route id, the user, the trimmed sanitised text and timestamps now is appended; tickets never change |
| Store.SupportStore.GetStats | src/controllers/statsController.js:4-84 | the report is assembled from the aggregation over the store and summarises the tickets that are not deleted |

## Left out

- Transport (`server.js`, the route files, CORS, body parsing): each handler is a method returning a result or an error answer. The route wiring appears only in the lemmas that combine a schema with a handler.
- Authentication, `User.js` and password hashing: authentication is taken as yielding a user id.
- The seed script: it is random data generation and database I/O.
- The address check of the schema library and the HTML sanitiser: these are foreign code, given as function parameters (`isEmail`, `sanitize`).
- The search term is a MongoDB regular expression and is not escaped. It is modelled as a case-insensitive substring, so regex metacharacters are not interpreted.
- Store.SupportStore.GetAllTickets: a search term that is not a valid regular expression (for example `(`) makes the store refuse the query, and the list answers 500 "Failed to fetch tickets". The model reads every term as a substring, so its "fails iff the skip is negative" does not cover that case.
- Text.ToLower: only the ASCII letters are lower-cased, unlike JavaScript's full Unicode case mapping. This affects stored addresses and the case-insensitive search.
- String lengths in the schemas count Dafny characters, not UTF-16 code units.
- Dates: a day is `created_at` divided by the milliseconds of a day, which is the UTC calendar day. The window starts exactly seven times 24 hours before `now`, so daylight-saving shifts of the server's local `setDate` are not modelled.
- Identifiers are natural numbers issued by the store. A malformed id and the resulting cast error, answered 500 by each handler, are not modelled.
- Store failures other than the negative skip and the statistics aggregation are not modelled: connection loss, timeouts, and the 500 answers that catch them in the other handlers.
- Pagination.Paginate / Store.SupportStore.GetAllTickets: page and limit are exact, unbounded integers. JavaScript numbers are doubles, and that is not modelled: a parsed value above 2^53 is rounded, a digit string too long for a double parses to Infinity (kept, since it is truthy), Infinity makes the skip NaN and `totalPages` 0, and such a limit is echoed as null. The store's 64-bit reading of skip and limit is not modelled either.
- Store.SupportStore.GetAllTickets: equal `created_at` values keep store order. The document store does not promise any order among them.
- The messages of store errors other than the negative skip and the save validation are not modelled.
- Non-string JSON values in bodies or queries (numbers, arrays, objects) and the library's "Expected string" issues are not modelled. Neither are repeated query keys that arrive as arrays.
- `populate` of the note author's name and email, the indexes, and `console.error` logging.
- The success messages that wrap the update and create answers ("Ticket updated successfully", "Ticket created successfully", "Note added successfully") are not part of the result. The delete answer is its message alone.
- Concurrency and the atomicity of `findOneAndUpdate`: each handler is one sequential method on the store.
