# Tool-lending tracker: a Dafny model

This project models the core of a chat-bot tool-lending tracker. Employees ask for a tool,
and an administrator approves or rejects the request. Tools move between `available` and
`issued`, and returns are confirmed or refused.

The model covers four parts of the source:

- the persistence layer `db.py`: its four SQLite tables, its queries, and its state-changing
  operations;
- the pure computations of the bot handlers in `bot.py`:
  - the paged, name-grouped tool list;
  - the brand statistics of the admin report;
  - the brand listing;
  - the search filter;
  - the parsing of approve/reject buttons and the administrator gate;
  - the effects of approving and refusing a return;
  - which handler a button reaches;
- the seeding script `populate_database.py`.

The database is one immutable value, `Schema.Store`:

- each table is a sequence in rowid order;
- the AUTOINCREMENT counters of `tools` and `issue_requests` are kept alongside.

Every operation is a pure function from a store to a result and a new store
(`Schema.Outcome`). Wall-clock time (`now`) and the caller's Telegram id are parameters.

Modules:

- `Base`: option and result types.
- `Text`: Python's `split`/`join`, `in`, `startswith`, `lower`, `int()` and `str()` on
  strings.
- `Sorting`: a stable insertion sort, standing for Python's `sorted`.
- `Grouping`: the insertion-ordered "group into a dict" idiom.
- `Schema`: the store.
- `Queries`: the read-only functions of `db.py`.
- `Requests`: the issue-request workflow.
- `Engine`: the issue/return engine and the single-row writers.
- `Invariants`: the store invariant and its preservation.
- `Seeding`: `populate_database.py`.
- `Catalogue`: `show_tools`.
- `Report`: the admin report, the brand listing and the search.
- `Handlers`: the callback handlers and their routing.

The store invariant `Invariants.Inv` has three parts:

- every issue row is outstanding;
- every issue row names an existing tool;
- a tool is `issued` exactly when one issue row names it, and none otherwise.

The `db.py` writers keep `Inv` with two exceptions:

- `issue_tool` keeps it only for an existing tool. On an id with no tool it succeeds and
  leaves an issue row that names no tool.
- `update_tool_status` breaks it when it marks an issued tool `available`. The bot's
  "confirm return" handler does exactly that (finding F4). That handler only runs once the
  routing problem of finding F3 is fixed, so F4 stays hidden behind F3.

Facts about the code that shape the model:

- `return_tool` deletes the issue row (db.py:201-204); nothing ever writes `return_date`.
  It writes the history action `return`.
- `approve_issue_request` writes the history action `issue` (db.py:390-393).
- `approve_issue_request` and `reject_issue_request` update every pending request for the
  same tool and chat (db.py:383-387, 406-410).
- `get_overdue_tools` reports a record when its expected date has passed, or when it was
  issued more than the threshold ago, whether or not an expected date is set (db.py:258-262).
- `issue_tool` refuses a tool as soon as any issue row names it (db.py:286).

## Model

| member | source | states |
|---|---|---|
| Invariants.EmptyStoreInv | db.py:30-97 | the freshly created, empty tables satisfy the store invariant |
| Queries.GetToolById | db.py:444-456 | a row comes back exactly when a tool with that id exists, and it holds that tool's columns |
| Queries.GetToolByIdAgreesWithGetTools | db.py:444-456 | the single-tool lookup finds an id exactly when the full listing contains it, and the listing has a row with the same columns |
| Queries.GetIssuedTools | db.py:116-134 | a row is listed exactly when an outstanding issue row joins an existing tool, the listed row is that record's view, and there are exactly as many rows as such issue rows |
| Queries.GetAdminIssuedTools | db.py:136-155 | the admin listing holds exactly the outstanding joined records, ordered by expected return date with missing dates first |
| Queries.GetIssuedToolById | db.py:157-175 | a result is an outstanding record of the requested tool taken from the issued listing; none is returned exactly when no outstanding record of that tool exists |
| Queries.GetOverdueTools | db.py:241-270 | a row is reported exactly when an outstanding record of an existing tool is past its expected day or older than the threshold |
| Queries.OverdueAreIssued | db.py:241-270 | every overdue row also appears, with the same tool and employee, in the issued listing |
| Queries.IsToolIssued | db.py:272-280 | true exactly when some issue row names the tool |
| Queries.IssuedByIdImpliesIsToolIssued | db.py:272-280 | a tool the by-id lookup finds outstanding is also reported as issued |
| Queries.GetIssueRequestInfo | db.py:329-342 | a result is a pending request of that tool and chat for an existing tool; none exactly when there is no such pending request |
| Queries.GetAllIssueRequests | db.py:487-499 | all requests joined with their tools, newest request date first |
| Engine.IssueTool | db.py:282-305 | fails, leaving the store unchanged, exactly when an issue row for the tool exists; otherwise the tool becomes issued, one outstanding row and one `issue` history entry are appended, and nothing else changes |
| Engine.IssueTwiceFails | db.py:282-305 | issuing the same tool a second time, without a return, fails |
| Invariants.IssueToolPreservesInv | db.py:282-305 | issuing an existing tool keeps the store invariant |
| Invariants.IssueMissingToolBreaksInv | db.py:282-305 | issuing an id that names no tool succeeds, because the tool's existence is not checked, and leaves the store violating the invariant |
| Invariants.AtMostOneOpenPerTool | db.py:282-305 | under the invariant, at most one outstanding issue row names any tool |
| Invariants.IssuedStatusAgreesWithQueries | db.py:272-280 | under the invariant, a tool is `issued` exactly when the by-id lookup finds it outstanding, and exactly when it counts as issued |
| Engine.DeleteRows | db.py:200-204 | the rows of that tool and employee are removed, and every other row stays |
| Engine.ReturnTool | db.py:177-224 | succeeds exactly when the tool exists, is issued, and its first issue row names the employee; success deletes that employee's rows for the tool, makes the tool available and appends a `return` entry; failure changes nothing |
| Engine.ReturnTwiceFails | db.py:177-224 | returning the same tool a second time fails |
| Invariants.ReturnToolPreservesInv | db.py:177-224 | a return keeps the store invariant |
| Requests.CreateToolRequest | db.py:307-327 | succeeds exactly when the tool exists and is not issued; success appends one pending request with the next id and leaves the tools, issue rows and history unchanged |
| Invariants.CreateToolRequestPreservesInv | db.py:307-327 | creating a request keeps the store invariant |
| Requests.MarkPendingCounts | db.py:383-387 | after the update no request of that tool and chat is pending, and exactly as many requests as were pending for the pair (the `rowcount`) move from `pending` to the new status |
| Requests.ApproveIssueRequest | db.py:344-400 | succeeds exactly when a pending request of that tool and chat exists and the tool is available; success issues the tool to the requesting employee, marks the request approved and writes an `issue` entry; failure changes nothing |
| Requests.ApproveTwiceFails | db.py:344-400 | approving the same request again fails |
| Requests.ApprovalBlocksOtherApprovals | db.py:362-367 | once a tool is approved for one chat, an approval for another chat fails |
| Requests.RequestThenApprove | db.py:344-400 | a fresh request for an available tool can then be approved, and the tool ends up issued |
| Invariants.ApproveIssueRequestPreservesInv | db.py:344-400 | approval keeps the store invariant |
| Requests.RejectIssueRequest | db.py:402-421 | succeeds exactly when a matching pending request exists; it marks it rejected and touches no tool, issue row or history entry; afterwards no matching request is pending |
| Invariants.RejectIssueRequestPreservesInv | db.py:402-421 | rejection keeps the store invariant |
| Engine.CreateTool | db.py:423-442 | one available tool is appended with the next AUTOINCREMENT id, which is returned; when the ids are valid before, they stay valid and the new id was not in use |
| Invariants.CreateToolPreservesInv | db.py:423-442 | creating a tool keeps the store invariant |
| Engine.UpdateToolStatus | db.py:458-471 | only the named tool's status changes, and the call always reports success |
| Invariants.UpdateToolStatusBreaksInv | db.py:458-471 | setting an issued tool to available directly leaves the store violating the invariant |
| Invariants.AddToolHistoryPreservesInv | db.py:473-485 | appending a history entry keeps the store invariant, leaves the tool and issued listings as they were, and keeps the earlier history as a prefix |
| Seeding.ClearDatabase | populate_database.py:5-29 | after dropping and recreating the tables, all four are empty, both counters are reset, and the invariant holds |
| Seeding.PopulateDatabase | populate_database.py:31-93 | a failing insert rolls back to an empty database; otherwise the database holds exactly the catalogue's items, one row each, with ids 1, 2, … |
| Seeding.InsertEntries | populate_database.py:78-91 | inserting any list of entries gives one row per item, or an empty database after a rollback |
| Seeding.InsertCopies | populate_database.py:81-85 | the inner loop adds `quantity` rows of one name, and fails exactly when the failing insert falls within them |
| Seeding.CatalogueItems | populate_database.py:40-70 | the catalogue lists 77 items, so seeding creates 77 rows |
| Seeding.NamesCount | populate_database.py:79-85 | every catalogue entry contributes exactly its quantity of rows with its name |
| Seeding.SeededRowsPerName | populate_database.py:79-85 | after seeding, each name labels exactly as many rows as the catalogue's quantity for it |
| Seeding.SeededStoreInv | populate_database.py:82-85 | the seeded database satisfies the invariant, and every seeded tool is available with quantity 1 |
| Grouping.GroupBySpec | bot.py:231-240 | grouping into an insertion-ordered dict gives one bucket per key, and each bucket holds exactly the elements with that key, in order |
| Grouping.GroupByTotal | bot.py:231-240 | the bucket sizes add up to the number of elements grouped |
| Catalogue.NameGroups | bot.py:230-240 | the tool-list groups have distinct names, every tool falls in its name's group, and each group's ids are exactly the ids of the tools bearing that name |
| Catalogue.ShowToolsGroups | bot.py:242-249 | the listed groups are the name groups, none empty, sorted by name |
| Catalogue.AsWrittenAvailableIsTotal | bot.py:242-246 | as written, every group's available count equals its total, whatever is issued |
| Catalogue.CorrectedAvailabilityCountsAvailableTools | bot.py:242-246 | with the issued rows compared by tool id, a group's available count is the number of its tools whose status is available, and lies between 0 and the total |
| Catalogue.TotalPages | bot.py:250 | the page count is the least number of 10-item pages that hold every group |
| Catalogue.PageOf | bot.py:251-253 | a page holds at most 10 groups; an in-range page is the matching window of the sorted list |
| Catalogue.PageLocation | bot.py:249-253 | every group appears on page `i / 10`, at position `i % 10` |
| Catalogue.PagesCoverAll | bot.py:249-253 | the pages, concatenated in order, give back the whole sorted list |
| Catalogue.TakeButtons | bot.py:265-272 | a take button exists exactly for each group with a positive available count, and it names the group's first id |
| Catalogue.NavButtons | bot.py:274-283 | a back button appears exactly when a previous page exists, and a forward button exactly when a next page exists; each targets the neighbouring page |
| Catalogue.NavStaysInRange | bot.py:274-283 | on an in-range page, every navigation button targets an existing page |
| Catalogue.ParsePageCallback | bot.py:221-224 | the page number written into a navigation button is read back unchanged |
| Catalogue.ShowTools | bot.py:215-291 | the handler answers exactly when the page number parses; it then shows that page of the sorted name groups (at most 10), the page count of the whole list and the navigation buttons for that page, and a take button exactly for each shown group with something available |
| Report.Brand | bot.py:904 | a name containing " - " has as its brand the text before the first occurrence; any other name has the brand "Другое" |
| Report.BrandOfBrandedName | bot.py:904 | a name built as brand, " - ", model (with no '-' in the brand) has that brand |
| Report.BrandCounts | bot.py:902-905 | one count per distinct brand, each equal to the number of tools of that brand, and every tool's brand is counted |
| Report.BrandCountsSum | bot.py:902-905 | the brand counts add up to the number of tool rows |
| Report.ShowAdminReport | bot.py:884-910 | a report is produced exactly for the administrator; it holds the total quantity, the number of outstanding issues, and the brand counts, largest first |
| Report.ReportIssuedCountsRows | bot.py:892-895 | under the invariant, the issued figure equals the number of issue rows |
| Report.SeededReport | bot.py:894-905 | on the seeded database the report shows 77 tools, none issued, and brand counts summing to 77 |
| Report.ShowBrandListing | bot.py:996-1010 | the brand sections are the brand groups in name order, and the free buttons list the tools not among the issued ids |
| Report.BrandListingSections | bot.py:1000-1005 | each brand section holds exactly the tools of that brand, in table order, and is not empty |
| Report.FreeButtonIffAvailable | bot.py:1021-1022 | under the invariant, a tool gets a free button exactly when it exists and is available |
| Report.Search | bot.py:449-455 | a tool is found exactly when the lower-cased query occurs in its lower-cased name |
| Report.SearchIgnoresCase | bot.py:449-454 | searching with a lower-cased query finds the same tools as the original query |
| Report.EmptySearchFindsAll | bot.py:449-455 | the empty query finds every tool, in order |
| Handlers.ParseIssueCallback | bot.py:379-387 | data not splitting into three parts is refused as malformed; otherwise both numbers must parse, and the command carries the action and the two numbers |
| Handlers.IssueCallbackRoundTrip | bot.py:356-358 | the approve/reject buttons built for a request parse back to their action, tool id and chat id |
| Handlers.ReturnCallbackRoundTrip | bot.py:653-654 | the confirm/refuse-return buttons parse back to their tool id and user id |
| Handlers.IssueResponse | bot.py:374-438 | malformed data and non-administrators change nothing; a request is reported approved exactly when the administrator approves and the approval succeeds, and likewise for rejection |
| Handlers.HandleIssueResponse | bot.py:417-435 | as written, no rejection is ever reported, and only a successful approval changes the store |
| Handlers.RejectButtonCrashes | bot.py:417-435 | as written, the administrator's reject button ends in the error path and leaves the store unchanged |
| Handlers.HandleIssueResponseFixed | bot.py:417-433 | with the rejection call available, only approval or rejection changes the store, and a rejection touches no tool, issue row or history |
| Handlers.RejectButtonRejectsWhenFixed | bot.py:417-433 | with the rejection call available, the administrator's reject button rejects exactly when a matching request is pending |
| Handlers.RequestThenAdminApproves | bot.py:401-416 | a request followed by the administrator pressing approve issues the tool to the requester |
| Handlers.ConfirmReturn | bot.py:687-704 | confirming is refused exactly when the tool has no outstanding record; otherwise the tool becomes available, a `returned` entry is appended, and the issue rows are left as they were |
| Handlers.ApproveReturnOnItsButton | bot.py:687-704 | the confirm button offered for a return confirms the return of exactly the tool and user written into it |
| Handlers.ConfirmReturnLeavesRecordOpen | bot.py:700-704 | as written, a confirmed return leaves the store violating the invariant; the tool is still listed as issued, and a second confirmation succeeds again |
| Handlers.ConfirmReturnFixed | bot.py:695-704 | confirming is refused when the tool has no outstanding record; otherwise its effect is the engine's return for the employee the record names |
| Handlers.ConfirmReturnFixedClosesRecord | bot.py:695-704 | the engine-based confirmation keeps the invariant, makes the tool available and no longer issued, and a second confirmation is refused |
| Handlers.RejectReturn | bot.py:730-767 | refusing a return never changes the store, and it reports a refusal exactly when the data parses and the tool is outstanding |
| Handlers.ReturnHandlersUnreachable | bot.py:687-731 | as registered, no callback ever reaches the confirm-return or refuse-return handler |
| Handlers.ConfirmReturnButtonIsRejected | bot.py:379-383 | a confirm-return button is routed to the issue-response handler, which refuses it as malformed and changes nothing |
| Handlers.RouteFixed | bot.py:374-731 | with the return handlers registered first, "approve_return_" and "reject_return_" data reach their handlers |
| Handlers.FixedRouteKeepsIssueButtons | bot.py:356-358 | with that order, the approve/reject buttons of a request still reach the issue-response handler |
| Handlers.FixedRouteReachesReturnHandlers | bot.py:653-654 | with that order, the confirm and refuse buttons of a return reach their own handlers |

## Left out

- `get_tool_history` (db.py:226-239) selects a `notes` column that `tool_history` does not have, so every call takes its error path and returns an empty list. The history table itself is modelled.
- Message texts, Markdown, keyboards, notifications to other chats, the photo step and `callback_query.answer` calls are presentation, not state.
- The FSM conversation states are left out. So are the registration handlers and the second, shadowed copies of handlers later in bot.py (bot.py:769-886, 946-1122, 1168-1279). `show_tools_command` (bot.py:977) is itself shadowed by `show_tools`, but its brand listing is modelled as `Report.ShowBrandListing`.
- `check_db.py`, `config.py` and the WSGI entry point are environment glue. So is the `API_TOKEN`/`BOT_TOKEN` import mismatch between bot.py and config.py.
- SQLite I/O, file paths and connection handling are not modelled. `DatabaseConnection` is modelled only as commit-or-rollback (`Engine.CloseConnection`).
- The `except` paths of the `db.py` functions are left out; they are reached only on database errors such as a locked file or a full disk. `create_tool`, for example, returns `None` there. The one failure that matters to a caller, a failing insert during seeding, is a parameter (`failAt`).
- Report.Search: `process_search` calls `is_tool_issued`, which bot.py never imports. Any non-empty search result therefore ends in a NameError. Only the filter is modelled.
- Report.ShowAdminReport: the handler ends by calling `get_admin_keyboard`, which is not defined, so the message is never edited. The contract also leaves open the order of brands with equal counts.
- Text.ParseInt accepts an optional sign followed by ASCII digits. Python's `int()` also accepts surrounding whitespace, `_` separators and non-ASCII digits.
- Text.Lower lower-cases ASCII and Cyrillic letters only.
- The clock is the parameter `now`. Dates appear as day numbers (`Schema.Day`), and the `strftime` formatting of dates is not modelled.
- `quantity` is kept as a column, and `show_tools` and the report sum it as the code does. The seeding script never sets it, so every seeded row has the default of 1.
- Engine.UpdateToolStatus: `update_tool_status` writes any string into the `status` column (db.py:458), but the model's status has only the two values `available` and `issued`. The code's `== 'issued'` test in `create_tool_request` (db.py:314) and its `!= 'available'` test in `approve_issue_request` (db.py:365) would differ for a third value; they become complements here. bot.py only ever passes `'available'`.
- Queries.GetIssuedTools: `get_issued_tools` has no `ORDER BY`. The model lists rows in issue-row order, which is the order SQLite's nested-loop join usually produces but does not promise.

## Findings

| source | as written | input that shows it | evidently intended | confidence | as-written member | corrected member |
|---|---|---|---|---|---|---|
| bot.py:245 | the available count subtracts the issued rows whose column 1 (the tool name) is among the group's ids; a name never equals an integer id, so nothing is subtracted | one tool "Drill" (id 1) issued to anyone: the list shows it as 1 of 1 available and offers a take button | compare column 0 (the tool id) with the ids, so issued tools are not counted as available | high (not executed) | Catalogue.AsWrittenAvailableIsTotal | Catalogue.CorrectedAvailabilityCountsAvailableTools |
| bot.py:418 | the reject branch calls `reject_issue_request`, which bot.py never imports (bot.py:8-14); the NameError lands in the handler's `except` | the administrator presses "reject" on any pending request: the error path runs and the request stays pending | import `reject_issue_request` from db.py so the request is marked rejected | high (not executed) | Handlers.RejectButtonCrashes | Handlers.RejectButtonRejectsWhenFixed |
| bot.py:374 | the handler for data starting with "approve_" or "reject_" is registered before the return handlers (bot.py:687, 730), and the first matching handler wins | the button `approve_return_3_42`: it reaches the issue-response handler, splits into four parts and is refused as malformed | register the return handlers first, or exclude "_return_" data from the issue-response filter | high (not executed) | Handlers.ConfirmReturnButtonIsRejected | Handlers.FixedRouteReachesReturnHandlers |
| bot.py:700-704 | confirming a return only sets the tool's status to available and writes history; the outstanding issue row is neither deleted nor closed | once F3 is fixed so that the handler runs: tool 3 issued, then confirm return; the tool is available but still listed as issued, a second confirmation succeeds again, and a later issue adds a second open row | close the record through `return_tool`, which deletes the issue row and sets the status together | high (not executed) | Handlers.ConfirmReturnLeavesRecordOpen | Handlers.ConfirmReturnFixedClosesRecord |
