/** The store effects of the bot's callback handlers for issue requests and returns:
    `process_admin_issue_response` (approve or reject an issue request from the admin's
    buttons), `approve_return` and `reject_return` (confirm or refuse a returned tool), and the
    order in which aiogram tries them.

    Replies are reduced to which answer the handler gives; the message texts, keyboards and
    notifications are not modelled. */
module Handlers {
  import opened Base
  import opened Text
  import opened Schema
  import opened Queries
  import opened Requests
  import opened Engine
  import opened Invariants
  import opened Report

  const APPROVE: string := "approve"
  const REJECT: string := "reject"

  /** The answer a handler gives. */
  datatype Reply =
    | BadFormat        // the callback data does not have the expected number of fields
    | Crashed          // an exception, caught by the handler's `except Exception`
    | NotAdmin         // the caller is not the administrator
    | RequestApproved
    | ApproveFailed
    | RequestRejected
    | RejectFailed
    | Unanswered       // an action word other than approve or reject: the handler says nothing
    | NotFound         // no outstanding issue of the tool
    | ReturnConfirmed
    | ReturnRefused

  // ---------------------------------------------------------------------------
  // Callback data
  // ---------------------------------------------------------------------------

  /** The admin's buttons for a new request: `f"{action}_{tool_id}_{message.chat.id}"`. */
  function IssueCallback(action: string, toolId: int, chatId: int): string
  {
    action + "_" + ShowInt(toolId) + "_" + ShowInt(chatId)
  }

  /** The admin's buttons for a return: `f"{action}_return_{tool_id}_{user_id}"`. */
  function ReturnCallback(action: string, toolId: int, userId: int): string
  {
    action + "_" + "return" + "_" + ShowInt(toolId) + "_" + ShowInt(userId)
  }

  datatype IssueCommand = IssueCommand(action: string, toolId: int, chatId: int)

  /** The fields of an issue callback: `BadFormat` unless it splits into exactly three parts
      on `_`, `Crashed` where `int()` raises on the second or third. */
  function ParseIssueCallback(data: string): (r: Result<IssueCommand, Reply>)
    ensures |Split(data, '_')| != 3 ==> r == Err(BadFormat)
    ensures r.Ok? <==> |Split(data, '_')| == 3 && ParseInt(Split(data, '_')[1]).Some? && ParseInt(Split(data, '_')[2]).Some?
    ensures r.Ok? ==> r.value == IssueCommand(Split(data, '_')[0], ParseInt(Split(data, '_')[1]).value, ParseInt(Split(data, '_')[2]).value)
    ensures r.Err? ==> r.error in {BadFormat, Crashed}
  {
    var parts := Split(data, '_');
    if |parts| != 3 then Err(BadFormat)
    else
      match (ParseInt(parts[1]), ParseInt(parts[2]))
      case (Some(toolId), Some(chatId)) => Ok(IssueCommand(parts[0], toolId, chatId))
      case _ => Err(Crashed)
  }

  lemma JoinCons(x: string, rest: seq<string>, sep: char)
    requires |rest| >= 1
    ensures Join([x] + rest, sep) == x + [sep] + Join(rest, sep)
  {
    assert ([x] + rest)[1..] == rest;
  }

  /** The separator-free pieces of `a_b_c` are `a`, `b` and `c`. */
  lemma SplitThree(a: string, b: string, c: string)
    requires '_' !in a && '_' !in b && '_' !in c
    ensures Split(a + "_" + b + "_" + c, '_') == [a, b, c]
  {
    JoinCons(b, [c], '_');
    JoinCons(a, [b, c], '_');
    assert [a] + [b, c] == [a, b, c];
    assert a + "_" + b + "_" + c == a + ['_'] + (b + ['_'] + c);
    SplitJoin([a, b, c], '_');
  }

  /** The same for four pieces. */
  lemma SplitFour(a: string, b: string, c: string, d: string)
    requires '_' !in a && '_' !in b && '_' !in c && '_' !in d
    ensures Split(a + "_" + b + "_" + c + "_" + d, '_') == [a, b, c, d]
  {
    JoinCons(c, [d], '_');
    JoinCons(b, [c, d], '_');
    JoinCons(a, [b, c, d], '_');
    assert [b] + [c, d] == [b, c, d];
    assert [a] + [b, c, d] == [a, b, c, d];
    assert a + "_" + b + "_" + c + "_" + d == a + ['_'] + (b + ['_'] + (c + ['_'] + d));
    SplitJoin([a, b, c, d], '_');
  }

  /** The data of the admin's buttons reads back as the action, tool and chat it was built from. */
  lemma IssueCallbackRoundTrip(action: string, toolId: int, chatId: int)
    requires '_' !in action
    ensures ParseIssueCallback(IssueCallback(action, toolId, chatId)) == Ok(IssueCommand(action, toolId, chatId))
  {
    SplitThree(action, ShowInt(toolId), ShowInt(chatId));
    ParseShowInt(toolId);
    ParseShowInt(chatId);
  }

  /** `_, _, tool_id, user_id = data.split('_')` and the two `int()` calls; `None` where the
      unpacking or a conversion raises. */
  function ParseReturnCallback(data: string): (r: Option<(int, int)>)
    ensures r.Some? <==> |Split(data, '_')| == 4 && ParseInt(Split(data, '_')[2]).Some? && ParseInt(Split(data, '_')[3]).Some?
    ensures r.Some? ==> r.value == (ParseInt(Split(data, '_')[2]).value, ParseInt(Split(data, '_')[3]).value)
  {
    var parts := Split(data, '_');
    if |parts| != 4 then None
    else
      match (ParseInt(parts[2]), ParseInt(parts[3]))
      case (Some(toolId), Some(userId)) => Some((toolId, userId))
      case _ => None
  }

  /** A return button's data reads back as its tool and user. */
  lemma ReturnCallbackRoundTrip(action: string, toolId: int, userId: int)
    requires '_' !in action
    ensures ParseReturnCallback(ReturnCallback(action, toolId, userId)) == Some((toolId, userId))
  {
    SplitFour(action, "return", ShowInt(toolId), ShowInt(userId));
    ParseShowInt(toolId);
    ParseShowInt(userId);
  }

  // ---------------------------------------------------------------------------
  // process_admin_issue_response
  // ---------------------------------------------------------------------------

  /** `process_admin_issue_response`. The format and the numbers are checked first, then the
      caller; only the administrator reaches the store. "approve" needs the request info and a
      successful `approve_issue_request`. "reject" calls `reject_issue_request`, a name bot.py
      never imports: with `rejectImported` false (the code as written) the call raises
      `NameError`, which the handler catches; with it true the call goes to the database. */
  function IssueResponse(s: Store, data: string, userId: int, now: int, rejectImported: bool): (r: Outcome<Reply>)
    ensures |Split(data, '_')| != 3 ==> r == Outcome(BadFormat, s)
    ensures !IsAdmin(userId) ==> r.store == s && r.result in {BadFormat, Crashed, NotAdmin}
    ensures r.result != RequestApproved && r.result != RequestRejected ==> r.store == s
    ensures r.result == RequestApproved <==>
              && ParseIssueCallback(data).Ok?
              && ParseIssueCallback(data).value.action == APPROVE
              && IsAdmin(userId)
              && ApproveIssueRequest(s, ParseIssueCallback(data).value.toolId, ParseIssueCallback(data).value.chatId, now).result
    ensures r.result == RequestApproved ==>
              r.store == ApproveIssueRequest(s, ParseIssueCallback(data).value.toolId, ParseIssueCallback(data).value.chatId, now).store
    ensures r.result == RequestRejected <==>
              && rejectImported
              && ParseIssueCallback(data).Ok?
              && ParseIssueCallback(data).value.action == REJECT
              && IsAdmin(userId)
              && RejectIssueRequest(s, ParseIssueCallback(data).value.toolId, ParseIssueCallback(data).value.chatId).result
    ensures r.result == RequestRejected ==>
              r.store == RejectIssueRequest(s, ParseIssueCallback(data).value.toolId, ParseIssueCallback(data).value.chatId).store
  {
    match ParseIssueCallback(data)
    case Err(reply) => Outcome(reply, s)
    case Ok(IssueCommand(action, toolId, chatId)) =>
      if !IsAdmin(userId) then Outcome(NotAdmin, s)
      else if action == APPROVE then
        if GetIssueRequestInfo(s, toolId, chatId).None? then
          assert !ApproveIssueRequest(s, toolId, chatId, now).result by {
            if FirstPending(s.requests, toolId, chatId).Some? {
              var p := FirstPending(s.requests, toolId, chatId).value;
              var i :| 0 <= i < |s.requests| && s.requests[i] == p;
            }
          }
          Outcome(ApproveFailed, s)
        else
          var o := ApproveIssueRequest(s, toolId, chatId, now);
          Outcome(if o.result then RequestApproved else ApproveFailed, o.store)
      else if action == REJECT then
        if !rejectImported then Outcome(Crashed, s)
        else
          var o := RejectIssueRequest(s, toolId, chatId);
          Outcome(if o.result then RequestRejected else RejectFailed, o.store)
      else Outcome(Unanswered, s)
  }

  /** The handler as written. */
  function HandleIssueResponse(s: Store, data: string, userId: int, now: int): (r: Outcome<Reply>)
    ensures r.result != RequestRejected
    ensures r.result != RequestApproved ==> r.store == s
  {
    IssueResponse(s, data, userId, now, false)
  }

  /** The handler with `reject_issue_request` imported from db.py. */
  function HandleIssueResponseFixed(s: Store, data: string, userId: int, now: int): (r: Outcome<Reply>)
    ensures r.result != RequestApproved && r.result != RequestRejected ==> r.store == s
    ensures r.result == RequestRejected ==> r.store.tools == s.tools && r.store.issued == s.issued && r.store.history == s.history
  {
    IssueResponse(s, data, userId, now, true)
  }

  /** As written, the administrator's "reject" button never rejects: it answers with the
      generic error and changes nothing, even when a pending request is there to reject. */
  lemma RejectButtonCrashes(s: Store, toolId: int, chatId: int, now: int)
    ensures HandleIssueResponse(s, IssueCallback(REJECT, toolId, chatId), ADMIN_ID, now) == Outcome(Crashed, s)
  {
    IssueCallbackRoundTrip(REJECT, toolId, chatId);
  }

  /** With the import in place, the same button rejects exactly when a matching request is
      pending, marking it `rejected` and touching nothing else. */
  lemma RejectButtonRejectsWhenFixed(s: Store, toolId: int, chatId: int, now: int)
    ensures var r := HandleIssueResponseFixed(s, IssueCallback(REJECT, toolId, chatId), ADMIN_ID, now);
            && (r.result == RequestRejected <==> exists i :: 0 <= i < |s.requests| && PendingFor(s.requests[i], toolId, chatId))
            && (r.result == RequestRejected ==> r.store == RejectIssueRequest(s, toolId, chatId).store)
  {
    IssueCallbackRoundTrip(REJECT, toolId, chatId);
  }

  /** End to end: a request for an available tool, answered by the administrator's "approve"
      button, issues the tool to the requester. */
  lemma RequestThenAdminApproves(s: Store, toolId: int, employee: string, chatId: int, now: int, later: int)
    requires Valid(s)
    requires FirstPending(s.requests, toolId, chatId).None?
    requires CreateToolRequest(s, toolId, employee, chatId, now).result
    ensures var s1 := CreateToolRequest(s, toolId, employee, chatId, now).store;
            var r := HandleIssueResponse(s1, IssueCallback(APPROVE, toolId, chatId), ADMIN_ID, later);
            && r.result == RequestApproved
            && FindTool(r.store.tools, toolId).value.status == Issued
            && r.store.issued == s.issued + [IssueRecord(toolId, employee, later, None, None)]
  {
    RequestThenApprove(s, toolId, employee, chatId, now, later);
    ApproveButtonApproves(CreateToolRequest(s, toolId, employee, chatId, now).store, toolId, chatId, later);
  }

  /** The administrator's "approve" button performs a successful approval. */
  lemma ApproveButtonApproves(s: Store, toolId: int, chatId: int, now: int)
    requires ApproveIssueRequest(s, toolId, chatId, now).result
    ensures HandleIssueResponse(s, IssueCallback(APPROVE, toolId, chatId), ADMIN_ID, now)
            == Outcome(RequestApproved, ApproveIssueRequest(s, toolId, chatId, now).store)
  {
    IssueCallbackRoundTrip(APPROVE, toolId, chatId);
  }

  // ---------------------------------------------------------------------------
  // approve_return and reject_return
  // ---------------------------------------------------------------------------

  /** The store effects of `approve_return` once the ids are read: nothing when
      `get_issued_tool_by_id` finds no outstanding issue; otherwise `update_tool_status(...,
      'available')` and a `returned` history entry under the user id (stored as text). The
      issue row is left as it is. */
  function ConfirmReturn(s: Store, toolId: int, userId: int, now: int): (r: Outcome<Reply>)
    ensures r.result == NotFound || r.result == ReturnConfirmed
    ensures r.result == NotFound <==> GetIssuedToolById(s, toolId, now).None?
    ensures r.result == NotFound ==> r.store == s
    ensures r.result == ReturnConfirmed ==>
              && r.store.tools == SetStatus(s.tools, toolId, Available)
              && r.store.issued == s.issued
              && r.store.requests == s.requests
              && r.store.history == s.history + [HistoryEntry(toolId, ACTION_RETURNED, ShowInt(userId), now)]
              && r.store.toolSeq == s.toolSeq && r.store.requestSeq == s.requestSeq
  {
    if GetIssuedToolById(s, toolId, now).None? then Outcome(NotFound, s)
    else
      var s1 := UpdateToolStatus(s, toolId, Available).store;
      var s2 := AddToolHistory(s1, toolId, ACTION_RETURNED, ShowInt(userId), now).store;
      Outcome(ReturnConfirmed, s2)
  }

  /** `approve_return` as written. */
  function ApproveReturn(s: Store, data: string, now: int): (r: Outcome<Reply>)
    ensures ParseReturnCallback(data).None? ==> r == Outcome(Crashed, s)
    ensures ParseReturnCallback(data).Some? ==>
              r == ConfirmReturn(s, ParseReturnCallback(data).value.0, ParseReturnCallback(data).value.1, now)
  {
    match ParseReturnCallback(data)
    case None => Outcome(Crashed, s)
    case Some((toolId, userId)) => ConfirmReturn(s, toolId, userId, now)
  }

  /** The confirm button offered for a return acts on the tool and user written into it. */
  lemma ApproveReturnOnItsButton(s: Store, toolId: int, userId: int, now: int)
    ensures ApproveReturn(s, ReturnCallback(APPROVE, toolId, userId), now) == ConfirmReturn(s, toolId, userId, now)
  {
    ReturnCallbackRoundTrip(APPROVE, toolId, userId);
  }

  /** Opening a tool's outstanding row leaves it looking outstanding: only the status changed. */
  lemma OpenRowsSurviveStatusChange(s: Store, s1: Store, toolId: int, x: int, now: int, later: int)
    requires s1.issued == s.issued && s1.tools == SetStatus(s.tools, toolId, Available)
    ensures GetIssuedToolById(s1, x, later).Some? <==> GetIssuedToolById(s, x, now).Some?
  {
    forall y ensures FindTool(s1.tools, y).Some? <==> FindTool(s.tools, y).Some? {
      FindToolSetStatus(s.tools, toolId, Available, y);
    }
  }

  /** As written, confirming a return keeps the issue row outstanding: the store no longer
      satisfies the invariant (an `available` tool with an issue row), and confirming the same
      return again succeeds again and logs a second `returned` entry. */
  lemma ConfirmReturnLeavesRecordOpen(s: Store, toolId: int, userId: int, now: int, later: int)
    requires Inv(s)
    requires GetIssuedToolById(s, toolId, now).Some?
    ensures var s1 := ConfirmReturn(s, toolId, userId, now).store;
            && ConfirmReturn(s, toolId, userId, now).result == ReturnConfirmed
            && !Inv(s1)
            && GetIssuedToolById(s1, toolId, later).Some?
            && ConfirmReturn(s1, toolId, userId, later).result == ReturnConfirmed
            && |ConfirmReturn(s1, toolId, userId, later).store.history| == |s.history| + 2
  {
    var v := GetIssuedToolById(s, toolId, now).value;
    assert v in GetIssuedTools(s, now);
    var i :| 0 <= i < |s.issued| && OpenJoined(s, s.issued[i]) && v == ViewOf(s, s.issued[i], now);
    IssuedStatusAgreesWithQueries(s, toolId, now);
    UpdateToolStatusBreaksInv(s, toolId);
    var s1 := ConfirmReturn(s, toolId, userId, now).store;
    assert UpdateToolStatus(s, toolId, Available).store.tools == s1.tools;
    OpenRowsSurviveStatusChange(s, s1, toolId, toolId, now, later);
  }

  /** Under the invariant the outstanding row `get_issued_tool_by_id` finds is the tool's first
      issue row. */
  lemma OpenViewIsFirstRow(s: Store, toolId: int, now: int)
    requires Inv(s)
    requires GetIssuedToolById(s, toolId, now).Some?
    ensures FirstRowOf(s.issued, toolId).Some?
    ensures FirstRowOf(s.issued, toolId).value.employee == GetIssuedToolById(s, toolId, now).value.employee
    ensures FindTool(s.tools, toolId).value.status == Issued
  {
    var v := GetIssuedToolById(s, toolId, now).value;
    assert v in GetIssuedTools(s, now);
    var i :| 0 <= i < |s.issued| && OpenJoined(s, s.issued[i]) && v == ViewOf(s, s.issued[i], now);
    IssuedStatusAgreesWithQueries(s, toolId, now);
    AtMostOneOpenPerTool(s, toolId);
    OnlyRowIsFirst(s.issued, toolId, i);
  }

  lemma {:induction false} OnlyRowIsFirst(rows: seq<IssueRecord>, x: int, i: int)
    requires 0 <= i < |rows| && rows[i].toolId == x
    requires CountRows(rows, x) <= 1
    ensures FirstRowOf(rows, x) == Some(rows[i])
  {
    if rows[0].toolId != x {
      assert rows[1..][i - 1] == rows[i];
      OnlyRowIsFirst(rows[1..], x, i - 1);
    }
  }

  /** The evident intent of `approve_return`: close the issue through `return_tool`, which
      deletes the outstanding row, marks the tool `available` and logs the return. */
  function ConfirmReturnFixed(s: Store, toolId: int, userId: int, now: int): (r: Outcome<Reply>)
    ensures r.result == NotFound || r.result == ReturnConfirmed
    ensures GetIssuedToolById(s, toolId, now).None? ==> r == Outcome(NotFound, s)
    ensures r.result == NotFound ==> r.store == s
    ensures r.result == ReturnConfirmed ==>
              && GetIssuedToolById(s, toolId, now).Some?
              && r.store == ReturnTool(s, toolId, GetIssuedToolById(s, toolId, now).value.employee, now).store
  {
    match GetIssuedToolById(s, toolId, now)
    case None => Outcome(NotFound, s)
    case Some(v) =>
      var o := ReturnTool(s, toolId, v.employee, now);
      Outcome(if o.result then ReturnConfirmed else NotFound, o.store)
  }

  /** Corrected, a confirmed return keeps the invariant, leaves the tool `available` with no
      outstanding issue, and a second confirmation finds nothing to confirm. */
  lemma ConfirmReturnFixedClosesRecord(s: Store, toolId: int, userId: int, now: int, later: int)
    requires Inv(s)
    requires GetIssuedToolById(s, toolId, now).Some?
    ensures var r := ConfirmReturnFixed(s, toolId, userId, now);
            && r.result == ReturnConfirmed
            && Inv(r.store)
            && FindTool(r.store.tools, toolId).value.status == Available
            && GetIssuedToolById(r.store, toolId, later).None?
            && ConfirmReturnFixed(r.store, toolId, userId, later) == Outcome(NotFound, r.store)
  {
    var employee := GetIssuedToolById(s, toolId, now).value.employee;
    OpenViewIsFirstRow(s, toolId, now);
    ReturnToolPreservesInv(s, toolId, employee, now);
    var s1 := ReturnTool(s, toolId, employee, now).store;
    IssuedStatusAgreesWithQueries(s1, toolId, later);
  }

  /** `reject_return`: reads the ids and looks the tool up, then only sends messages. */
  function RejectReturn(s: Store, data: string, now: int): (r: Outcome<Reply>)
    ensures r.store == s
    ensures ParseReturnCallback(data).None? <==> r.result == Crashed
    ensures r.result == ReturnRefused <==>
              ParseReturnCallback(data).Some? && GetIssuedToolById(s, ParseReturnCallback(data).value.0, now).Some?
  {
    match ParseReturnCallback(data)
    case None => Outcome(Crashed, s)
    case Some((toolId, _)) =>
      if GetIssuedToolById(s, toolId, now).None? then Outcome(NotFound, s) else Outcome(ReturnRefused, s)
  }

  // ---------------------------------------------------------------------------
  // Dispatch
  // ---------------------------------------------------------------------------

  /** The handlers a callback can reach. */
  datatype Handler = IssueResponseHandler | ApproveReturnHandler | RejectReturnHandler | OtherHandler

  /** aiogram 2 runs the first registered handler whose filter accepts the data. The issue
      handler's `startswith(("approve_", "reject_"))` is registered before the two return
      handlers and accepts their data too. */
  function Route(data: string): (h: Handler)
    ensures h == IssueResponseHandler <==> StartsWith(data, "approve_") || StartsWith(data, "reject_")
  {
    if StartsWith(data, "approve_") || StartsWith(data, "reject_") then IssueResponseHandler
    else if StartsWith(data, "approve_return_") then ApproveReturnHandler
    else if StartsWith(data, "reject_return_") then RejectReturnHandler
    else OtherHandler
  }

  /** The two return handlers are unreachable. */
  lemma ReturnHandlersUnreachable(data: string)
    ensures Route(data) != ApproveReturnHandler && Route(data) != RejectReturnHandler
  {
    if StartsWith(data, "approve_return_") {
      assert data[..8] == "approve_return_"[..8];
    }
    if StartsWith(data, "reject_return_") {
      assert data[..7] == "reject_return_"[..7];
    }
  }

  /** What the administrator's "confirm return" button actually does: the issue handler takes
      it, finds four fields instead of three, and answers with the format error, changing
      nothing. */
  lemma ConfirmReturnButtonIsRejected(s: Store, toolId: int, userId: int, caller: int, now: int)
    ensures Route(ReturnCallback(APPROVE, toolId, userId)) == IssueResponseHandler
    ensures HandleIssueResponse(s, ReturnCallback(APPROVE, toolId, userId), caller, now) == Outcome(BadFormat, s)
  {
    var data := ReturnCallback(APPROVE, toolId, userId);
    assert data[..8] == "approve_";
    assert data == APPROVE + "_" + "return" + "_" + ShowInt(toolId) + "_" + ShowInt(userId);
    SplitFour(APPROVE, "return", ShowInt(toolId), ShowInt(userId));
  }

  /** The corrected order: the more specific return prefixes are tried first. */
  function RouteFixed(data: string): (h: Handler)
    ensures h == ApproveReturnHandler <==> StartsWith(data, "approve_return_")
    ensures h == RejectReturnHandler <==> StartsWith(data, "reject_return_")
  {
    if StartsWith(data, "approve_return_") then
      assert !StartsWith(data, "reject_return_") by {
        StartsWithAt(data, "approve_return_", 0);
      }
      ApproveReturnHandler
    else if StartsWith(data, "reject_return_") then RejectReturnHandler
    else if StartsWith(data, "approve_") || StartsWith(data, "reject_") then IssueResponseHandler
    else OtherHandler
  }

  /** A text starting with `prefix` has `prefix[k]` at position `k`. */
  lemma StartsWithAt(s: string, prefix: string, k: int)
    requires StartsWith(s, prefix) && 0 <= k < |prefix|
    ensures s[k] == prefix[k]
  {
    assert s[..|prefix|][k] == s[k];
  }

  lemma StartsWithConcat(prefix: string, rest: string)
    ensures StartsWith(prefix + rest, prefix)
  {
    assert (prefix + rest)[..|prefix|] == prefix;
  }

  /** With the corrected order the request buttons still reach the issue handler: the
      character after `approve_` or `reject_` is the tool id's sign or first digit, not the
      `r` of `return`. */
  lemma FixedRouteKeepsIssueButtons(action: string, toolId: int, chatId: int)
    requires action == APPROVE || action == REJECT
    ensures RouteFixed(IssueCallback(action, toolId, chatId)) == IssueResponseHandler
  {
    var head := action + "_";
    var rest := ShowInt(toolId) + "_" + ShowInt(chatId);
    assert IssueCallback(action, toolId, chatId) == head + rest;
    assert rest[0] == ShowInt(toolId)[0];
    IssueDataRoutesToIssueHandler(head, rest);
  }

  lemma IssueDataRoutesToIssueHandler(head: string, rest: string)
    requires head == "approve_" || head == "reject_"
    requires |rest| > 0 && (rest[0] == '-' || IsDigit(rest[0]))
    ensures RouteFixed(head + rest) == IssueResponseHandler
  {
    StartsWithConcat(head, rest);
    assert (head + rest)[|head|] == rest[0];
    NoReturnAfterAction(head + rest, head);
  }

  /** Data that starts with `approve_` or `reject_` followed by a sign or a digit does not
      start with either return prefix. */
  lemma NoReturnAfterAction(data: string, head: string)
    requires head == "approve_" || head == "reject_"
    requires StartsWith(data, head) && |data| > |head|
    requires data[|head|] == '-' || IsDigit(data[|head|])
    ensures !StartsWith(data, "approve_return_") && !StartsWith(data, "reject_return_")
  {
    if StartsWith(data, "approve_return_") {
      StartsWithAt(data, head, 0);
      StartsWithAt(data, "approve_return_", 0);
      StartsWithAt(data, "approve_return_", |head|);
    }
    if StartsWith(data, "reject_return_") {
      StartsWithAt(data, head, 0);
      StartsWithAt(data, "reject_return_", 0);
      StartsWithAt(data, "reject_return_", |head|);
    }
  }

  /** With the corrected order the return buttons reach the return handlers. */
  lemma FixedRouteReachesReturnHandlers(toolId: int, userId: int)
    ensures RouteFixed(ReturnCallback(APPROVE, toolId, userId)) == ApproveReturnHandler
    ensures RouteFixed(ReturnCallback(REJECT, toolId, userId)) == RejectReturnHandler
  {
    ApproveReturnButtonRoutes(toolId, userId);
    RejectReturnButtonRoutes(toolId, userId);
  }

  lemma ApproveReturnButtonRoutes(toolId: int, userId: int)
    ensures RouteFixed(ReturnCallback(APPROVE, toolId, userId)) == ApproveReturnHandler
  {
    var ids := ShowInt(toolId) + "_" + ShowInt(userId);
    ReturnCallbackShape(APPROVE, toolId, userId);
    assert APPROVE + "_return_" == "approve_return_";
    ApproveReturnDataRoutes(ids);
  }

  lemma RejectReturnButtonRoutes(toolId: int, userId: int)
    ensures RouteFixed(ReturnCallback(REJECT, toolId, userId)) == RejectReturnHandler
  {
    var ids := ShowInt(toolId) + "_" + ShowInt(userId);
    ReturnCallbackShape(REJECT, toolId, userId);
    assert REJECT + "_return_" == "reject_return_";
    RejectReturnDataRoutes(ids);
  }

  /** A return button is its action's `_return_` prefix followed by the two ids. */
  lemma ReturnCallbackShape(action: string, toolId: int, userId: int)
    ensures ReturnCallback(action, toolId, userId) == action + "_return_" + (ShowInt(toolId) + "_" + ShowInt(userId))
  {
    var sep := "_" + "return" + "_";
    assert sep == "_return_";
    assert action + "_" + "return" + "_" == action + sep;
  }

  lemma ApproveReturnDataRoutes(rest: string)
    ensures RouteFixed("approve_return_" + rest) == ApproveReturnHandler
  {
    StartsWithConcat("approve_return_", rest);
  }

  lemma RejectReturnDataRoutes(rest: string)
    ensures RouteFixed("reject_return_" + rest) == RejectReturnHandler
  {
    var data := "reject_return_" + rest;
    StartsWithConcat("reject_return_", rest);
    if StartsWith(data, "approve_return_") {
      StartsWithAt(data, "approve_return_", 0);
      StartsWithAt(data, "reject_return_", 0);
    }
  }
}
