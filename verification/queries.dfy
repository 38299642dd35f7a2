/** The read-only functions of db.py: `get_tools`, `get_tool_by_id`, `get_issued_tools`, `get_admin_issued_tools`,
    `get_issued_tool_by_id`, `get_overdue_tools`, `is_tool_issued`, `get_issue_request_info`,
    `get_all_issue_requests`. None of them changes the store, so each is a function of it.

    The joins `tools t JOIN issued_tools i ON t.id = i.tool_id` keep only issue rows whose
    tool exists. SQL gives no order to a join without `ORDER BY`; the model lists rows in
    issue-row order and its contracts speak about membership only. */
module Queries {
  import opened Base
  import opened Schema
  import Sorting

  /** A row of `get_tools`: `(id, name, status, quantity)`. */
  datatype ToolRow = ToolRow(id: int, name: string, status: Status, quantity: int)

  /** A row of `get_issued_tools` and `get_issued_tool_by_id`:
      `(t.id, t.name, i.employee_name, issue day, expected return day)`. */
  datatype IssuedView = IssuedView(toolId: int, name: string, employee: string, issueDay: int, expectedDay: int)

  /** A row of `get_admin_issued_tools`; a missing expected date shows as "not specified". */
  datatype AdminIssuedRow = AdminIssuedRow(name: string, employee: string, issueDay: int, expectedDay: Option<int>)

  /** A row of `get_overdue_tools`. */
  datatype OverdueRow = OverdueRow(
    toolId: int,
    name: string,
    employee: string,
    issuedAt: int,
    expectedReturn: Option<int>,
    quantity: int)

  /** A row of `get_issue_request_info`: `(r.id, r.tool_id, r.employee_name, r.status, t.name)`. */
  datatype RequestInfo = RequestInfo(id: int, toolId: int, employee: string, status: RequestStatus, toolName: string)

  /** A row of `get_all_issue_requests`. */
  datatype RequestRow = RequestRow(
    id: int,
    toolName: string,
    employee: string,
    chatId: int,
    requestedAt: int,
    status: RequestStatus)

  // ---------------------------------------------------------------------------
  // get_tools
  // ---------------------------------------------------------------------------

  function ToolRowOf(t: Tool): ToolRow
  {
    ToolRow(t.id, t.name, t.status, t.quantity)
  }

  /** `get_tools`: every tool, whatever its status, in id order. */
  function GetTools(s: Store): (r: seq<ToolRow>)
    ensures |r| == |s.tools|
    ensures forall i :: 0 <= i < |r| ==> r[i] == ToolRowOf(s.tools[i])
  {
    seq(|s.tools|, i requires 0 <= i < |s.tools| => ToolRowOf(s.tools[i]))
  }

  /** A row of `get_tool_by_id`: `(id, name, status, quantity, description)`. */
  datatype ToolInfo = ToolInfo(id: int, name: string, status: Status, quantity: int, description: Option<string>)

  /** `get_tool_by_id`: the tool with that id, if there is one. */
  function GetToolById(s: Store, id: int): (r: Option<ToolInfo>)
    ensures r.Some? <==> HasTool(s, id)
    ensures r.Some? ==> exists t :: t in s.tools && t.id == id && r.value == ToolInfo(t.id, t.name, t.status, t.quantity, t.description)
  {
    match FindTool(s.tools, id)
    case None => None
    case Some(t) => Some(ToolInfo(t.id, t.name, t.status, t.quantity, t.description))
  }

  /** Looking a tool up by id agrees with the full listing: it is found exactly when
      `get_tools` lists a row with that id, and then with the same name, status and quantity. */
  lemma GetToolByIdAgreesWithGetTools(s: Store, id: int)
    requires Valid(s)
    ensures GetToolById(s, id).Some? <==> exists row :: row in GetTools(s) && row.id == id
    ensures GetToolById(s, id).Some? ==>
              var t := GetToolById(s, id).value;
              ToolRow(t.id, t.name, t.status, t.quantity) in GetTools(s)
  {
    if GetToolById(s, id).Some? {
      var t := FindTool(s.tools, id).value;
      var i :| 0 <= i < |s.tools| && s.tools[i] == t;
      assert GetTools(s)[i] == ToolRow(t.id, t.name, t.status, t.quantity);
    } else {
      forall row | row in GetTools(s) ensures row.id != id {
        var i :| 0 <= i < |GetTools(s)| && GetTools(s)[i] == row;
        assert s.tools[i].id == row.id;
      }
    }
  }

  // ---------------------------------------------------------------------------
  // Outstanding issues joined with their tools
  // ---------------------------------------------------------------------------

  /** An issue row that is outstanding and whose tool exists, so the join keeps it. */
  predicate OpenJoined(s: Store, rec: IssueRecord)
  {
    rec.returnedAt.None? && HasTool(s, rec.toolId)
  }

  /** How `get_issued_tools` shows one joined row; missing dates fall back to today and today + 7. */
  function ViewOf(s: Store, rec: IssueRecord, now: int): (v: IssuedView)
    requires HasTool(s, rec.toolId)
    ensures v.toolId == rec.toolId && v.employee == rec.employee
  {
    var t := FindTool(s.tools, rec.toolId).value;
    IssuedView(t.id, t.name, rec.employee, Day(rec.issuedAt),
               rec.expectedReturn.GetOr(Day(now) + DEFAULT_LOAN_DAYS))
  }

  /** How many of `rows` are outstanding and join an existing tool. */
  function CountOpenJoined(s: Store, rows: seq<IssueRecord>): (n: nat)
    ensures n <= |rows|
  {
    if |rows| == 0 then 0
    else (if OpenJoined(s, rows[0]) then 1 else 0) + CountOpenJoined(s, rows[1..])
  }

  function IssuedViews(s: Store, rows: seq<IssueRecord>, now: int): (r: seq<IssuedView>)
    ensures |r| == CountOpenJoined(s, rows)
    ensures forall v :: v in r <==>
              exists i :: 0 <= i < |rows| && OpenJoined(s, rows[i]) && v == ViewOf(s, rows[i], now)
  {
    if |rows| == 0 then []
    else
      var rest := IssuedViews(s, rows[1..], now);
      assert forall i :: 1 <= i < |rows| ==> rows[i] == rows[1..][i - 1];
      if OpenJoined(s, rows[0]) then [ViewOf(s, rows[0], now)] + rest else rest
  }

  /** `get_issued_tools`: one row per outstanding issue row (`return_date IS NULL`) of an
      existing tool. */
  function GetIssuedTools(s: Store, now: int): (r: seq<IssuedView>)
    ensures |r| == CountOpenJoined(s, s.issued)
    ensures forall v :: v in r <==>
              exists i :: 0 <= i < |s.issued| && OpenJoined(s, s.issued[i]) && v == ViewOf(s, s.issued[i], now)
  {
    IssuedViews(s, s.issued, now)
  }

  /** `get_issued_tool_by_id`: the first outstanding issue of tool `id`, if any. */
  function GetIssuedToolById(s: Store, id: int, now: int): (r: Option<IssuedView>)
    ensures r.Some? ==> r.value.toolId == id && r.value in GetIssuedTools(s, now)
    ensures r.None? <==>
              forall i :: 0 <= i < |s.issued| && s.issued[i].toolId == id ==> !OpenJoined(s, s.issued[i])
  {
    var views := GetIssuedTools(s, now);
    assert forall i :: 0 <= i < |s.issued| && OpenJoined(s, s.issued[i]) ==> ViewOf(s, s.issued[i], now) in views;
    FirstOfTool(views, id)
  }

  function FirstOfTool(views: seq<IssuedView>, id: int): (r: Option<IssuedView>)
    ensures r.Some? ==> r.value.toolId == id && r.value in views
    ensures r.None? <==> forall v :: v in views ==> v.toolId != id
  {
    if |views| == 0 then None
    else if views[0].toolId == id then Some(views[0])
    else FirstOfTool(views[1..], id)
  }

  /** SQLite's `ORDER BY` on a nullable column: NULL sorts before every value. */
  predicate NullsFirstLe(a: Option<int>, b: Option<int>)
  {
    a.None? || (b.Some? && a.value <= b.value)
  }

  function AdminRowOf(v: IssuedView, rec: IssueRecord): AdminIssuedRow
  {
    AdminIssuedRow(v.name, v.employee, v.issueDay, rec.expectedReturn)
  }

  function AdminRows(s: Store, rows: seq<IssueRecord>): (r: seq<AdminIssuedRow>)
    ensures forall x :: x in r <==>
              exists i :: 0 <= i < |rows| && OpenJoined(s, rows[i]) && x == AdminRowOf(ViewOf(s, rows[i], 0), rows[i])
  {
    if |rows| == 0 then []
    else
      var rest := AdminRows(s, rows[1..]);
      assert forall i :: 1 <= i < |rows| ==> rows[i] == rows[1..][i - 1];
      if OpenJoined(s, rows[0]) then [AdminRowOf(ViewOf(s, rows[0], 0), rows[0])] + rest else rest
  }

  /** `get_admin_issued_tools`: the outstanding issues ordered by expected return date,
      records without one first. */
  function GetAdminIssuedTools(s: Store): (r: seq<AdminIssuedRow>)
    ensures multiset(r) == multiset(AdminRows(s, s.issued))
    ensures forall i :: 0 < i < |r| ==> NullsFirstLe(r[i - 1].expectedDay, r[i].expectedDay)
  {
    var le := (a: AdminIssuedRow, b: AdminIssuedRow) => NullsFirstLe(a.expectedDay, b.expectedDay);
    Sorting.Sort(le, AdminRows(s, s.issued))
  }

  // ---------------------------------------------------------------------------
  // get_overdue_tools
  // ---------------------------------------------------------------------------

  /** The `WHERE` of `get_overdue_tools`. `expected_return_date < datetime('now')` compares a
      `'YYYY-MM-DD'` text with a `'YYYY-MM-DD HH:MM:SS'` text, so a record is already overdue
      on its expected day. */
  predicate IsOverdue(rec: IssueRecord, now: int, thresholdDays: nat)
  {
    && rec.returnedAt.None?
    && ((rec.expectedReturn.Some? && rec.expectedReturn.value <= Day(now))
        || rec.issuedAt < now - thresholdDays * SECONDS_PER_DAY)
  }

  function OverdueRowOf(s: Store, rec: IssueRecord): OverdueRow
    requires HasTool(s, rec.toolId)
  {
    var t := FindTool(s.tools, rec.toolId).value;
    OverdueRow(t.id, t.name, rec.employee, rec.issuedAt, rec.expectedReturn, t.quantity)
  }

  function OverdueRows(s: Store, rows: seq<IssueRecord>, now: int, thresholdDays: nat): (r: seq<OverdueRow>)
    ensures forall x :: x in r <==>
              exists i :: 0 <= i < |rows| && HasTool(s, rows[i].toolId) && IsOverdue(rows[i], now, thresholdDays)
                          && x == OverdueRowOf(s, rows[i])
  {
    if |rows| == 0 then []
    else
      var rest := OverdueRows(s, rows[1..], now, thresholdDays);
      assert forall i :: 1 <= i < |rows| ==> rows[i] == rows[1..][i - 1];
      if HasTool(s, rows[0].toolId) && IsOverdue(rows[0], now, thresholdDays)
      then [OverdueRowOf(s, rows[0])] + rest
      else rest
  }

  /** `get_overdue_tools(days_threshold)`: outstanding issues that are past their expected
      date, or that were issued more than `days_threshold` days ago. */
  function GetOverdueTools(s: Store, now: int, thresholdDays: nat): (r: seq<OverdueRow>)
    ensures forall x :: x in r <==>
              exists i :: 0 <= i < |s.issued| && HasTool(s, s.issued[i].toolId)
                          && IsOverdue(s.issued[i], now, thresholdDays) && x == OverdueRowOf(s, s.issued[i])
  {
    OverdueRows(s, s.issued, now, thresholdDays)
  }

  /** Every overdue row is also listed by `get_issued_tools`. */
  lemma OverdueAreIssued(s: Store, now: int, thresholdDays: nat, x: OverdueRow)
    requires x in GetOverdueTools(s, now, thresholdDays)
    ensures exists v :: v in GetIssuedTools(s, now) && v.toolId == x.toolId && v.employee == x.employee
  {
    var i :| 0 <= i < |s.issued| && HasTool(s, s.issued[i].toolId)
             && IsOverdue(s.issued[i], now, thresholdDays) && x == OverdueRowOf(s, s.issued[i]);
    assert OpenJoined(s, s.issued[i]);
    var v := ViewOf(s, s.issued[i], now);
    assert v in GetIssuedTools(s, now);
  }

  // ---------------------------------------------------------------------------
  // is_tool_issued
  // ---------------------------------------------------------------------------

  /** The number of `issued_tools` rows for `toolId`, outstanding or not. */
  function CountRows(rows: seq<IssueRecord>, toolId: int): (n: nat)
    ensures n == 0 <==> forall i :: 0 <= i < |rows| ==> rows[i].toolId != toolId
    ensures n <= |rows|
  {
    if |rows| == 0 then 0
    else (if rows[0].toolId == toolId then 1 else 0) + CountRows(rows[1..], toolId)
  }

  /** `is_tool_issued`: `COUNT(*) > 0` over every issue row of the tool, whether or not it was returned. */
  function IsToolIssued(s: Store, toolId: int): (r: bool)
    ensures r <==> exists i :: 0 <= i < |s.issued| && s.issued[i].toolId == toolId
  {
    CountRows(s.issued, toolId) > 0
  }

  /** A tool listed by `get_issued_tool_by_id` is issued in the sense of `is_tool_issued`;
      the converse fails for returned records and for rows of missing tools. */
  lemma IssuedByIdImpliesIsToolIssued(s: Store, id: int, now: int)
    requires GetIssuedToolById(s, id, now).Some?
    ensures IsToolIssued(s, id)
  {
  }

  // ---------------------------------------------------------------------------
  // Issue requests
  // ---------------------------------------------------------------------------

  /** A pending request of `chatId` for `toolId`. */
  predicate PendingFor(r: IssueRequest, toolId: int, chatId: int)
  {
    r.toolId == toolId && r.chatId == chatId && r.status == Pending
  }

  /** The first pending request of `chatId` for `toolId`, if any. */
  function FirstPending(requests: seq<IssueRequest>, toolId: int, chatId: int): (r: Option<IssueRequest>)
    ensures r.Some? ==> r.value in requests && PendingFor(r.value, toolId, chatId)
    ensures r.None? <==> forall i :: 0 <= i < |requests| ==> !PendingFor(requests[i], toolId, chatId)
  {
    if |requests| == 0 then None
    else if PendingFor(requests[0], toolId, chatId) then Some(requests[0])
    else FirstPending(requests[1..], toolId, chatId)
  }

  /** `get_issue_request_info`: the pending request of `chatId` for `toolId`, joined with the
      tool's name; nothing when there is no such request or the tool does not exist. */
  function GetIssueRequestInfo(s: Store, toolId: int, chatId: int): (r: Option<RequestInfo>)
    ensures r.Some? ==> r.value.toolId == toolId && r.value.status == Pending && HasTool(s, toolId)
    ensures r.Some? ==> exists i :: 0 <= i < |s.requests| && PendingFor(s.requests[i], toolId, chatId)
                                    && s.requests[i].id == r.value.id && s.requests[i].employee == r.value.employee
    ensures r.None? <==>
              !HasTool(s, toolId) || forall i :: 0 <= i < |s.requests| ==> !PendingFor(s.requests[i], toolId, chatId)
  {
    match FirstPending(s.requests, toolId, chatId)
    case None => None
    case Some(req) =>
      match FindTool(s.tools, toolId)
      case None => None
      case Some(t) => Some(RequestInfo(req.id, req.toolId, req.employee, req.status, t.name))
  }

  function RequestRows(s: Store, requests: seq<IssueRequest>): (r: seq<RequestRow>)
    ensures forall x :: x in r <==>
              exists i :: 0 <= i < |requests| && HasTool(s, requests[i].toolId)
                          && x == RequestRowOf(s, requests[i])
  {
    if |requests| == 0 then []
    else
      var rest := RequestRows(s, requests[1..]);
      assert forall i :: 1 <= i < |requests| ==> requests[i] == requests[1..][i - 1];
      if HasTool(s, requests[0].toolId) then [RequestRowOf(s, requests[0])] + rest else rest
  }

  function RequestRowOf(s: Store, req: IssueRequest): RequestRow
    requires HasTool(s, req.toolId)
  {
    var t := FindTool(s.tools, req.toolId).value;
    RequestRow(req.id, t.name, req.employee, req.chatId, req.requestedAt, req.status)
  }

  /** `get_all_issue_requests`: every request of an existing tool, newest first. */
  function GetAllIssueRequests(s: Store): (r: seq<RequestRow>)
    ensures multiset(r) == multiset(RequestRows(s, s.requests))
    ensures forall i :: 0 < i < |r| ==> r[i - 1].requestedAt >= r[i].requestedAt
  {
    var le := (a: RequestRow, b: RequestRow) => a.requestedAt >= b.requestedAt;
    Sorting.Sort(le, RequestRows(s, s.requests))
  }
}
