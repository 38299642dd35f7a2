/** The store invariant the db.py write paths keep: a tool is `issued` exactly when it has
    one `issued_tools` row and `available` exactly when it has none, every issue row names an
    existing tool, and no row is ever closed (no code path sets `return_date`; a return
    deletes the row instead). Together these give the design's "at most one outstanding
    issue per tool". */
module Invariants {
  import opened Base
  import opened Schema
  import opened Queries
  import opened Requests
  import opened Engine

  /** No issue row is closed. */
  ghost predicate AllOpen(issued: seq<IssueRecord>)
  {
    forall i :: 0 <= i < |issued| ==> issued[i].returnedAt.None?
  }

  /** Every issue row names an existing tool. */
  ghost predicate RowsReferenceTools(tools: seq<Tool>, issued: seq<IssueRecord>)
  {
    forall i :: 0 <= i < |issued| ==> FindTool(tools, issued[i].toolId).Some?
  }

  /** An `issued` tool has exactly one issue row, an `available` one none. */
  ghost predicate StatusMatchesRows(tools: seq<Tool>, issued: seq<IssueRecord>)
  {
    forall i :: 0 <= i < |tools| ==>
      CountRows(issued, tools[i].id) == (if tools[i].status == Issued then 1 else 0)
  }

  /** The part of the invariant about the `tools` and `issued_tools` tables. */
  ghost predicate Consistent(tools: seq<Tool>, issued: seq<IssueRecord>)
  {
    AllOpen(issued) && RowsReferenceTools(tools, issued) && StatusMatchesRows(tools, issued)
  }

  ghost predicate Inv(s: Store)
  {
    Valid(s) && Consistent(s.tools, s.issued)
  }

  // ---------------------------------------------------------------------------
  // Helper facts about lookups and counts
  // ---------------------------------------------------------------------------

  lemma {:induction false} FindToolAt(tools: seq<Tool>, bound: int, i: int)
    requires ToolIdsValid(tools, bound)
    requires 0 <= i < |tools|
    ensures FindTool(tools, tools[i].id) == Some(tools[i])
  {
    if i > 0 {
      FindToolAt(tools[1..], bound, i - 1);
    }
  }

  lemma {:induction false} FindToolBounded(tools: seq<Tool>, bound: int, x: int)
    requires ToolIdsValid(tools, bound)
    requires FindTool(tools, x).Some?
    ensures 1 <= x <= bound
  {
    if tools[0].id != x {
      FindToolBounded(tools[1..], bound, x);
    }
  }

  lemma {:induction false} FindToolAppend(tools: seq<Tool>, t: Tool, x: int)
    ensures FindTool(tools + [t], x) ==
            if FindTool(tools, x).Some? then FindTool(tools, x) else if t.id == x then Some(t) else None
  {
    if |tools| > 0 {
      assert (tools + [t])[1..] == tools[1..] + [t];
      FindToolAppend(tools[1..], t, x);
    }
  }

  lemma {:induction false} CountRowsAppend(rows: seq<IssueRecord>, rec: IssueRecord, x: int)
    ensures CountRows(rows + [rec], x) == CountRows(rows, x) + (if rec.toolId == x then 1 else 0)
  {
    if |rows| > 0 {
      assert (rows + [rec])[1..] == rows[1..] + [rec];
      CountRowsAppend(rows[1..], rec, x);
    }
  }

  lemma {:induction false} CountRowsDeleteOther(rows: seq<IssueRecord>, toolId: int, employee: string, x: int)
    requires x != toolId
    ensures CountRows(DeleteRows(rows, toolId, employee), x) == CountRows(rows, x)
  {
    if |rows| > 0 {
      CountRowsDeleteOther(rows[1..], toolId, employee, x);
    }
  }

  /** Deleting rows never adds rows of a tool that had none. */
  lemma CountRowsDeleteNone(rows: seq<IssueRecord>, toolId: int, employee: string, x: int)
    requires CountRows(rows, x) == 0
    ensures CountRows(DeleteRows(rows, toolId, employee), x) == 0
  {
    var d := DeleteRows(rows, toolId, employee);
    forall i | 0 <= i < |d| ensures d[i].toolId != x {
      assert d[i] in d;
      var j :| 0 <= j < |rows| && rows[j] == d[i];
    }
  }

  /** When the tool has a single row and it belongs to `employee`, deleting that employee's
      rows leaves the tool with none. */
  lemma {:induction false} CountRowsDeleteOnly(rows: seq<IssueRecord>, toolId: int, employee: string)
    requires CountRows(rows, toolId) == 1
    requires FirstRowOf(rows, toolId).Some? && FirstRowOf(rows, toolId).value.employee == employee
    ensures CountRows(DeleteRows(rows, toolId, employee), toolId) == 0
  {
    if rows[0].toolId == toolId {
      CountRowsDeleteNone(rows[1..], toolId, employee, toolId);
    } else {
      CountRowsDeleteOnly(rows[1..], toolId, employee);
    }
  }

  /** Under the status/row agreement, an `available` tool has no issue row and an `issued`
      one has exactly one. */
  lemma RowsOfExistingTool(tools: seq<Tool>, issued: seq<IssueRecord>, bound: int, x: int)
    requires ToolIdsValid(tools, bound) && StatusMatchesRows(tools, issued)
    requires FindTool(tools, x).Some?
    ensures CountRows(issued, x) == if FindTool(tools, x).value.status == Issued then 1 else 0
  {
    var k :| 0 <= k < |tools| && tools[k] == FindTool(tools, x).value;
  }

  /** The table-level effect shared by `approve_issue_request` and `issue_tool`: marking a
      tool without rows `issued` and adding one open row for it keeps the tables consistent. */
  lemma IssueKeepsConsistent(tools: seq<Tool>, issued: seq<IssueRecord>, toolId: int, rec: IssueRecord)
    requires Consistent(tools, issued)
    requires FindTool(tools, toolId).Some? && CountRows(issued, toolId) == 0
    requires rec.toolId == toolId && rec.returnedAt.None?
    ensures Consistent(SetStatus(tools, toolId, Issued), issued + [rec])
  {
    IssueKeepsReferences(tools, issued, toolId, rec);
    IssueKeepsCounts(tools, issued, toolId, rec);
  }

  lemma IssueKeepsReferences(tools: seq<Tool>, issued: seq<IssueRecord>, toolId: int, rec: IssueRecord)
    requires RowsReferenceTools(tools, issued)
    requires FindTool(tools, toolId).Some? && rec.toolId == toolId
    ensures RowsReferenceTools(SetStatus(tools, toolId, Issued), issued + [rec])
  {
    var issued' := issued + [rec];
    forall i | 0 <= i < |issued'| ensures FindTool(SetStatus(tools, toolId, Issued), issued'[i].toolId).Some? {
      FindToolSetStatus(tools, toolId, Issued, issued'[i].toolId);
      if i < |issued| {
        assert issued'[i] == issued[i];
      }
    }
  }

  lemma IssueKeepsCounts(tools: seq<Tool>, issued: seq<IssueRecord>, toolId: int, rec: IssueRecord)
    requires StatusMatchesRows(tools, issued)
    requires CountRows(issued, toolId) == 0
    requires rec.toolId == toolId
    ensures StatusMatchesRows(SetStatus(tools, toolId, Issued), issued + [rec])
  {
    var tools' := SetStatus(tools, toolId, Issued);
    forall i | 0 <= i < |tools'|
      ensures CountRows(issued + [rec], tools'[i].id) == if tools'[i].status == Issued then 1 else 0
    {
      CountRowsAppend(issued, rec, tools[i].id);
    }
  }

  /** The table-level effect of a successful `return_tool`. */
  lemma ReturnKeepsConsistent(tools: seq<Tool>, issued: seq<IssueRecord>, bound: int, toolId: int, employee: string)
    requires ToolIdsValid(tools, bound) && Consistent(tools, issued)
    requires FindTool(tools, toolId).Some? && FindTool(tools, toolId).value.status == Issued
    requires FirstRowOf(issued, toolId).Some? && FirstRowOf(issued, toolId).value.employee == employee
    ensures Consistent(SetStatus(tools, toolId, Available), DeleteRows(issued, toolId, employee))
  {
    var tools' := SetStatus(tools, toolId, Available);
    var issued' := DeleteRows(issued, toolId, employee);
    RowsOfExistingTool(tools, issued, bound, toolId);
    CountRowsDeleteOnly(issued, toolId, employee);
    forall i | 0 <= i < |issued'|
      ensures issued'[i].returnedAt.None? && FindTool(tools', issued'[i].toolId).Some?
    {
      assert issued'[i] in issued';
      var j :| 0 <= j < |issued| && issued[j] == issued'[i];
      FindToolSetStatus(tools, toolId, Available, issued'[i].toolId);
    }
    forall i | 0 <= i < |tools'|
      ensures CountRows(issued', tools'[i].id) == if tools'[i].status == Issued then 1 else 0
    {
      if tools[i].id != toolId {
        CountRowsDeleteOther(issued, toolId, employee, tools[i].id);
      }
    }
  }

  /** Status updates keep the tool keys. */
  lemma SetStatusKeepsIds(tools: seq<Tool>, bound: int, id: int, status: Status)
    requires ToolIdsValid(tools, bound)
    ensures ToolIdsValid(SetStatus(tools, id, status), bound)
  {
  }

  /** Request status updates keep the request keys. */
  lemma MarkPendingKeepsIds(requests: seq<IssueRequest>, bound: int, toolId: int, chatId: int, status: RequestStatus)
    requires RequestIdsValid(requests, bound)
    ensures RequestIdsValid(MarkPending(requests, toolId, chatId, status), bound)
  {
    var r := MarkPending(requests, toolId, chatId, status);
    assert forall i :: 0 <= i < |r| ==> r[i].id == requests[i].id;
  }

  // ---------------------------------------------------------------------------
  // Consequences of the invariant
  // ---------------------------------------------------------------------------

  /** At most one outstanding issue record per tool id. */
  lemma AtMostOneOpenPerTool(s: Store, x: int)
    requires Inv(s)
    ensures CountRows(s.issued, x) <= 1
  {
    if CountRows(s.issued, x) > 0 {
      var i :| 0 <= i < |s.issued| && s.issued[i].toolId == x;
      RowsOfExistingTool(s.tools, s.issued, s.toolSeq, x);
    }
  }

  /** Under the invariant, a tool is `issued` exactly when `get_issued_tool_by_id` finds it and
      exactly when `is_tool_issued` says so. */
  lemma IssuedStatusAgreesWithQueries(s: Store, x: int, now: int)
    requires Inv(s)
    requires HasTool(s, x)
    ensures FindTool(s.tools, x).value.status == Issued <==> GetIssuedToolById(s, x, now).Some?
    ensures FindTool(s.tools, x).value.status == Issued <==> IsToolIssued(s, x)
  {
    RowsOfExistingTool(s.tools, s.issued, s.toolSeq, x);
    if FindTool(s.tools, x).value.status == Issued {
      var i :| 0 <= i < |s.issued| && s.issued[i].toolId == x;
      assert OpenJoined(s, s.issued[i]);
    }
  }

  // ---------------------------------------------------------------------------
  // Preservation, one lemma per write path
  // ---------------------------------------------------------------------------

  lemma EmptyStoreInv()
    ensures Inv(EMPTY)
  {
  }

  lemma CreateToolPreservesInv(s: Store, name: string, quantity: int, description: Option<string>)
    requires Inv(s)
    ensures Inv(CreateTool(s, name, quantity, description).store)
  {
    var r := CreateTool(s, name, quantity, description);
    AppendAvailableKeepsConsistent(s.tools, s.issued, s.toolSeq, Tool(r.result, name, description, Available, quantity));
  }

  /** A new `available` tool whose id exceeds every existing one has no issue rows. */
  lemma AppendAvailableKeepsConsistent(tools: seq<Tool>, issued: seq<IssueRecord>, bound: int, t: Tool)
    requires ToolIdsValid(tools, bound) && Consistent(tools, issued)
    requires t.id > bound && t.status == Available
    ensures Consistent(tools + [t], issued)
  {
    var tools' := tools + [t];
    forall i | 0 <= i < |issued| ensures issued[i].toolId != t.id && FindTool(tools', issued[i].toolId).Some? {
      FindToolBounded(tools, bound, issued[i].toolId);
      FindToolAppend(tools, t, issued[i].toolId);
    }
    assert CountRows(issued, t.id) == 0;
    forall i | 0 <= i < |tools'|
      ensures CountRows(issued, tools'[i].id) == if tools'[i].status == Issued then 1 else 0
    {
      if i < |tools| {
        assert tools'[i] == tools[i];
      }
    }
  }

  lemma CreateToolRequestPreservesInv(s: Store, toolId: int, employee: string, chatId: int, now: int)
    requires Inv(s)
    ensures Inv(CreateToolRequest(s, toolId, employee, chatId, now).store)
  {
    var r := CreateToolRequest(s, toolId, employee, chatId, now);
    if r.result {
      assert r.store.requestSeq == s.requestSeq + 1;
      assert forall i :: 0 <= i < |s.requests| ==> r.store.requests[i] == s.requests[i];
    }
  }

  lemma RejectIssueRequestPreservesInv(s: Store, toolId: int, chatId: int)
    requires Inv(s)
    ensures Inv(RejectIssueRequest(s, toolId, chatId).store)
  {
  }

  lemma ApproveIssueRequestPreservesInv(s: Store, toolId: int, chatId: int, now: int)
    requires Inv(s)
    ensures Inv(ApproveIssueRequest(s, toolId, chatId, now).store)
  {
    var r := ApproveIssueRequest(s, toolId, chatId, now);
    if r.result {
      var employee := FirstPending(s.requests, toolId, chatId).value.employee;
      var rec := IssueRecord(toolId, employee, now, None, None);
      assert r.store.tools == SetStatus(s.tools, toolId, Issued) && r.store.issued == s.issued + [rec];
      RowsOfExistingTool(s.tools, s.issued, s.toolSeq, toolId);
      IssueKeepsConsistent(s.tools, s.issued, toolId, rec);
      SetStatusKeepsIds(s.tools, s.toolSeq, toolId, Issued);
      MarkPendingKeepsIds(s.requests, s.requestSeq, toolId, chatId, Approved);
    }
  }

  /** `issue_tool` keeps the invariant when the tool exists; on a missing id it leaves an issue
      row that names no tool. */
  lemma IssueToolPreservesInv(s: Store, toolId: int, employee: string, now: int)
    requires Inv(s)
    requires HasTool(s, toolId)
    ensures Inv(IssueTool(s, toolId, employee, now).store)
  {
    var r := IssueTool(s, toolId, employee, now);
    if r.result.Ok? {
      var rec := IssueRecord(toolId, employee, now, None, None);
      assert r.store.tools == SetStatus(s.tools, toolId, Issued) && r.store.issued == s.issued + [rec];
      IssueKeepsConsistent(s.tools, s.issued, toolId, rec);
      SetStatusKeepsIds(s.tools, s.toolSeq, toolId, Issued);
    }
  }

  /** On an id with no tool, `issue_tool` succeeds and leaves an issue row that names no
      tool, so the invariant is lost. */
  lemma IssueMissingToolBreaksInv(s: Store, toolId: int, employee: string, now: int)
    requires Inv(s)
    requires !HasTool(s, toolId)
    ensures IssueTool(s, toolId, employee, now).result.Ok?
    ensures !Inv(IssueTool(s, toolId, employee, now).store)
  {
    assert !IsToolIssued(s, toolId);
    var s1 := IssueTool(s, toolId, employee, now).store;
    assert s1.issued[|s.issued|].toolId == toolId;
  }

  lemma ReturnToolPreservesInv(s: Store, toolId: int, employee: string, now: int)
    requires Inv(s)
    ensures Inv(ReturnTool(s, toolId, employee, now).store)
  {
    var r := ReturnTool(s, toolId, employee, now);
    if r.result {
      assert r.store.tools == SetStatus(s.tools, toolId, Available);
      assert r.store.issued == DeleteRows(s.issued, toolId, employee);
      ReturnKeepsConsistent(s.tools, s.issued, s.toolSeq, toolId, employee);
      SetStatusKeepsIds(s.tools, s.toolSeq, toolId, Available);
    }
  }

  /** `update_tool_status` alone can break the invariant: marking an issued tool `available`
      leaves its issue row behind. */
  lemma UpdateToolStatusBreaksInv(s: Store, toolId: int)
    requires Inv(s)
    requires HasTool(s, toolId) && FindTool(s.tools, toolId).value.status == Issued
    ensures !Inv(UpdateToolStatus(s, toolId, Available).store)
  {
    var s1 := UpdateToolStatus(s, toolId, Available).store;
    var k :| 0 <= k < |s.tools| && s.tools[k] == FindTool(s.tools, toolId).value;
    RowsOfExistingTool(s.tools, s.issued, s.toolSeq, toolId);
    assert s1.tools[k].status == Available && s1.tools[k].id == toolId;
  }

  /** `add_tool_history` writes only the history: the invariant, the tool listing and the
      issued listing are as they were. */
  lemma AddToolHistoryPreservesInv(s: Store, toolId: int, action: string, employee: string, now: int)
    requires Inv(s)
    ensures var s1 := AddToolHistory(s, toolId, action, employee, now).store;
            && Inv(s1)
            && GetTools(s1) == GetTools(s)
            && GetIssuedTools(s1, now) == GetIssuedTools(s, now)
            && s1.history[..|s.history|] == s.history
  {
    var s1 := AddToolHistory(s, toolId, action, employee, now).store;
    IssuedViewsReadOnlyTools(s, s1, s.issued, now);
  }

  /** The issued listing reads only the tool table besides the rows it is given. */
  lemma {:induction false} IssuedViewsReadOnlyTools(s: Store, s1: Store, rows: seq<IssueRecord>, now: int)
    requires s1.tools == s.tools
    ensures IssuedViews(s1, rows, now) == IssuedViews(s, rows, now)
  {
    if |rows| > 0 {
      IssuedViewsReadOnlyTools(s, s1, rows[1..], now);
    }
  }
}
