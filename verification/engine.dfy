/** The direct issue/return operations of db.py and the single-row writers the bot composes:
    `issue_tool`, `return_tool`, `update_tool_status`, `add_tool_history`, `create_tool`. */
module Engine {
  import opened Base
  import opened Schema
  import opened Queries

  /** The exception `issue_tool` raises. */
  datatype IssueError = AlreadyIssued

  /** The effect of leaving a `DatabaseConnection` block (db.py:23-28): the writes made inside
      are committed when the block finishes normally and rolled back when it raises. */
  function CloseConnection<R, E>(before: Store, inside: Result<Outcome<R>, E>): (r: Outcome<Result<R, E>>)
    ensures inside.Err? ==> r == Outcome(Err(inside.error), before)
    ensures inside.Ok? ==> r == Outcome(Ok(inside.value.result), inside.value.store)
  {
    match inside
    case Ok(o) => Outcome(Ok(o.result), o.store)
    case Err(e) => Outcome(Err(e), before)
  }

  /** `issue_tool`: raises, writing nothing, when the tool has any issue row at all (returned or
      not, see `is_tool_issued`); otherwise adds an outstanding issue row, marks the tool
      `issued` and appends an `issue` history entry. The tool's existence is not checked. */
  function IssueTool(s: Store, toolId: int, employee: string, now: int): (r: Outcome<Result<(), IssueError>>)
    ensures r.result.Err? <==> IsToolIssued(s, toolId)
    ensures r.result.Err? ==> r.store == s
    ensures r.result.Ok? ==>
              && r.store.issued == s.issued + [IssueRecord(toolId, employee, now, None, None)]
              && r.store.history == s.history + [HistoryEntry(toolId, ACTION_ISSUE, employee, now)]
              && r.store.requests == s.requests
              && r.store.toolSeq == s.toolSeq && r.store.requestSeq == s.requestSeq
              && r.store.tools == SetStatus(s.tools, toolId, Issued)
    ensures r.result.Ok? ==>
              forall x :: FindTool(r.store.tools, x) ==
                          (if x == toolId && FindTool(s.tools, x).Some?
                           then Some(FindTool(s.tools, x).value.(status := Issued))
                           else FindTool(s.tools, x))
  {
    var inside: Result<Outcome<()>, IssueError> :=
      if IsToolIssued(s, toolId) then Err(AlreadyIssued)
      else
        forall x ensures FindTool(SetStatus(s.tools, toolId, Issued), x) ==
                         (if x == toolId && FindTool(s.tools, x).Some?
                          then Some(FindTool(s.tools, x).value.(status := Issued))
                          else FindTool(s.tools, x)) {
          FindToolSetStatus(s.tools, toolId, Issued, x);
        }
        Ok(Outcome((), s.(issued := s.issued + [IssueRecord(toolId, employee, now, None, None)],
                          tools := SetStatus(s.tools, toolId, Issued),
                          history := s.history + [HistoryEntry(toolId, ACTION_ISSUE, employee, now)])));
    CloseConnection(s, inside)
  }

  /** A tool cannot be issued twice: right after a successful `issue_tool`, a second call for
      the same tool raises and changes nothing. */
  lemma IssueTwiceFails(s: Store, toolId: int, employee: string, other: string, now: int, later: int)
    requires IssueTool(s, toolId, employee, now).result.Ok?
    ensures var s1 := IssueTool(s, toolId, employee, now).store;
            && IssueTool(s1, toolId, other, later).result == Err(AlreadyIssued)
            && IssueTool(s1, toolId, other, later).store == s1
  {
    var s1 := IssueTool(s, toolId, employee, now).store;
    assert s1.issued[|s.issued|].toolId == toolId;
  }

  /** The first `issued_tools` row of the tool in rowid order, returned or not. */
  function FirstRowOf(rows: seq<IssueRecord>, toolId: int): (r: Option<IssueRecord>)
    ensures r.Some? ==> r.value in rows && r.value.toolId == toolId
    ensures r.None? <==> forall i :: 0 <= i < |rows| ==> rows[i].toolId != toolId
  {
    if |rows| == 0 then None
    else if rows[0].toolId == toolId then Some(rows[0])
    else FirstRowOf(rows[1..], toolId)
  }

  /** A row `DELETE FROM issued_tools WHERE tool_id = ? AND employee_name = ?` removes. */
  predicate RowOf(rec: IssueRecord, toolId: int, employee: string)
  {
    rec.toolId == toolId && rec.employee == employee
  }

  /** `DELETE FROM issued_tools WHERE tool_id = ? AND employee_name = ?`: the other rows, in order. */
  function DeleteRows(rows: seq<IssueRecord>, toolId: int, employee: string): (r: seq<IssueRecord>)
    ensures forall x :: x in r <==> x in rows && !RowOf(x, toolId, employee)
    ensures |r| <= |rows|
  {
    if |rows| == 0 then []
    else
      var rest := DeleteRows(rows[1..], toolId, employee);
      assert rows == [rows[0]] + rows[1..];
      if RowOf(rows[0], toolId, employee) then rest else [rows[0]] + rest
  }

  /** `return_tool`: succeeds only when the tool is `issued` and the first issue row of the
      tool names `employee`. It then deletes that employee's rows for the tool (the record is
      removed, not closed), marks the tool `available` and appends a `return` history entry. */
  function ReturnTool(s: Store, toolId: int, employee: string, now: int): (r: Outcome<bool>)
    ensures r.result <==> && FindTool(s.tools, toolId).Some?
                          && FindTool(s.tools, toolId).value.status == Issued
                          && FirstRowOf(s.issued, toolId).Some?
                          && FirstRowOf(s.issued, toolId).value.employee == employee
    ensures !r.result ==> r.store == s
    ensures r.result ==>
              && r.store.issued == DeleteRows(s.issued, toolId, employee)
              && r.store.tools == SetStatus(s.tools, toolId, Available)
              && r.store.history == s.history + [HistoryEntry(toolId, ACTION_RETURN, employee, now)]
              && r.store.requests == s.requests
              && r.store.toolSeq == s.toolSeq && r.store.requestSeq == s.requestSeq
              && FindTool(r.store.tools, toolId) == Some(FindTool(s.tools, toolId).value.(status := Available))
              && (forall x :: x != toolId ==> FindTool(r.store.tools, x) == FindTool(s.tools, x))
  {
    match FindTool(s.tools, toolId)
    case None => Outcome(false, s)
    case Some(t) =>
      if t.status != Issued then Outcome(false, s)
      else
        match FirstRowOf(s.issued, toolId)
        case None => Outcome(false, s)
        case Some(rec) =>
          if rec.employee != employee then Outcome(false, s)
          else
            forall x ensures FindTool(SetStatus(s.tools, toolId, Available), x) ==
                             (if x == toolId then Some(t.(status := Available)) else FindTool(s.tools, x)) {
              FindToolSetStatus(s.tools, toolId, Available, x);
            }
            Outcome(true, s.(issued := DeleteRows(s.issued, toolId, employee),
                             tools := SetStatus(s.tools, toolId, Available),
                             history := s.history + [HistoryEntry(toolId, ACTION_RETURN, employee, now)]))
  }

  /** No double return: right after a successful `return_tool`, the same call fails. */
  lemma ReturnTwiceFails(s: Store, toolId: int, employee: string, now: int, later: int)
    requires ReturnTool(s, toolId, employee, now).result
    ensures var s1 := ReturnTool(s, toolId, employee, now).store;
            !ReturnTool(s1, toolId, employee, later).result
            && ReturnTool(s1, toolId, employee, later).store == s1
  {
  }

  /** `update_tool_status`: sets the status of the tool with that id (no row changes when there
      is none) and answers `True` either way. */
  function UpdateToolStatus(s: Store, toolId: int, status: Status): (r: Outcome<bool>)
    ensures r.result
    ensures r.store.issued == s.issued && r.store.requests == s.requests && r.store.history == s.history
    ensures r.store.toolSeq == s.toolSeq && r.store.requestSeq == s.requestSeq
    ensures r.store.tools == SetStatus(s.tools, toolId, status)
    ensures forall x :: FindTool(r.store.tools, x) ==
                        (if x == toolId && FindTool(s.tools, x).Some?
                         then Some(FindTool(s.tools, x).value.(status := status))
                         else FindTool(s.tools, x))
  {
    forall x ensures FindTool(SetStatus(s.tools, toolId, status), x) ==
                     (if x == toolId && FindTool(s.tools, x).Some?
                      then Some(FindTool(s.tools, x).value.(status := status))
                      else FindTool(s.tools, x)) {
      FindToolSetStatus(s.tools, toolId, status, x);
    }
    Outcome(true, s.(tools := SetStatus(s.tools, toolId, status)))
  }

  /** `add_tool_history`: appends one entry stamped `datetime('now')` and answers `True`. */
  function AddToolHistory(s: Store, toolId: int, action: string, employee: string, now: int): (r: Outcome<bool>)
    ensures r.result
    ensures r.store == s.(history := s.history + [HistoryEntry(toolId, action, employee, now)])
    ensures |r.store.history| == |s.history| + 1 && r.store.history[..|s.history|] == s.history
  {
    Outcome(true, s.(history := s.history + [HistoryEntry(toolId, action, employee, now)]))
  }

  /** `create_tool`: inserts an `available` tool under the next id and answers that id. */
  function CreateTool(s: Store, name: string, quantity: int, description: Option<string>): (r: Outcome<int>)
    ensures r.store.tools == s.tools + [Tool(r.result, name, description, Available, quantity)]
    ensures r.store.toolSeq == r.result
    ensures r.store.issued == s.issued && r.store.requests == s.requests && r.store.history == s.history
    ensures r.store.requestSeq == s.requestSeq
    ensures Valid(s) ==> Valid(r.store) && FindTool(s.tools, r.result).None?
  {
    var id := s.toolSeq + 1;
    Outcome(id, s.(tools := s.tools + [Tool(id, name, description, Available, quantity)], toolSeq := id))
  }
}
