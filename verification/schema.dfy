/** The four tables of `tools.db` (db.py `create_tables`) as one immutable store, and the
    small row-level helpers every operation is built from.

    Each table is a sequence in rowid order, which is the order `SELECT` without `ORDER BY`
    returns rows in. `tools` and `issue_requests` expose their `AUTOINCREMENT` ids, so the
    store keeps their `sqlite_sequence` counters; ids of the other two tables are never read.

    Time is an instant in seconds (UTC, as `CURRENT_TIMESTAMP` and `datetime('now')` give it);
    a `DATE` column holds a day number. */
module Schema {
  import opened Base

  const SECONDS_PER_DAY: int := 86400

  /** `quantity INTEGER DEFAULT 1`. */
  const DEFAULT_QUANTITY: int := 1

  /** The loan length `date('now', '+7 days')` shows for a record without an expected return date. */
  const DEFAULT_LOAN_DAYS: int := 7

  /** The `action` texts written to `tool_history`. */
  const ACTION_ISSUE: string := "issue"
  const ACTION_RETURN: string := "return"
  const ACTION_RETURNED: string := "returned"

  /** `tools.status`: `'available'` (the column default) or `'issued'`. */
  datatype Status = Available | Issued

  /** A row of `tools`. `last_maintenance_date` is never written and is not kept. */
  datatype Tool = Tool(id: int, name: string, description: Option<string>, status: Status, quantity: int)

  /** A row of `issued_tools`; `returnedAt == None` is an outstanding issue. */
  datatype IssueRecord = IssueRecord(
    toolId: int,
    employee: string,
    issuedAt: int,
    expectedReturn: Option<int>,
    returnedAt: Option<int>)

  /** `issue_requests.status`. */
  datatype RequestStatus = Pending | Approved | Rejected

  /** A row of `issue_requests`. */
  datatype IssueRequest = IssueRequest(
    id: int,
    toolId: int,
    employee: string,
    chatId: int,
    requestedAt: int,
    status: RequestStatus)

  /** A row of `tool_history`. */
  datatype HistoryEntry = HistoryEntry(toolId: int, action: string, employee: string, at: int)

  /** The whole database. `toolSeq` and `requestSeq` are the largest ids ever handed out. */
  datatype Store = Store(
    tools: seq<Tool>,
    toolSeq: nat,
    issued: seq<IssueRecord>,
    requests: seq<IssueRequest>,
    requestSeq: nat,
    history: seq<HistoryEntry>)

  /** What an operation answers together with the store it leaves behind. */
  datatype Outcome<+R> = Outcome(result: R, store: Store)

  /** The database right after `create_tables` on an empty file: four empty tables. */
  const EMPTY: Store := Store([], 0, [], [], 0, [])

  /** The calendar day of an instant (`strftime('%Y-%m-%d', t)`, `date(t)`). */
  function Day(t: int): int
  {
    t / SECONDS_PER_DAY
  }

  // ---------------------------------------------------------------------------
  // Well-formedness of the AUTOINCREMENT keys
  // ---------------------------------------------------------------------------

  ghost predicate ToolIdsValid(tools: seq<Tool>, bound: int)
  {
    && (forall i, j :: 0 <= i < j < |tools| ==> tools[i].id < tools[j].id)
    && (forall i :: 0 <= i < |tools| ==> 1 <= tools[i].id <= bound)
  }

  ghost predicate RequestIdsValid(requests: seq<IssueRequest>, bound: int)
  {
    && (forall i, j :: 0 <= i < j < |requests| ==> requests[i].id < requests[j].id)
    && (forall i :: 0 <= i < |requests| ==> 1 <= requests[i].id <= bound)
  }

  /** Keys are positive, increase in rowid order, and never exceed the sequence counter. */
  ghost predicate Valid(s: Store)
  {
    ToolIdsValid(s.tools, s.toolSeq) && RequestIdsValid(s.requests, s.requestSeq)
  }

  // ---------------------------------------------------------------------------
  // Row helpers
  // ---------------------------------------------------------------------------

  /** `SELECT ... FROM tools WHERE id = ?` with `fetchone()`. */
  function FindTool(tools: seq<Tool>, id: int): (r: Option<Tool>)
    ensures r.Some? ==> r.value in tools && r.value.id == id
    ensures r.None? <==> forall i :: 0 <= i < |tools| ==> tools[i].id != id
  {
    if |tools| == 0 then None
    else if tools[0].id == id then Some(tools[0])
    else FindTool(tools[1..], id)
  }

  /** The tool `id` exists. */
  predicate HasTool(s: Store, id: int)
  {
    FindTool(s.tools, id).Some?
  }

  /** `UPDATE tools SET status = ? WHERE id = ?`. */
  function SetStatus(tools: seq<Tool>, id: int, status: Status): (r: seq<Tool>)
    ensures |r| == |tools|
    ensures forall i :: 0 <= i < |r| ==> r[i].id == tools[i].id
    ensures forall i :: 0 <= i < |r| && tools[i].id != id ==> r[i] == tools[i]
    ensures forall i :: 0 <= i < |r| && tools[i].id == id ==> r[i] == tools[i].(status := status)
  {
    seq(|tools|, i requires 0 <= i < |tools| =>
      if tools[i].id == id then tools[i].(status := status) else tools[i])
  }

  /** After setting the status of `id`, looking up any tool sees the new status for `id` only. */
  lemma FindToolSetStatus(tools: seq<Tool>, id: int, status: Status, x: int)
    ensures FindTool(SetStatus(tools, id, status), x) ==
            (match FindTool(tools, x)
             case None => None
             case Some(t) => Some(if x == id then t.(status := status) else t))
  {
    if |tools| > 0 {
      assert SetStatus(tools, id, status)[1..] == SetStatus(tools[1..], id, status);
      FindToolSetStatus(tools[1..], id, status, x);
    }
  }
}
