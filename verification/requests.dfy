/** The issue-request workflow of db.py: `create_tool_request`, `approve_issue_request` and
    `reject_issue_request`. Each runs inside one `DatabaseConnection` block (db.py:14-28), so
    a call either applies all of its writes or, when it answers `False`, leaves the store as
    it found it. */
module Requests {
  import opened Base
  import opened Schema
  import opened Queries

  /** `UPDATE issue_requests SET status = ? WHERE tool_id = ? AND chat_id = ? AND status = 'pending'`:
      every matching pending request changes, not only the first. */
  function MarkPending(requests: seq<IssueRequest>, toolId: int, chatId: int, status: RequestStatus): (r: seq<IssueRequest>)
    ensures |r| == |requests|
    ensures forall i :: 0 <= i < |r| && PendingFor(requests[i], toolId, chatId) ==> r[i] == requests[i].(status := status)
    ensures forall i :: 0 <= i < |r| && !PendingFor(requests[i], toolId, chatId) ==> r[i] == requests[i]
  {
    seq(|requests|, i requires 0 <= i < |requests| =>
      if PendingFor(requests[i], toolId, chatId) then requests[i].(status := status) else requests[i])
  }

  /** `create_tool_request`: refuses a missing tool or one whose status is `issued`; otherwise
      records a new pending request and answers `True`. The tool itself is not touched. */
  function CreateToolRequest(s: Store, toolId: int, employee: string, chatId: int, now: int): (r: Outcome<bool>)
    ensures r.result <==> FindTool(s.tools, toolId).Some? && FindTool(s.tools, toolId).value.status != Issued
    ensures !r.result ==> r.store == s
    ensures r.result ==> && r.store.tools == s.tools
                         && r.store.issued == s.issued
                         && r.store.history == s.history
                         && |r.store.requests| == |s.requests| + 1
                         && r.store.requests[..|s.requests|] == s.requests
    ensures r.result ==> var req := r.store.requests[|s.requests|];
                         && PendingFor(req, toolId, chatId) && req.employee == employee && req.requestedAt == now
                         && (Valid(s) ==> forall i :: 0 <= i < |s.requests| ==> s.requests[i].id < req.id)
  {
    match FindTool(s.tools, toolId)
    case None => Outcome(false, s)
    case Some(t) =>
      if t.status == Issued then Outcome(false, s)
      else
        var id := s.requestSeq + 1;
        Outcome(true, s.(requests := s.requests + [IssueRequest(id, toolId, employee, chatId, now, Pending)],
                         requestSeq := id))
  }

  /** `approve_issue_request`: needs a pending request of `chatId` for the tool and the tool
      to be `available` at that moment. Then, as one unit, the tool becomes `issued`, an
      outstanding issue row for the requester is added, the matching pending requests become
      `approved`, and an `issue` history entry is appended. */
  function ApproveIssueRequest(s: Store, toolId: int, chatId: int, now: int): (r: Outcome<bool>)
    ensures r.result <==> && FirstPending(s.requests, toolId, chatId).Some?
                          && FindTool(s.tools, toolId).Some?
                          && FindTool(s.tools, toolId).value.status == Available
    ensures !r.result ==> r.store == s
    ensures r.result ==>
              var employee := FirstPending(s.requests, toolId, chatId).value.employee;
              && r.store.issued == s.issued + [IssueRecord(toolId, employee, now, None, None)]
              && r.store.history == s.history + [HistoryEntry(toolId, ACTION_ISSUE, employee, now)]
              && r.store.requests == MarkPending(s.requests, toolId, chatId, Approved)
              && r.store.requestSeq == s.requestSeq && r.store.toolSeq == s.toolSeq
              && r.store.tools == SetStatus(s.tools, toolId, Issued)
    ensures r.result ==>
              && FindTool(r.store.tools, toolId) == Some(FindTool(s.tools, toolId).value.(status := Issued))
              && (forall x :: x != toolId ==> FindTool(r.store.tools, x) == FindTool(s.tools, x))
    ensures r.result ==> FirstPending(r.store.requests, toolId, chatId).None?
  {
    match FirstPending(s.requests, toolId, chatId)
    case None => Outcome(false, s)
    case Some(req) =>
      match FindTool(s.tools, toolId)
      case None => Outcome(false, s)
      case Some(t) =>
        if t.status != Available then Outcome(false, s)
        else
          var tools := SetStatus(s.tools, toolId, Issued);
          forall x ensures FindTool(tools, x) == (if x == toolId then Some(t.(status := Issued)) else FindTool(s.tools, x)) {
            FindToolSetStatus(s.tools, toolId, Issued, x);
          }
          Outcome(true, s.(tools := tools,
                           issued := s.issued + [IssueRecord(toolId, req.employee, now, None, None)],
                           requests := MarkPending(s.requests, toolId, chatId, Approved),
                           history := s.history + [HistoryEntry(toolId, ACTION_ISSUE, req.employee, now)]))
  }

  /** `reject_issue_request`: every pending request of `chatId` for the tool becomes `rejected`;
      the answer is whether there was at least one. Tools, issue rows and history stay as they are. */
  function RejectIssueRequest(s: Store, toolId: int, chatId: int): (r: Outcome<bool>)
    ensures r.result <==> exists i :: 0 <= i < |s.requests| && PendingFor(s.requests[i], toolId, chatId)
    ensures !r.result ==> r.store == s
    ensures r.store.tools == s.tools && r.store.issued == s.issued && r.store.history == s.history
    ensures r.store.toolSeq == s.toolSeq && r.store.requestSeq == s.requestSeq
    ensures |r.store.requests| == |s.requests|
    ensures forall i :: 0 <= i < |s.requests| ==>
              r.store.requests[i] == (if PendingFor(s.requests[i], toolId, chatId)
                                      then s.requests[i].(status := Rejected) else s.requests[i])
    ensures FirstPending(r.store.requests, toolId, chatId).None?
  {
    var rowcount := CountPending(s.requests, toolId, chatId);
    if rowcount > 0 then Outcome(true, s.(requests := MarkPending(s.requests, toolId, chatId, Rejected)))
    else
      assert MarkPending(s.requests, toolId, chatId, Rejected) == s.requests;
      Outcome(false, s)
  }

  /** The `rowcount` of the status update: how many pending requests of `chatId` there are for the tool. */
  function CountPending(requests: seq<IssueRequest>, toolId: int, chatId: int): (n: nat)
    ensures n > 0 <==> exists i :: 0 <= i < |requests| && PendingFor(requests[i], toolId, chatId)
  {
    if |requests| == 0 then 0
    else
      assert forall i :: 1 <= i < |requests| ==> requests[i] == requests[1..][i - 1];
      (if PendingFor(requests[0], toolId, chatId) then 1 else 0) + CountPending(requests[1..], toolId, chatId)
  }

  /** How many requests carry `status`. */
  function CountStatus(requests: seq<IssueRequest>, status: RequestStatus): nat
  {
    if |requests| == 0 then 0
    else (if requests[0].status == status then 1 else 0) + CountStatus(requests[1..], status)
  }

  /** Setting the pending requests of a (tool, chat) pair to a decided status leaves none of
      them pending, and exactly `rowcount` of them (the number that were pending) move from
      `pending` to the new status. */
  lemma {:induction false} MarkPendingCounts(requests: seq<IssueRequest>, toolId: int, chatId: int, status: RequestStatus)
    requires status != Pending
    ensures var r := MarkPending(requests, toolId, chatId, status);
            && CountPending(r, toolId, chatId) == 0
            && CountStatus(r, status) == CountStatus(requests, status) + CountPending(requests, toolId, chatId)
            && CountStatus(r, Pending) == CountStatus(requests, Pending) - CountPending(requests, toolId, chatId)
  {
    if |requests| > 0 {
      var r := MarkPending(requests, toolId, chatId, status);
      assert r[1..] == MarkPending(requests[1..], toolId, chatId, status);
      MarkPendingCounts(requests[1..], toolId, chatId, status);
    }
  }

  /** A request is approved at most once: a second approval of the same (tool, chat) pair fails
      and changes nothing. */
  lemma ApproveTwiceFails(s: Store, toolId: int, chatId: int, now: int, later: int)
    requires ApproveIssueRequest(s, toolId, chatId, now).result
    ensures var s1 := ApproveIssueRequest(s, toolId, chatId, now).store;
            !ApproveIssueRequest(s1, toolId, chatId, later).result
            && ApproveIssueRequest(s1, toolId, chatId, later).store == s1
  {
  }

  /** Once a tool is issued by an approval, no other chat's pending request for it can be approved. */
  lemma ApprovalBlocksOtherApprovals(s: Store, toolId: int, chatId: int, otherChat: int, now: int, later: int)
    requires ApproveIssueRequest(s, toolId, chatId, now).result
    ensures var s1 := ApproveIssueRequest(s, toolId, chatId, now).store;
            !ApproveIssueRequest(s1, toolId, otherChat, later).result
  {
  }

  /** Creating a request and then approving it issues the tool to the requester. */
  lemma RequestThenApprove(s: Store, toolId: int, employee: string, chatId: int, now: int, later: int)
    requires Valid(s)
    requires FirstPending(s.requests, toolId, chatId).None?
    requires CreateToolRequest(s, toolId, employee, chatId, now).result
    requires FindTool(s.tools, toolId).value.status == Available
    ensures var s1 := CreateToolRequest(s, toolId, employee, chatId, now).store;
            var s2 := ApproveIssueRequest(s1, toolId, chatId, later);
            && s2.result
            && s2.store.issued == s.issued + [IssueRecord(toolId, employee, later, None, None)]
            && FindTool(s2.store.tools, toolId).value.status == Issued
  {
    var s1 := CreateToolRequest(s, toolId, employee, chatId, now).store;
    FirstPendingAppend(s.requests, s1.requests[|s.requests|], toolId, chatId);
    assert s1.requests == s.requests + [s1.requests[|s.requests|]];
  }

  /** With no earlier pending request, the first pending one after an append is the appended one. */
  lemma {:induction false} FirstPendingAppend(requests: seq<IssueRequest>, x: IssueRequest, toolId: int, chatId: int)
    requires FirstPending(requests, toolId, chatId).None?
    requires PendingFor(x, toolId, chatId)
    ensures FirstPending(requests + [x], toolId, chatId) == Some(x)
  {
    if |requests| > 0 {
      assert (requests + [x])[1..] == requests[1..] + [x];
      FirstPendingAppend(requests[1..], x, toolId, chatId);
    }
  }
}
