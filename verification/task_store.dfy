/**
 The task store as the program runs it: one object whose tables are changed statement by
 statement, inside transactions that roll back. Whether a statement or the commit fails is the
 environment's choice: `failAt` is the number, counting from 0, of the first one to fail, and a
 number past the commit means that none does. Each operation is proved against the transaction
 function of the same name in TaskTables.
 */
module TaskStore {
  import opened Wrappers
  import opened TaskTables

  datatype CreateRequest = CreateRequest(
    kind: string, scope: Option<Scope>, gateway: GatewayId, node: NodeId, payload: Option<Payload>,
    maxRetries: int, timeoutSeconds: int, createdBy: string)

  datatype PushRequest = PushRequest(taskId: TaskId, gateway: GatewayId, kind: string, payload: Payload)

  /** One target node with what the environment decides for it: the new key, the fault and the clocks. */
  datatype Share = Share(node: NodeId, id: TaskId, failAt: nat, now: Time, wall: Time)

  function NullIfEmpty(s: string): Option<string> {
    if s == "" then None else Some(s)
  }

  function RequestedRow(req: CreateRequest, now: Time): TaskRow
    requires req.scope.Some?
  {
    NewRow(None, req.scope.value, req.kind, NullIfEmpty(req.gateway), NullIfEmpty(req.node),
           if req.payload.Some? then req.payload.value else Object(map[]),
           if req.maxRetries <= 0 then DEFAULT_MAX_RETRIES else req.maxRetries,
           if req.timeoutSeconds <= 0 then DEFAULT_TIMEOUT_SECONDS else req.timeoutSeconds,
           req.createdBy, now)
  }

  predicate AuthenticatedAs(authNode: NodeId, node: NodeId) {
    authNode == "" || authNode == node
  }

  function AsNodeTask(row: TaskRow, id: TaskId): NodeTask {
    NodeTask(id, row.kind, row.payload, row.timeoutSeconds)
  }

  /** The tasks of a pull's answer, in its order. */
  function NodeTasks(tasks: map<TaskId, TaskRow>, answer: seq<TaskId>): seq<NodeTask>
    requires forall i :: 0 <= i < |answer| ==> answer[i] in tasks
  {
    seq(|answer|, i requires 0 <= i < |answer| => AsNodeTask(tasks[answer[i]], answer[i]))
  }

  /** One turn of the pull's loop: the row as it is now is the row as the answer found it. */
  lemma NextRow(db: Tables, answer: seq<TaskId>, gateway: GatewayId, i: nat)
    requires Distinct(answer) && i < |answer|
    requires forall k :: 0 <= k < |answer| ==> answer[k] in db.tasks
    ensures var before := DeliverAll(db, answer[..i], gateway);
            && DeliverAll(db, answer[..i + 1], gateway) == DeliverOne(before, answer[i], gateway)
            && NodeTasks(db.tasks, answer[..i + 1])
                 == NodeTasks(db.tasks, answer[..i]) + [AsNodeTask(before.tasks[answer[i]], answer[i])]
  {
    PullReaches(db, answer, gateway, i);
  }

  /** The rows a pull may give to this node, spelled out. */
  predicate IsOpen(row: TaskRow, node: NodeId, gateway: GatewayId) {
    && row.scope == Node && row.targetNode == Some(node) && (row.status == Pending || row.status == Retrying)
    && (row.targetGateway == None || row.targetGateway == Some(gateway))
  }

  /** Only open rows are taken, and one that is neither taken nor locked means a full answer of rows no younger. */
  ghost predicate SelectsOldest(
    tasks: map<TaskId, TaskRow>, answer: seq<TaskId>, node: NodeId, gateway: GatewayId, locked: set<TaskId>,
    maxTasks: int)
  {
    && |answer| <= (if maxTasks <= 0 then 10 else if maxTasks > 100 then 100 else maxTasks)
    && (forall i :: 0 <= i < |answer| ==> answer[i] in tasks && IsOpen(tasks[answer[i]], node, gateway))
    && (forall id :: id in tasks && id !in answer && id !in locked && IsOpen(tasks[id], node, gateway) ==>
          && |answer| == (if maxTasks <= 0 then 10 else if maxTasks > 100 then 100 else maxTasks)
          && forall i :: 0 <= i < |answer| ==> answer[i] in tasks && tasks[answer[i]].createdAt <= tasks[id].createdAt)
  }

  lemma SelectionInWords(
    tasks: map<TaskId, TaskRow>, answer: seq<TaskId>, node: NodeId, gateway: GatewayId, locked: set<TaskId>,
    maxTasks: int)
    requires IsPullAnswer(tasks, answer, node, gateway, locked, PullLimit(maxTasks))
    ensures SelectsOldest(tasks, answer, node, gateway, locked, maxTasks)
  {
  }

  /** The rows of the answer are Running and Delivered and have an owner, and each has its event, in order. */
  ghost predicate IsDelivery(a: Tables, b: Tables, answer: seq<TaskId>, gateway: GatewayId) {
    && b.runs == a.runs && b.tasks.Keys == a.tasks.Keys
    && (forall id :: id in a.tasks && id !in answer ==> b.tasks[id] == a.tasks[id])
    && (forall id :: id in a.tasks && id in answer ==>
          b.tasks[id] == a.tasks[id].(
            status := Running, dispatch := Delivered,
            owner := if a.tasks[id].owner == None then Some("gateway:" + gateway) else a.tasks[id].owner))
    && |b.events| == |a.events| + |answer| && a.events <= b.events
    && (forall i :: 0 <= i < |answer| ==>
          b.events[|a.events| + i]
              == TaskEvent(answer[i], DeliveredEvent, Some(Pending), Running, "gateway:" + gateway))
  }

  lemma DeliveryInWords(db: Tables, answer: seq<TaskId>, gateway: GatewayId)
    requires Distinct(answer) && forall i :: 0 <= i < |answer| ==> answer[i] in db.tasks
    ensures IsDelivery(db, DeliverAll(db, answer, gateway), answer, gateway)
  {
    PullExactly(db, answer, gateway);
  }

  // ---- reported statuses ----

  /** Unicode white space, as trimmed from a reported status. */
  predicate IsSpace(c: char) {
    c in {'\t', '\n', '\U{0B}', '\U{0C}', '\r', ' ', '\U{85}', '\U{A0}', '\U{1680}',
          '\U{2028}', '\U{2029}', '\U{202F}', '\U{205F}', '\U{3000}'}
    || '\U{2000}' <= c <= '\U{200A}'
  }

  /** Lower-casing, on the only characters whose lower case is an ASCII letter. */
  function ToLower(c: char): char {
    if 'A' <= c <= 'Z' then ((c as int) + 32) as char
    else if c == '\U{130}' then 'i'
    else if c == '\U{212A}' then 'k'
    else c
  }

  function TrimLeft(s: string): string {
    if |s| > 0 && IsSpace(s[0]) then TrimLeft(s[1..]) else s
  }

  function TrimRight(s: string): string {
    if |s| > 0 && IsSpace(s[|s| - 1]) then TrimRight(s[..|s| - 1]) else s
  }

  function Lower(s: string): string {
    seq(|s|, i requires 0 <= i < |s| => ToLower(s[i]))
  }

  function ReportedStatus(word: string): Option<Status> {
    if word == "success" then Some(Success)
    else if word in {"failed", "failure"} then Some(Failed)
    else if word in {"cancelled", "canceled"} then Some(Cancelled)
    else if word == "timeout" then Some(Timeout)
    else if word in {"partiallysucceeded", "partially_succeeded", "partially-succeeded"} then Some(PartiallySucceeded)
    else None
  }

  function NormalizeReportedStatus(raw: string): Option<Status> {
    ReportedStatus(Lower(TrimRight(TrimLeft(raw))))
  }

  /** No spelling of a reported status makes a row pullable again. */
  lemma ReportsNeverReopen(raw: string)
    ensures NormalizeReportedStatus(raw).Some? ==>
              NormalizeReportedStatus(raw).value in {Success, Failed, Cancelled, Timeout, PartiallySucceeded}
  {
  }

  /** The accepted words, each with its status; nothing else is accepted. */
  lemma SpellingsExactly(word: string)
    ensures ReportedStatus(word) == Some(Success) <==> word == "success"
    ensures ReportedStatus(word) == Some(Failed) <==> word == "failed" || word == "failure"
    ensures ReportedStatus(word) == Some(Cancelled) <==> word == "cancelled" || word == "canceled"
    ensures ReportedStatus(word) == Some(Timeout) <==> word == "timeout"
    ensures ReportedStatus(word) == Some(PartiallySucceeded) <==>
              word == "partiallysucceeded" || word == "partially_succeeded" || word == "partially-succeeded"
    ensures ReportedStatus(word).Some? ==>
              ReportedStatus(word).value in {Success, Failed, Cancelled, Timeout, PartiallySucceeded}
  {
  }

  /** Capitals make no difference: a word and a spelling of it with some letters capital are read alike. */
  lemma CaseDoesNotMatter(word: string, spelling: string)
    requires |spelling| == |word|
    requires forall i :: 0 <= i < |word| ==>
               || (word[i] == spelling[i] && word[i] in {'_', '-'})
               || ('a' <= word[i] <= 'z' && (word[i] == spelling[i] || word[i] as int == spelling[i] as int + 32))
    ensures Lower(spelling) == word
  {
  }

  /** Blanks, tabs and line ends are trimmed, and letters are not. */
  lemma BlanksAreTrimmed(c: char)
    ensures c in {' ', '\t', '\r', '\n'} ==> IsSpace(c)
    ensures 'a' <= c <= 'z' || 'A' <= c <= 'Z' || c in {'_', '-'} ==> !IsSpace(c)
  {
  }

  lemma {:induction false} SpaceAround(left: string, word: string, right: string)
    requires forall i :: 0 <= i < |left| ==> IsSpace(left[i])
    requires forall i :: 0 <= i < |right| ==> IsSpace(right[i])
    requires |word| > 0 && !IsSpace(word[0]) && !IsSpace(word[|word| - 1])
    ensures TrimRight(TrimLeft(left + word + right)) == word
    decreases |left| + |right|
  {
    var s := left + word + right;
    if |left| > 0 {
      assert s[1..] == left[1..] + word + right;
      SpaceAround(left[1..], word, right);
    } else if |right| > 0 {
      assert TrimLeft(s) == s;
      assert s[..|s| - 1] == left + word + right[..|right| - 1];
      SpaceAround(left, word, right[..|right| - 1]);
      assert TrimLeft(s[..|s| - 1]) == s[..|s| - 1];
    } else {
      assert s == word;
    }
  }

  /** The agent reports "Success" or "Failed"; neither the case nor the space around a word matters. */
  lemma AgentWordsNormalize(left: string, word: string, right: string)
    requires forall i :: 0 <= i < |left| ==> IsSpace(left[i])
    requires forall i :: 0 <= i < |right| ==> IsSpace(right[i])
    requires |word| > 0 && !IsSpace(word[0]) && !IsSpace(word[|word| - 1])
    ensures NormalizeReportedStatus(left + word + right) == ReportedStatus(Lower(word))
    ensures ReportedStatus(Lower("Success")) == Some(Success) && ReportedStatus(Lower("Failed")) == Some(Failed)
  {
    SpaceAround(left, word, right);
    assert Lower("Success") == "success";
    assert Lower("Failed") == "failed";
  }

  lemma {:induction false} MaxAttemptIsMax(runs: seq<TaskRun>, id: TaskId)
    ensures MaxAttempt(runs, id) >= 0
    ensures forall i :: 0 <= i < |runs| && runs[i].taskId == id ==> runs[i].attempt <= MaxAttempt(runs, id)
  {
    if |runs| > 0 {
      MaxAttemptIsMax(runs[..|runs| - 1], id);
    }
  }

  // ---- pushing a regional task ----

  function ShareTx(db: Tables, req: PushRequest, s: Share, claimDuration: int): Result<Tables, Failure> {
    ExpandTx(db, s.id, req.taskId, req.kind, req.gateway, s.node, req.payload, s.now, s.wall + claimDuration)
  }

  /**
   A share commits when the database takes its key and its parent and none of its four statements nor the commit
   fails.
   */
  predicate ShareCommits(db: Tables, req: PushRequest, s: Share) {
    CanInsert(db, s.id, Some(req.taskId)) && s.failAt > 4
  }

  /** The tables after the shares in order; a share that fails leaves no trace. */
  function PushAll(db: Tables, req: PushRequest, shares: seq<Share>, claimDuration: int): Tables {
    if |shares| == 0 then db
    else
      var before := PushAll(db, req, shares[..|shares| - 1], claimDuration);
      var s := shares[|shares| - 1];
      if ShareCommits(before, req, s) then ShareTx(before, req, s, claimDuration).value else before
  }

  /** Which shares committed, in order. */
  function Committed(db: Tables, req: PushRequest, shares: seq<Share>, claimDuration: int): seq<Share> {
    if |shares| == 0 then []
    else
      var before := shares[..|shares| - 1];
      var s := shares[|shares| - 1];
      Committed(db, req, before, claimDuration)
      + (if ShareCommits(PushAll(db, req, before, claimDuration), req, s) then [s] else [])
  }

  /** The row a committed share leaves: a Pending, Delivered child owned by the pushing gateway. */
  ghost predicate IsDeliveredChild(row: TaskRow, req: PushRequest, s: Share, claimDuration: int) {
    && row.parent == Some(req.taskId) && row.scope == Node && row.kind == req.kind && row.payload == req.payload
    && row.status == Pending && row.dispatch == Delivered
    && row.targetGateway == Some(req.gateway) && row.targetNode == Some(s.node)
    && row.owner == Some(req.gateway) && row.claimExpireAt == Some(s.wall + claimDuration)
    && row.result == None && row.retryCount == 0 && row.maxRetries == 3 && row.timeoutSeconds == 600
    && row.createdBy == "gateway:" + req.gateway && row.createdAt == s.now
  }

  function ExpandedEventOf(req: PushRequest, s: Share): TaskEvent {
    TaskEvent(s.id, ExpandedEvent, None, Pending, "gateway:" + req.gateway)
  }

  /** The rows of `r` are those of `db` and, for each share of `made`, one Delivered child under its own fresh key. */
  ghost predicate RowsPushed(db: Tables, r: Tables, req: PushRequest, made: seq<Share>, claimDuration: int) {
    && (forall i, j :: 0 <= i < j < |made| ==> made[i].id != made[j].id)
    && (forall i :: 0 <= i < |made| ==>
          made[i].id !in db.tasks && made[i].id in r.tasks
          && IsDeliveredChild(r.tasks[made[i].id], req, made[i], claimDuration))
    && (forall id :: id in db.tasks ==> id in r.tasks && r.tasks[id] == db.tasks[id])
    && |r.tasks| == |db.tasks| + |made|
  }

  /** The logs of `r` are those of `db` and one expanded event per share of `made`, in order. */
  ghost predicate EventsPushed(db: Tables, r: Tables, req: PushRequest, made: seq<Share>) {
    && r.runs == db.runs
    && |r.events| == |db.events| + |made| && db.events <= r.events
    && (forall i :: 0 <= i < |made| ==> r.events[|db.events| + i] == ExpandedEventOf(req, made[i]))
  }

  lemma ShareEffect(d: Tables, req: PushRequest, s: Share, claimDuration: int)
    requires ShareCommits(d, req, s)
    ensures var r := ShareTx(d, req, s, claimDuration).value;
            && s.id !in d.tasks && s.id in r.tasks
            && (forall id :: id in d.tasks ==> id in r.tasks && r.tasks[id] == d.tasks[id])
            && |r.tasks| == |d.tasks| + 1
            && IsDeliveredChild(r.tasks[s.id], req, s, claimDuration)
            && r.runs == d.runs
            && r.events == d.events + [ExpandedEventOf(req, s)]
  {
    var r := ShareTx(d, req, s, claimDuration).value;
    assert r.tasks.Keys == d.tasks.Keys + {s.id};
    assert |r.tasks| == |r.tasks.Keys| && |d.tasks| == |d.tasks.Keys|;
  }

  lemma RowPushed(db: Tables, d: Tables, r: Tables, req: PushRequest, made: seq<Share>, s: Share, claimDuration: int)
    requires RowsPushed(db, d, req, made, claimDuration)
    requires s.id !in d.tasks && s.id in r.tasks && |r.tasks| == |d.tasks| + 1
    requires forall id :: id in d.tasks ==> id in r.tasks && r.tasks[id] == d.tasks[id]
    requires IsDeliveredChild(r.tasks[s.id], req, s, claimDuration)
    ensures RowsPushed(db, r, req, made + [s], claimDuration)
  {
    var all := made + [s];
    assert all[|made|] == s;
    forall i | 0 <= i < |made|
      ensures all[i] == made[i] && all[i].id != s.id && r.tasks[all[i].id] == d.tasks[made[i].id]
    {
      assert made[i].id in d.tasks;
    }
  }

  lemma EventPushed(db: Tables, d: Tables, r: Tables, req: PushRequest, made: seq<Share>, s: Share)
    requires EventsPushed(db, d, req, made)
    requires r.runs == d.runs && r.events == d.events + [ExpandedEventOf(req, s)]
    ensures EventsPushed(db, r, req, made + [s])
  {
    var all := made + [s];
    forall i | 0 <= i < |all| ensures r.events[|db.events| + i] == ExpandedEventOf(req, all[i]) {
      if i < |made| {
        assert d.events[|db.events| + i] == ExpandedEventOf(req, made[i]);
      }
    }
  }

  /**
   Exact accounting of a push: the rows and events that are new afterwards are one Delivered child
   and one expanded event for each committed share, and a share that failed left neither.
   */
  lemma {:induction false} PushAccounting(db: Tables, req: PushRequest, shares: seq<Share>, claimDuration: int)
    ensures RowsPushed(db, PushAll(db, req, shares, claimDuration), req,
                       Committed(db, req, shares, claimDuration), claimDuration)
    ensures EventsPushed(db, PushAll(db, req, shares, claimDuration), req, Committed(db, req, shares, claimDuration))
  {
    if |shares| > 0 {
      var n := |shares| - 1;
      PushAccounting(db, req, shares[..n], claimDuration);
      var d := PushAll(db, req, shares[..n], claimDuration);
      if ShareCommits(d, req, shares[n]) {
        SharePushed(db, d, req, Committed(db, req, shares[..n], claimDuration), shares[n], claimDuration);
      }
    }
  }

  lemma SharePushed(db: Tables, d: Tables, req: PushRequest, made: seq<Share>, s: Share, claimDuration: int)
    requires RowsPushed(db, d, req, made, claimDuration) && EventsPushed(db, d, req, made)
    requires ShareCommits(d, req, s)
    ensures RowsPushed(db, ShareTx(d, req, s, claimDuration).value, req, made + [s], claimDuration)
    ensures EventsPushed(db, ShareTx(d, req, s, claimDuration).value, req, made + [s])
  {
    var r := ShareTx(d, req, s, claimDuration).value;
    ShareEffect(d, req, s, claimDuration);
    RowPushed(db, d, r, req, made, s, claimDuration);
    EventPushed(db, d, r, req, made, s);
  }

  /** Only shares of the push count, and of these only ones that did not fail. */
  lemma {:induction false} CommittedAreShares(db: Tables, req: PushRequest, shares: seq<Share>, claimDuration: int)
    ensures |Committed(db, req, shares, claimDuration)| <= |shares|
    ensures forall s :: s in Committed(db, req, shares, claimDuration) ==> s in shares && s.failAt > 4
  {
    if |shares| > 0 {
      CommittedAreShares(db, req, shares[..|shares| - 1], claimDuration);
    }
  }

  class TaskDatabase {
    var tasks: map<TaskId, TaskRow>
    var runs: seq<TaskRun>
    var events: seq<TaskEvent>

    function Snapshot(): Tables
      reads this
    {
      Tables(tasks, runs, events)
    }

    constructor ()
      ensures Snapshot() == EMPTY
    {
      tasks, runs, events := map[], [], [];
    }

    method Rollback(saved: Tables)
      modifies this
      ensures Snapshot() == saved
    {
      tasks, runs, events := saved.tasks, saved.runs, saved.events;
    }

    // ---- statements ----

    method InsertTask(id: TaskId, row: TaskRow, fault: bool) returns (ok: bool)
      modifies this
      ensures ok <==> !fault && CanInsert(old(Snapshot()), id, row.parent)
      ensures Snapshot() == if ok then PutTask(old(Snapshot()), id, row) else old(Snapshot())
    {
      ok := !fault && CanInsert(Snapshot(), id, row.parent);
      if ok {
        tasks := tasks[id := row];
      }
    }

    method InsertEvent(e: TaskEvent, fault: bool) returns (ok: bool)
      modifies this
      ensures ok == !fault
      ensures Snapshot() == if ok then AddEvent(old(Snapshot()), e) else old(Snapshot())
    {
      ok := !fault;
      if ok {
        events := events + [e];
      }
    }

    /**
     Compare-and-set on the status; the event is written only when the row was still at `from`. When only the
     event fails the row has changed, and the caller's transaction takes that back.
     */
    method UpdateStatus(id: TaskId, from: Status, to: Status, actor: string, faultRow: bool, faultEvent: bool)
      returns (r: Result<(), Failure>)
      modifies this
      ensures r.Ok? <==> !faultRow && !faultEvent && id in old(tasks) && old(tasks)[id].status == from
      ensures r == Err(FailedPrecondition) <==> !faultRow && !(id in old(tasks) && old(tasks)[id].status == from)
      ensures Snapshot() == if faultRow || !(id in old(tasks) && old(tasks)[id].status == from) then old(Snapshot())
                            else if faultEvent then PutTask(old(Snapshot()), id, old(tasks)[id].(status := to))
                            else AddEvent(PutTask(old(Snapshot()), id, old(tasks)[id].(status := to)),
                                          TaskEvent(id, StatusChangeEvent, Some(from), to, actor))
    {
      if faultRow {
        return Err(Internal);
      }
      if id !in tasks || tasks[id].status != from {
        return Err(FailedPrecondition);
      }
      tasks := tasks[id := tasks[id].(status := to)];
      var logged := InsertEvent(TaskEvent(id, StatusChangeEvent, Some(from), to, actor), faultEvent);
      return if logged then Ok(()) else Err(Internal);
    }

    /** `now` is the transaction's clock, `wall` the caller's when it computes the expiry. */
    method AtomicClaim(id: TaskId, owner: string, claimDuration: int, now: Time, wall: Time, fault: bool)
      returns (r: Result<bool, Failure>)
      modifies this
      ensures r.Ok? <==> !fault
      ensures r.Ok? ==> r.value == ClaimWins(old(Snapshot()), id, now)
      ensures r.Ok? ==>
                (r.value <==> id in old(tasks)
                              && (old(tasks)[id].dispatch == Unclaimed
                                  || (old(tasks)[id].claimExpireAt.Some? && old(tasks)[id].claimExpireAt.value < now)))
      ensures runs == old(runs) && events == old(events)
      ensures r == Ok(true) ==>
                tasks == old(tasks)[id := old(tasks)[id].(
                  dispatch := Claimed, owner := Some(owner), claimExpireAt := Some(wall + claimDuration))]
      ensures r != Ok(true) ==> tasks == old(tasks)
      ensures Snapshot() == if r.Ok? then ClaimTx(old(Snapshot()), id, owner, now, wall + claimDuration)
                            else old(Snapshot())
    {
      if fault {
        return Err(Internal);
      }
      var won := id in tasks && Claimable(tasks[id], now);
      if won {
        tasks := tasks[id := ClaimedRow(tasks[id], owner, wall + claimDuration)];
      }
      return Ok(won);
    }

    method MarkDelivered(id: TaskId, fault: bool) returns (r: Result<(), Failure>)
      modifies this
      ensures r.Ok? <==> !fault && id in old(tasks) && old(tasks)[id].dispatch == Claimed
      ensures Snapshot() == if r.Ok? then PutTask(old(Snapshot()), id, old(tasks)[id].(dispatch := Delivered))
                            else old(Snapshot())
    {
      if fault {
        return Err(Internal);
      }
      if id !in tasks || tasks[id].dispatch != Claimed {
        return Err(FailedPrecondition);
      }
      tasks := tasks[id := tasks[id].(dispatch := Delivered)];
      return Ok(());
    }

    /** The new run's key is its place in the table. */
    method CreateTaskRun(id: TaskId, node: NodeId, attempt: int, fault: bool) returns (r: Result<nat, Failure>)
      modifies this
      ensures r.Ok? <==> !fault
      ensures r.Ok? ==> r.value == |old(runs)|
      ensures Snapshot() == if r.Ok? then
                              old(Snapshot()).(runs := old(runs) + [TaskRun(id, node, attempt, Running, false, "", "")])
                            else old(Snapshot())
    {
      if fault {
        return Err(Internal);
      }
      runs := runs + [TaskRun(id, node, attempt, Running, false, "", "")];
      return Ok(|runs| - 1);
    }

    method UpdateTaskRun(run: nat, status: Status, errorMessage: string, result: string, fault: bool) returns (ok: bool)
      requires run < |runs|
      modifies this
      ensures ok == !fault
      ensures Snapshot() == if ok then
                              old(Snapshot()).(runs := old(runs)[run := old(runs)[run].(
                                status := status, finished := true, errorMessage := errorMessage, result := result)])
                            else old(Snapshot())
    {
      ok := !fault;
      if ok {
        runs := runs[run := runs[run].(
                  status := status, finished := true, errorMessage := errorMessage, result := result)];
      }
    }

    method UpdateResult(id: TaskId, status: Status, result: string, retryCount: int, fault: bool) returns (ok: bool)
      modifies this
      ensures ok == !fault
      ensures Snapshot() == if ok && id in old(tasks) then
                              PutTask(old(Snapshot()), id,
                                      old(tasks)[id].(status := status, result := Some(result),
                                          retryCount := retryCount))
                            else old(Snapshot())
    {
      ok := !fault;
      if ok && id in tasks {
        tasks := tasks[id := tasks[id].(status := status, result := Some(result), retryCount := retryCount)];
      }
    }

    // ---- transactions ----

    method CreateTask(req: CreateRequest, id: TaskId, now: Time, failAt: nat) returns (r: Result<TaskRow, Failure>)
      modifies this
      ensures r.Ok? <==> req.kind != "" && req.scope.Some? && CanInsert(old(Snapshot()), id, None) && failAt > 2
      ensures r == Err(InvalidArgument) <==> req.kind == "" || req.scope == None
      ensures r.Ok? ==>
                && tasks == old(tasks)[id := r.value] && runs == old(runs)
                && events == old(events) + [TaskEvent(id, CreatedEvent, None, Pending, req.createdBy)]
      ensures r.Ok? ==>
                var row := r.value;
                && row.kind == req.kind && Some(row.scope) == req.scope && row.createdBy == req.createdBy
                && row.status == Pending && row.dispatch == Unclaimed && row.createdAt == now && row.retryCount == 0
                && row.parent == None && row.result == None && row.owner == None && row.claimExpireAt == None
                && row.targetGateway == (if req.gateway == "" then None else Some(req.gateway))
                && row.targetNode == (if req.node == "" then None else Some(req.node))
                && row.payload == (if req.payload == None then Object(map[]) else req.payload.value)
                && row.maxRetries == (if req.maxRetries <= 0 then 3 else req.maxRetries)
                && row.timeoutSeconds == (if req.timeoutSeconds <= 0 then 600 else req.timeoutSeconds)
      ensures r.Ok? ==> r.value == RequestedRow(req, now)
                        && CreateTaskTx(old(Snapshot()), id, r.value) == Ok(Snapshot())
      ensures r.Err? ==> Snapshot() == old(Snapshot())
    {
      if req.kind == "" || req.scope == None {
        return Err(InvalidArgument);
      }
      var saved := Snapshot();
      var row := RequestedRow(req, now);
      var ok := InsertTask(id, row, failAt == 0);
      if ok {
        ok := InsertEvent(TaskEvent(id, CreatedEvent, None, Pending, row.createdBy), failAt == 1);
      }
      if !ok || failAt == 2 {
        Rollback(saved);
        return Err(Internal);
      }
      return Ok(row);
    }

    method CancelTask(id: TaskId, failAt: nat) returns (r: Result<TaskRow, Failure>)
      modifies this
      ensures id == "" ==> r == Err(InvalidArgument)
      ensures r.Ok? <==> id != "" && CancelTaskTx(old(Snapshot()), id).Ok? && failAt > 3
      ensures id != "" && r.Err? && failAt > 3 ==> r.error == CancelTaskTx(old(Snapshot()), id).error
      ensures r.Ok? ==> CancelTaskTx(old(Snapshot()), id) == Ok(Snapshot()) && r.value == tasks[id]
      ensures id != "" && failAt > 3 ==>
                && (r == Err(NotFound) <==> id !in old(tasks))
                && (r == Err(FailedPrecondition) <==>
                      id in old(tasks) && old(tasks)[id].status in {Success, Cancelled, Timeout, PartiallySucceeded})
                && (r.Ok? || r.error in {NotFound, FailedPrecondition})
      ensures r.Ok? ==>
                && tasks == old(tasks)[id := old(tasks)[id].(status := Cancelled)] && runs == old(runs)
                && events == old(events)
                     + [TaskEvent(id, StatusChangeEvent, Some(old(tasks)[id].status), Cancelled, "user")]
      ensures r.Err? ==> Snapshot() == old(Snapshot())
    {
      if id == "" {
        return Err(InvalidArgument);
      }
      if failAt == 0 {
        return Err(Internal);
      }
      if id !in tasks {
        return Err(NotFound);
      }
      var saved := Snapshot();
      var row := tasks[id];
      if IsTerminal(row.status) || !ValidateTransition(row.status, Cancelled) {
        return Err(FailedPrecondition);
      }
      var moved := UpdateStatus(id, row.status, Cancelled, "user", failAt == 1, failAt == 2);
      if moved.Err? || failAt == 3 {
        Rollback(saved);
        return Err(Internal);
      }
      return Ok(row.(status := Cancelled));
    }

    /** The pull's two statements for one row. */
    method DeliverRow(id: TaskId, gateway: GatewayId, faultRow: bool, faultEvent: bool) returns (ok: bool)
      requires id in tasks
      modifies this
      ensures ok <==> !faultRow && !faultEvent
      ensures ok ==> Snapshot() == DeliverOne(old(Snapshot()), id, gateway)
    {
      if faultRow {
        return false;
      }
      tasks := tasks[id := DeliveredRow(tasks[id], gateway)];
      ok := InsertEvent(DeliveryEvent(id, gateway), faultEvent);
    }

    /** The pull's loop over its answer; a fault stops it where it is. */
    method DeliverRows(gateway: GatewayId, answer: seq<TaskId>, failAt: nat) returns (out: seq<NodeTask>, ok: bool)
      requires Distinct(answer) && forall i :: 0 <= i < |answer| ==> answer[i] in tasks
      modifies this
      ensures ok <==> failAt >= 2 * |answer|
      ensures ok ==> Snapshot() == DeliverAll(old(Snapshot()), answer, gateway) && out == NodeTasks(old(tasks), answer)
    {
      ghost var start := Snapshot();
      out, ok := [], true;
      var i := 0;
      while ok && i < |answer|
        invariant 0 <= i <= |answer|
        invariant if ok then failAt >= 2 * i else failAt < 2 * |answer|
        invariant ok ==> Snapshot() == DeliverAll(start, answer[..i], gateway)
                         && out == NodeTasks(start.tasks, answer[..i])
        decreases |answer| - i, ok
      {
        NextRow(start, answer, gateway, i);
        var task := AsNodeTask(tasks[answer[i]], answer[i]);
        ok := DeliverRow(answer[i], gateway, failAt == 2 * i, failAt == 2 * i + 1);
        if ok {
          out := out + [task];
          i := i + 1;
        }
      }
      assert ok ==> answer[..i] == answer;
    }

    /** `answer` is what the database answers to the pull's SELECT; `authNode` the caller's certified node, if any. */
    method PullTasks(
      gateway: GatewayId, authNode: NodeId, node: NodeId, maxTasks: int,
      ghost locked: set<TaskId>, answer: seq<TaskId>, failAt: nat) returns (r: Result<seq<NodeTask>, Failure>)
      requires IsPullAnswer(tasks, answer, node, gateway, locked, PullLimit(maxTasks))
      modifies this
      ensures r.Ok? <==> node != "" && (authNode == "" || authNode == node) && failAt > 2 * |answer| + 1
      ensures r.Err? ==>
                r.error == if node == "" then InvalidArgument
                           else if authNode != "" && authNode != node then PermissionDenied
                           else Internal
      ensures r.Ok? ==> Snapshot() == DeliverAll(old(Snapshot()), answer, gateway)
      ensures r.Ok? ==> r.value == NodeTasks(old(tasks), answer)
      ensures r.Ok? ==>
                && |r.value| == |answer|
                && forall i :: 0 <= i < |answer| ==>
                     && r.value[i].taskId == answer[i]
                     && r.value[i].kind == old(tasks)[answer[i]].kind
                     && r.value[i].payload == old(tasks)[answer[i]].payload
                     && r.value[i].timeoutSeconds == old(tasks)[answer[i]].timeoutSeconds
      ensures r.Ok? ==> SelectsOldest(old(tasks), answer, node, gateway, locked, maxTasks)
      ensures r.Ok? ==> IsDelivery(old(Snapshot()), Snapshot(), answer, gateway)
      ensures r.Err? ==> Snapshot() == old(Snapshot())
    {
      if node == "" {
        return Err(InvalidArgument);
      }
      if !AuthenticatedAs(authNode, node) {
        return Err(PermissionDenied);
      }
      if failAt == 0 {
        return Err(Internal);
      }
      var saved := Snapshot();
      var out, ok := DeliverRows(gateway, answer, failAt - 1);
      if !ok || failAt == 2 * |answer| + 1 {
        Rollback(saved);
        return Err(Internal);
      }
      SelectionInWords(saved.tasks, answer, node, gateway, locked, maxTasks);
      DeliveryInWords(saved, answer, gateway);
      return Ok(out);
    }

    /** `result` is the reported result as JSON. A task that does not exist is an internal error to this caller. */
    method ReportTaskResult(
      authNode: NodeId, id: TaskId, node: NodeId, rawStatus: string, errorMessage: string, result: string, failAt: nat)
      returns (r: Result<(), Failure>)
      modifies this
      ensures id == "" || node == "" ==> r == Err(InvalidArgument)
      ensures r.Ok? <==> id != "" && node != "" && (authNode == "" || authNode == node)
                         && NormalizeReportedStatus(rawStatus).Some?
                         && id in old(tasks) && old(tasks)[id].targetNode == Some(node) && failAt > 6
      ensures r.Ok? ==>
                ReportTx(old(Snapshot()), id, node, NormalizeReportedStatus(rawStatus).value, errorMessage, result)
                  == Ok(Snapshot())
      ensures r.Ok? ==>
                var status := NormalizeReportedStatus(rawStatus).value;
                && tasks == old(tasks)[id := old(tasks)[id].(status := status, result := Some(result))]
                && events == old(events)
                     + [TaskEvent(id, ResultReportedEvent, Some(old(tasks)[id].status), status, "agent:" + node)]
                && |runs| == |old(runs)| + 1 && old(runs) <= runs
                && var run := runs[|old(runs)|];
                   && run.taskId == id && run.nodeId == node && run.status == status && run.finished
                   && run.errorMessage == errorMessage && run.result == result && run.attempt >= 1
                   && forall i :: 0 <= i < |old(runs)| && runs[i].taskId == id ==> runs[i].attempt < run.attempt
      ensures r.Err? && id != "" && node != "" ==>
                r.error == if authNode != "" && authNode != node then PermissionDenied
                           else if NormalizeReportedStatus(rawStatus) == None then InvalidArgument
                           else if failAt == 0 || id !in old(tasks) then Internal
                           else if old(tasks)[id].targetNode != Some(node) then PermissionDenied
                           else Internal
      ensures r.Err? ==> Snapshot() == old(Snapshot())
    {
      if id == "" || node == "" {
        return Err(InvalidArgument);
      }
      if !AuthenticatedAs(authNode, node) {
        return Err(PermissionDenied);
      }
      var normalized := NormalizeReportedStatus(rawStatus);
      if normalized == None {
        return Err(InvalidArgument);
      }
      var status := normalized.value;
      if failAt == 0 || id !in tasks {
        return Err(Internal);
      }
      var row := tasks[id];
      if row.targetNode != Some(node) {
        return Err(PermissionDenied);
      }
      var saved := Snapshot();
      var attempt := MaxAttempt(runs, id);
      var ok := failAt != 1;
      if ok {
        var run := CreateTaskRun(id, node, attempt + 1, failAt == 2);
        ok := run.Ok?;
        if ok {
          ok := UpdateTaskRun(run.value, status, errorMessage, result, failAt == 3);
        }
      }
      if ok {
        ok := UpdateResult(id, status, result, row.retryCount, failAt == 4);
      }
      if ok {
        ok := InsertEvent(TaskEvent(id, ResultReportedEvent, Some(row.status), status, "agent:" + node), failAt == 5);
      }
      if !ok || failAt == 6 {
        Rollback(saved);
        return Err(Internal);
      }
      assert runs == saved.runs + [TaskRun(id, node, attempt + 1, status, true, errorMessage, result)];
      assert row.(status := status, result := Some(result), retryCount := row.retryCount)
          == row.(status := status, result := Some(result));
      MaxAttemptIsMax(saved.runs, id);
      return Ok(());
    }

    /** The claim of a row inserted in the same transaction cannot be lost, so `claimed` follows `ok`. */
    method ExpandAndClaim(req: PushRequest, s: Share, claimDuration: int) returns (claimed: bool, ok: bool)
      modifies this
      ensures ok <==> ShareCommits(old(Snapshot()), req, s)
      ensures ok ==> claimed
      ensures Snapshot() == if ok then ShareTx(old(Snapshot()), req, s, claimDuration).value else old(Snapshot())
    {
      var saved := Snapshot();
      var row := NewRow(Some(req.taskId), Node, req.kind, Some(req.gateway), Some(s.node), req.payload,
                        DEFAULT_MAX_RETRIES, DEFAULT_TIMEOUT_SECONDS, "gateway:" + req.gateway, s.now);
      claimed := false;
      ok := InsertTask(s.id, row, s.failAt == 0);
      if ok {
        ok := InsertEvent(TaskEvent(s.id, ExpandedEvent, None, Pending, "gateway:" + req.gateway), s.failAt == 1);
      }
      if ok {
        var won := AtomicClaim(s.id, req.gateway, claimDuration, s.now, s.wall, s.failAt == 2);
        ok := won.Ok?;
        if ok {
          if won.value {
            var delivered := MarkDelivered(s.id, s.failAt == 3);
            ok := delivered.Ok?;
            claimed := ok;
          } else {
            assert false;
          }
        }
      }
      if !ok || s.failAt == 4 {
        ok := false;
        Rollback(saved);
      }
    }

    /** `gateway` is the gateway that serves the call, `nodeIds` the nodes the request names. */
    method PushRegionalTask(
      gateway: GatewayId, req: PushRequest, nodeIds: seq<NodeId>, shares: seq<Share>, claimDuration: int)
      returns (r: Result<(nat, nat), Failure>)
      requires |shares| == |nodeIds| && forall i :: 0 <= i < |shares| ==> shares[i].node == nodeIds[i]
      modifies this
      ensures r.Ok? <==> req.taskId != "" && req.gateway != "" && req.gateway == gateway
      ensures r.Err? ==> r.error == if req.taskId == "" || req.gateway == "" then InvalidArgument else PermissionDenied
      ensures r.Ok? ==> Snapshot() == PushAll(old(Snapshot()), req, shares, claimDuration)
      ensures r.Ok? ==> var expanded := |Committed(old(Snapshot()), req, shares, claimDuration)|;
                        r.value == (expanded, expanded) && expanded <= |nodeIds|
      ensures r.Err? ==> Snapshot() == old(Snapshot())
    {
      if req.taskId == "" || req.gateway == "" {
        return Err(InvalidArgument);
      }
      if req.gateway != gateway {
        return Err(PermissionDenied);
      }
      if |nodeIds| == 0 {
        return Ok((0, 0));
      }
      var expandedCount, claimedCount := 0, 0;
      var i := 0;
      while i < |nodeIds|
        invariant 0 <= i <= |nodeIds|
        invariant Snapshot() == PushAll(old(Snapshot()), req, shares[..i], claimDuration)
        invariant expandedCount == claimedCount == |Committed(old(Snapshot()), req, shares[..i], claimDuration)| <= i
      {
        assert shares[..i + 1][..i] == shares[..i];
        var claimed, ok := ExpandAndClaim(req, shares[i], claimDuration);
        if ok {
          expandedCount := expandedCount + 1;
          if claimed {
            claimedCount := claimedCount + 1;
          }
        }
        i := i + 1;
      }
      assert shares[..i] == shares;
      return Ok((expandedCount, claimedCount));
    }
  }
}
