/**
 The task tables of the control plane (`tasks`, `task_runs`, `task_events`) and, as functions
 on their contents, the transactions that change them. A transaction either yields its new
 tables or an error; an error leaves the tables alone, because it is rolled back.
 */
module TaskTables {
  import opened Wrappers

  type TaskId = string
  type NodeId = string
  type GatewayId = string
  type Time = int

  const DEFAULT_MAX_RETRIES := 3
  const DEFAULT_TIMEOUT_SECONDS := 600

  datatype Scope = Region | Node

  datatype Status =
    | Pending | Dispatching | Running | Success | Failed
    | Retrying | Timeout | Cancelled | PartiallySucceeded

  datatype Dispatch = Unclaimed | Claimed | Delivered

  /** A JSON payload: opaque to the task tables, except that the controller writes objects of strings. */
  datatype Payload = Opaque(text: string) | Object(members: map<string, string>)

  datatype TaskRow = TaskRow(
    parent: Option<TaskId>,
    scope: Scope,
    kind: string,
    status: Status,
    targetGateway: Option<GatewayId>,
    targetNode: Option<NodeId>,
    payload: Payload,
    result: Option<string>,
    dispatch: Dispatch,
    owner: Option<string>,
    claimExpireAt: Option<Time>,
    maxRetries: int,
    retryCount: int,
    timeoutSeconds: int,
    createdBy: string,
    createdAt: Time)

  datatype TaskRun = TaskRun(
    taskId: TaskId, nodeId: NodeId, attempt: int, status: Status,
    finished: bool, errorMessage: string, result: string)

  datatype EventKind = CreatedEvent | ExpandedEvent | DeliveredEvent | StatusChangeEvent | ResultReportedEvent

  /** `before` is None where the code writes the empty string, that is when a row is created. */
  datatype TaskEvent = TaskEvent(taskId: TaskId, kind: EventKind, before: Option<Status>, after: Status, actor: string)

  datatype Tables = Tables(tasks: map<TaskId, TaskRow>, runs: seq<TaskRun>, events: seq<TaskEvent>)

  const EMPTY := Tables(map[], [], [])

  datatype Failure = InvalidArgument | PermissionDenied | NotFound | FailedPrecondition | Internal

  datatype NodeTask = NodeTask(taskId: TaskId, kind: string, payload: Payload, timeoutSeconds: int)

  // ---- status tables ----

  function TerminalStatuses(): set<Status> {
    {Success, Cancelled, Timeout, PartiallySucceeded}
  }

  function AllowedTransitions(from: Status): set<Status> {
    match from
    case Pending => {Dispatching, Cancelled}
    case Dispatching => {Running, Cancelled, Timeout}
    case Running => {Success, Failed, Timeout, Cancelled, PartiallySucceeded}
    case Failed => {Retrying, Cancelled}
    case Retrying => {Running, Cancelled}
    case _ => {}
  }

  predicate IsTerminal(s: Status) {
    s in TerminalStatuses()
  }

  predicate ValidateTransition(from: Status, to: Status) {
    to in AllowedTransitions(from)
  }

  /** The terminal statuses are those no transition leaves, and every other one can be cancelled. */
  lemma TerminalIffNoWayOut(s: Status)
    ensures IsTerminal(s) <==> forall t :: !ValidateTransition(s, t)
    ensures !IsTerminal(s) <==> ValidateTransition(s, Cancelled)
    ensures IsTerminal(s) <==> s in {Success, Cancelled, Timeout, PartiallySucceeded}
  {
    assert !IsTerminal(s) ==> ValidateTransition(s, Cancelled);
  }

  /** Apart from cancels, the transitions are these. */
  lemma TransitionsExactly(s: Status, t: Status)
    requires t != Cancelled
    ensures ValidateTransition(s, t) <==>
              (s, t) in {(Pending, Dispatching), (Dispatching, Running), (Dispatching, Timeout), (Running, Success),
                         (Running, Failed), (Running, Timeout), (Running, PartiallySucceeded), (Failed, Retrying),
                         (Retrying, Running)}
  {
  }

  // ---- statements ----

  function NewRow(
    parent: Option<TaskId>, scope: Scope, kind: string, gateway: Option<GatewayId>, node: Option<NodeId>,
    payload: Payload, maxRetries: int, timeoutSeconds: int, createdBy: string, now: Time): TaskRow
  {
    TaskRow(parent, scope, kind, Pending, gateway, node, payload, None, Unclaimed, None, None,
            maxRetries, 0, timeoutSeconds, createdBy, now)
  }

  /** The key is the database's choice; the primary key and the parent's foreign key may refuse the row. */
  predicate CanInsert(db: Tables, id: TaskId, parent: Option<TaskId>) {
    id !in db.tasks && (parent.Some? ==> parent.value in db.tasks)
  }

  function PutTask(db: Tables, id: TaskId, row: TaskRow): Tables {
    db.(tasks := db.tasks[id := row])
  }

  function AddEvent(db: Tables, e: TaskEvent): Tables {
    db.(events := db.events + [e])
  }

  /** The WHERE clause of the claim; a NULL expiry compares as unknown and so never matches. */
  predicate Claimable(row: TaskRow, now: Time) {
    row.dispatch == Unclaimed || (row.claimExpireAt.Some? && row.claimExpireAt.value < now)
  }

  predicate ClaimWins(db: Tables, id: TaskId, now: Time) {
    id in db.tasks && Claimable(db.tasks[id], now)
  }

  function ClaimedRow(row: TaskRow, owner: string, until: Time): TaskRow {
    row.(dispatch := Claimed, owner := Some(owner), claimExpireAt := Some(until))
  }

  function ClaimTx(db: Tables, id: TaskId, owner: string, now: Time, until: Time): Tables {
    if ClaimWins(db, id, now) then PutTask(db, id, ClaimedRow(db.tasks[id], owner, until)) else db
  }

  /** MAX(attempt) over the task's runs, 0 when it has none. */
  function MaxAttempt(runs: seq<TaskRun>, id: TaskId): int {
    if |runs| == 0 then 0
    else
      var before := MaxAttempt(runs[..|runs| - 1], id);
      var last := runs[|runs| - 1];
      if last.taskId == id && last.attempt > before then last.attempt else before
  }

  // ---- transactions ----

  function CreateTaskTx(db: Tables, id: TaskId, row: TaskRow): Result<Tables, Failure> {
    if CanInsert(db, id, row.parent) then
      Ok(AddEvent(PutTask(db, id, row), TaskEvent(id, CreatedEvent, None, Pending, row.createdBy)))
    else Err(Internal)
  }

  function CancelTaskTx(db: Tables, id: TaskId): Result<Tables, Failure> {
    if id !in db.tasks then Err(NotFound)
    else
      var row := db.tasks[id];
      if IsTerminal(row.status) || !ValidateTransition(row.status, Cancelled) then Err(FailedPrecondition)
      else Ok(AddEvent(PutTask(db, id, row.(status := Cancelled)),
                       TaskEvent(id, StatusChangeEvent, Some(row.status), Cancelled, "user")))
  }

  function ReportTx(
    db: Tables, id: TaskId, node: NodeId, status: Status, errorMessage: string, result: string): Result<Tables, Failure>
  {
    if id !in db.tasks then Err(Internal)
    else if db.tasks[id].targetNode != Some(node) then Err(PermissionDenied)
    else
      var row := db.tasks[id];
      var run := TaskRun(id, node, MaxAttempt(db.runs, id) + 1, status, true, errorMessage, result);
      Ok(Tables(db.tasks[id := row.(status := status, result := Some(result))],
                db.runs + [run],
                db.events + [TaskEvent(id, ResultReportedEvent, Some(row.status), status, "agent:" + node)]))
  }

  /** One node's share of a regional task: insert, log, claim, deliver. */
  function ExpandTx(
    db: Tables, id: TaskId, parent: TaskId, kind: string, gateway: GatewayId, node: NodeId, payload: Payload,
    now: Time, until: Time): Result<Tables, Failure>
  {
    if CanInsert(db, id, Some(parent)) then
      var row := NewRow(Some(parent), Node, kind, Some(gateway), Some(node), payload,
                        DEFAULT_MAX_RETRIES, DEFAULT_TIMEOUT_SECONDS, "gateway:" + gateway, now);
      var inserted := AddEvent(PutTask(db, id, row), TaskEvent(id, ExpandedEvent, None, Pending, "gateway:" + gateway));
      Ok(PutTask(inserted, id, ClaimedRow(row, gateway, until).(dispatch := Delivered)))
    else Err(Internal)
  }

  // ---- pulling ----

  function PullLimit(maxTasks: int): (limit: int)
    ensures 1 <= limit <= 100
  {
    if maxTasks <= 0 then 10 else if maxTasks > 100 then 100 else maxTasks
  }

  predicate Eligible(row: TaskRow, node: NodeId, gateway: GatewayId) {
    && row.scope == Node
    && row.targetNode == Some(node)
    && row.status in {Pending, Retrying}
    && (row.targetGateway == None || row.targetGateway == Some(gateway))
  }

  /**
   What the pull's SELECT may answer: the oldest `limit` eligible rows, ties in any order,
   passing over the rows that other transactions hold locked.
   */
  ghost predicate IsPullAnswer(
    tasks: map<TaskId, TaskRow>, answer: seq<TaskId>, node: NodeId, gateway: GatewayId, locked: set<TaskId>, limit: int)
  {
    && Distinct(answer)
    && |answer| <= limit
    && (forall i :: 0 <= i < |answer| ==>
          answer[i] in tasks && answer[i] !in locked && Eligible(tasks[answer[i]], node, gateway))
    && (forall i, j :: 0 <= i < j < |answer| ==> tasks[answer[i]].createdAt <= tasks[answer[j]].createdAt)
    && (forall id :: id in tasks && id !in locked && id !in answer && Eligible(tasks[id], node, gateway) ==>
          |answer| == limit && forall i :: 0 <= i < |answer| ==> tasks[answer[i]].createdAt <= tasks[id].createdAt)
  }

  function DeliveredRow(row: TaskRow, gateway: GatewayId): TaskRow {
    row.(status := Running, dispatch := Delivered,
         owner := if row.owner.Some? then row.owner else Some("gateway:" + gateway))
  }

  /** The event is always written as leaving Pending, whatever the row's status was. */
  function DeliveryEvent(id: TaskId, gateway: GatewayId): TaskEvent {
    TaskEvent(id, DeliveredEvent, Some(Pending), Running, "gateway:" + gateway)
  }

  function DeliverOne(db: Tables, id: TaskId, gateway: GatewayId): Tables
    requires id in db.tasks
  {
    AddEvent(PutTask(db, id, DeliveredRow(db.tasks[id], gateway)), DeliveryEvent(id, gateway))
  }

  function DeliverAll(db: Tables, answer: seq<TaskId>, gateway: GatewayId): (r: Tables)
    requires forall i :: 0 <= i < |answer| ==> answer[i] in db.tasks
    ensures r.tasks.Keys == db.tasks.Keys
  {
    if |answer| == 0 then db
    else DeliverOne(DeliverAll(db, answer[..|answer| - 1], gateway), answer[|answer| - 1], gateway)
  }

  /** What a pull changes, row by row and without the order of the loop. */
  lemma {:induction false} PullExactly(db: Tables, answer: seq<TaskId>, gateway: GatewayId)
    requires Distinct(answer)
    requires forall i :: 0 <= i < |answer| ==> answer[i] in db.tasks
    ensures var r := DeliverAll(db, answer, gateway);
            && (forall id :: id in db.tasks ==>
                  r.tasks[id] == if id in answer then DeliveredRow(db.tasks[id], gateway) else db.tasks[id])
            && r.runs == db.runs
            && |r.events| == |db.events| + |answer|
            && db.events <= r.events
            && (forall i :: 0 <= i < |answer| ==> r.events[|db.events| + i] == DeliveryEvent(answer[i], gateway))
  {
    PulledRows(db, answer, gateway);
    PulledEvents(db, answer, gateway);
  }

  lemma {:induction false} PulledRows(db: Tables, answer: seq<TaskId>, gateway: GatewayId)
    requires Distinct(answer)
    requires forall i :: 0 <= i < |answer| ==> answer[i] in db.tasks
    ensures var r := DeliverAll(db, answer, gateway);
            forall id :: id in db.tasks ==>
              r.tasks[id] == if id in answer then DeliveredRow(db.tasks[id], gateway) else db.tasks[id]
  {
    if |answer| > 0 {
      var n := |answer| - 1;
      PulledRows(db, answer[..n], gateway);
      assert answer == answer[..n] + [answer[n]];
      assert answer[n] !in answer[..n];
    }
  }

  lemma {:induction false} PulledEvents(db: Tables, answer: seq<TaskId>, gateway: GatewayId)
    requires forall i :: 0 <= i < |answer| ==> answer[i] in db.tasks
    ensures var r := DeliverAll(db, answer, gateway);
            && r.runs == db.runs
            && |r.events| == |db.events| + |answer|
            && db.events <= r.events
            && (forall i :: 0 <= i < |answer| ==> r.events[|db.events| + i] == DeliveryEvent(answer[i], gateway))
  {
    if |answer| > 0 {
      PulledEvents(db, answer[..|answer| - 1], gateway);
    }
  }

  /** When the loop reaches a row, nothing has touched it yet. */
  lemma PullReaches(db: Tables, answer: seq<TaskId>, gateway: GatewayId, i: nat)
    requires Distinct(answer) && i < |answer|
    requires forall k :: 0 <= k < |answer| ==> answer[k] in db.tasks
    ensures var before := DeliverAll(db, answer[..i], gateway);
            && before.tasks[answer[i]] == db.tasks[answer[i]]
            && DeliverAll(db, answer[..i + 1], gateway) == DeliverOne(before, answer[i], gateway)
  {
    PullExactly(db, answer[..i], gateway);
    assert answer[i] !in answer[..i];
    assert answer[..i + 1][..i] == answer[..i];
  }

  // ---- fan-out by the deployment controller ----

  const DEPLOY_KIND := "DeployModel"
  const START_KIND := "StartRuntime"
  const CONTROLLER := "controller"

  function ParentRow(payload: Payload, now: Time): TaskRow {
    NewRow(None, Region, DEPLOY_KIND, None, None, payload,
           DEFAULT_MAX_RETRIES, DEFAULT_TIMEOUT_SECONDS, CONTROLLER, now)
  }

  function ChildRow(parent: TaskId, node: NodeId, payload: Payload, now: Time): TaskRow {
    NewRow(Some(parent), Node, START_KIND, None, Some(node), payload,
           DEFAULT_MAX_RETRIES, DEFAULT_TIMEOUT_SECONDS, CONTROLLER, now)
  }

  /** The first `|nodes|` children; None as soon as the database refuses a key. */
  function AddChildren(
    db: Tables, parent: TaskId, ids: seq<TaskId>, nodes: seq<NodeId>, payload: Payload, now: Time): Option<Tables>
    requires |ids| == |nodes|
  {
    if |nodes| == 0 then Some(db)
    else
      var n := |nodes| - 1;
      match AddChildren(db, parent, ids[..n], nodes[..n], payload, now)
      case None => None
      case Some(d) =>
        if CanInsert(d, ids[n], Some(parent)) then Some(PutTask(d, ids[n], ChildRow(parent, nodes[n], payload, now)))
        else None
  }

  function FanOutTx(
    db: Tables, parent: TaskId, ids: seq<TaskId>, nodes: seq<NodeId>,
    parentPayload: Payload, childPayload: Payload, now: Time): Option<Tables>
    requires |ids| == |nodes|
  {
    if CanInsert(db, parent, None) then
      AddChildren(PutTask(db, parent, ParentRow(parentPayload, now)), parent, ids, nodes, childPayload, now)
    else None
  }

  /** `r` is `db` with one child per node under fresh keys, and nothing else. */
  ghost predicate ChildrenAdded(
    db: Tables, r: Tables, parent: TaskId, ids: seq<TaskId>, nodes: seq<NodeId>, payload: Payload, now: Time)
    requires |ids| == |nodes|
  {
    && Distinct(ids)
    && (forall i :: 0 <= i < |ids| ==> ids[i] !in db.tasks && ids[i] in r.tasks)
    && (forall i :: 0 <= i < |ids| ==> ids[i] in r.tasks && r.tasks[ids[i]] == ChildRow(parent, nodes[i], payload, now))
    && (forall id :: id in db.tasks ==> id in r.tasks && r.tasks[id] == db.tasks[id])
    && (forall id :: id in r.tasks ==> id in db.tasks || id in ids)
    && r.runs == db.runs && r.events == db.events
  }

  lemma ChildAdded(
    db: Tables, d: Tables, parent: TaskId, ids: seq<TaskId>, nodes: seq<NodeId>,
    id: TaskId, node: NodeId, payload: Payload, now: Time)
    requires |ids| == |nodes|
    requires ChildrenAdded(db, d, parent, ids, nodes, payload, now)
    requires id !in d.tasks
    ensures ChildrenAdded(db, PutTask(d, id, ChildRow(parent, node, payload, now)),
                          parent, ids + [id], nodes + [node], payload, now)
  {
    var r := PutTask(d, id, ChildRow(parent, node, payload, now));
    var all := ids + [id];
    assert forall i :: 0 <= i < |ids| ==> all[i] == ids[i] && all[i] != id;
    assert forall k :: k in r.tasks ==> k == id || k in d.tasks;
    assert all[|ids|] == id;
  }

  /** A fan-out that succeeds adds exactly its children, whichever keys the database chose. */
  lemma {:induction false} AddChildrenExactly(
    db: Tables, parent: TaskId, ids: seq<TaskId>, nodes: seq<NodeId>, payload: Payload, now: Time)
    requires |ids| == |nodes|
    requires AddChildren(db, parent, ids, nodes, payload, now).Some?
    ensures ChildrenAdded(db, AddChildren(db, parent, ids, nodes, payload, now).value, parent, ids, nodes, payload, now)
  {
    if |nodes| > 0 {
      var n := |nodes| - 1;
      AddChildrenExactly(db, parent, ids[..n], nodes[..n], payload, now);
      var d := AddChildren(db, parent, ids[..n], nodes[..n], payload, now).value;
      var r := PutTask(d, ids[n], ChildRow(parent, nodes[n], payload, now));
      assert AddChildren(db, parent, ids, nodes, payload, now) == Some(r);
      assert ids == ids[..n] + [ids[n]] && nodes == nodes[..n] + [nodes[n]];
      ChildAdded(db, d, parent, ids[..n], nodes[..n], ids[n], nodes[n], payload, now);
    }
  }

  // ---- the log of one task ----

  function LastEvent(events: seq<TaskEvent>, id: TaskId): Option<TaskEvent> {
    if |events| == 0 then None
    else if events[|events| - 1].taskId == id then Some(events[|events| - 1])
    else LastEvent(events[..|events| - 1], id)
  }

  /** The status the log says a task has; a task nobody logged is Pending. */
  function LoggedStatus(events: seq<TaskEvent>, id: TaskId): Status {
    match LastEvent(events, id)
    case None => Pending
    case Some(e) => e.after
  }

  function CountReports(events: seq<TaskEvent>, id: TaskId): nat {
    if |events| == 0 then 0
    else
      CountReports(events[..|events| - 1], id)
      + (if events[|events| - 1].taskId == id && events[|events| - 1].kind == ResultReportedEvent then 1 else 0)
  }

  function CountRuns(runs: seq<TaskRun>, id: TaskId): nat {
    if |runs| == 0 then 0
    else CountRuns(runs[..|runs| - 1], id) + (if runs[|runs| - 1].taskId == id then 1 else 0)
  }

  function LastRun(runs: seq<TaskRun>, id: TaskId): Option<TaskRun> {
    if |runs| == 0 then None
    else if runs[|runs| - 1].taskId == id then Some(runs[|runs| - 1])
    else LastRun(runs[..|runs| - 1], id)
  }
}
