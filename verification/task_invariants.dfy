/**
 What every transaction on the task tables keeps: each task's log is a connected path that ends
 at the row's status, each task's runs are numbered 1, 2, 3, ... and finished, and there is one
 run for each reported result.
 */
module TaskInvariants {
  import opened Wrappers
  import opened TaskTables

  /** Every event starts at the status its task had reached in the log before it. */
  ghost predicate Connected(events: seq<TaskEvent>) {
    forall i :: 0 <= i < |events| ==>
      var e := events[i];
      match e.before
      case None => LastEvent(events[..i], e.taskId) == None && e.after == Pending
      case Some(s) => s == LoggedStatus(events[..i], e.taskId)
  }

  /** Every run is finished, and its number counts the runs of its task up to and including it. */
  ghost predicate Numbered(runs: seq<TaskRun>) {
    forall i :: 0 <= i < |runs| ==> runs[i].finished && runs[i].attempt == CountRuns(runs[..i], runs[i].taskId) + 1
  }

  /** When the newest event of a task is a reported result, the row shows exactly the newest run. */
  ghost predicate ShowsLastReport(db: Tables, id: TaskId)
    requires id in db.tasks
  {
    var e := LastEvent(db.events, id);
    var run := LastRun(db.runs, id);
    e.Some? && e.value.kind == ResultReportedEvent ==>
      run.Some? && db.tasks[id].status == run.value.status && db.tasks[id].result == Some(run.value.result)
  }

  ghost predicate TaskInv(db: Tables, id: TaskId)
    requires id in db.tasks
  {
    && db.tasks[id].status !in {Dispatching, Retrying}
    && db.tasks[id].status == LoggedStatus(db.events, id)
    && CountRuns(db.runs, id) == CountReports(db.events, id)
    && ShowsLastReport(db, id)
  }

  ghost predicate DbInv(db: Tables) {
    && Connected(db.events)
    && Numbered(db.runs)
    && (forall i :: 0 <= i < |db.events| ==> db.events[i].taskId in db.tasks)
    && (forall i :: 0 <= i < |db.runs| ==> db.runs[i].taskId in db.tasks)
    && (forall id :: id in db.tasks ==> TaskInv(db, id))
  }

  // ---- reading appended logs ----

  lemma EventAppended(events: seq<TaskEvent>, e: TaskEvent, id: TaskId)
    ensures LastEvent(events + [e], id) == if e.taskId == id then Some(e) else LastEvent(events, id)
    ensures CountReports(events + [e], id)
         == CountReports(events, id) + (if e.taskId == id && e.kind == ResultReportedEvent then 1 else 0)
  {
    assert (events + [e])[..|events|] == events;
  }

  lemma RunAppended(runs: seq<TaskRun>, run: TaskRun, id: TaskId)
    ensures LastRun(runs + [run], id) == if run.taskId == id then Some(run) else LastRun(runs, id)
    ensures CountRuns(runs + [run], id) == CountRuns(runs, id) + (if run.taskId == id then 1 else 0)
  {
    assert (runs + [run])[..|runs|] == runs;
  }

  lemma {:induction false} UnknownTaskHasNoLog(db: Tables, id: TaskId)
    requires id !in db.tasks
    requires forall i :: 0 <= i < |db.events| ==> db.events[i].taskId in db.tasks
    requires forall i :: 0 <= i < |db.runs| ==> db.runs[i].taskId in db.tasks
    ensures LastEvent(db.events, id) == None && CountReports(db.events, id) == 0 && CountRuns(db.runs, id) == 0
    decreases |db.events| + |db.runs|
  {
    if |db.events| > 0 {
      UnknownTaskHasNoLog(Tables(db.tasks, db.runs, db.events[..|db.events| - 1]), id);
    } else if |db.runs| > 0 {
      UnknownTaskHasNoLog(Tables(db.tasks, db.runs[..|db.runs| - 1], db.events), id);
    }
  }

  /** The query for the latest attempt counts the task's runs. */
  lemma {:induction false} LatestAttemptCounts(runs: seq<TaskRun>, id: TaskId)
    requires Numbered(runs)
    ensures MaxAttempt(runs, id) == CountRuns(runs, id)
  {
    if |runs| > 0 {
      var before := runs[..|runs| - 1];
      assert forall i :: 0 <= i < |before| ==> before[..i] == runs[..i];
      LatestAttemptCounts(before, id);
    }
  }

  // ---- preservation ----

  lemma ConnectedAppended(events: seq<TaskEvent>, e: TaskEvent)
    requires Connected(events)
    requires e.before == None ==> LastEvent(events, e.taskId) == None && e.after == Pending
    requires e.before.Some? ==> e.before.value == LoggedStatus(events, e.taskId)
    ensures Connected(events + [e])
  {
    var all := events + [e];
    forall i | 0 <= i < |all| ensures all[..i] == events[..i] {}
    assert events[..|events|] == events;
  }

  /** Rewriting a row is harmless while status and result stay. */
  lemma RowRewritten(db: Tables, id: TaskId, row: TaskRow)
    requires DbInv(db) && id in db.tasks
    requires row.status == db.tasks[id].status && row.result == db.tasks[id].result
    ensures DbInv(PutTask(db, id, row))
  {
    var r := PutTask(db, id, row);
    forall k | k in r.tasks ensures TaskInv(r, k) {
      assert TaskInv(db, k);
    }
  }

  lemma RowInserted(db: Tables, id: TaskId, row: TaskRow)
    requires DbInv(db) && id !in db.tasks
    requires row.status == Pending
    ensures DbInv(PutTask(db, id, row))
  {
    var r := PutTask(db, id, row);
    UnknownTaskHasNoLog(db, id);
    forall k | k in r.tasks ensures TaskInv(r, k) {
      if k != id { assert TaskInv(db, k); }
    }
  }

  /** A status change logged from the row's own status keeps everything. */
  lemma StatusLogged(db: Tables, id: TaskId, row: TaskRow, e: TaskEvent)
    requires DbInv(db) && id in db.tasks
    requires e.taskId == id && e.kind != ResultReportedEvent && e.after == row.status
    requires e.before == None ==> LastEvent(db.events, id) == None && e.after == Pending
    requires e.before.Some? ==> e.before.value == db.tasks[id].status
    requires row.status !in {Dispatching, Retrying}
    ensures DbInv(AddEvent(PutTask(db, id, row), e))
  {
    var r := AddEvent(PutTask(db, id, row), e);
    assert TaskInv(db, id);
    ConnectedAppended(db.events, e);
    forall k | k in r.tasks ensures TaskInv(r, k) {
      EventAppended(db.events, e, k);
      assert TaskInv(db, k);
    }
  }

  lemma CreateKeeps(db: Tables, id: TaskId, row: TaskRow)
    requires DbInv(db) && row.status == Pending && CreateTaskTx(db, id, row).Ok?
    ensures DbInv(CreateTaskTx(db, id, row).value)
  {
    RowInserted(db, id, row);
    UnknownTaskHasNoLog(db, id);
    var e := TaskEvent(id, CreatedEvent, None, Pending, row.createdBy);
    StatusLogged(PutTask(db, id, row), id, row, e);
    assert db.tasks[id := row][id := row] == db.tasks[id := row];
  }

  lemma CancelKeeps(db: Tables, id: TaskId)
    requires DbInv(db) && CancelTaskTx(db, id).Ok?
    ensures DbInv(CancelTaskTx(db, id).value)
  {
    var row := db.tasks[id];
    StatusLogged(db, id, row.(status := Cancelled),
        TaskEvent(id, StatusChangeEvent, Some(row.status), Cancelled, "user"));
  }

  lemma ClaimKeeps(db: Tables, id: TaskId, owner: string, now: Time, until: Time)
    requires DbInv(db)
    ensures DbInv(ClaimTx(db, id, owner, now, until))
  {
    if ClaimWins(db, id, now) {
      RowRewritten(db, id, ClaimedRow(db.tasks[id], owner, until));
    }
  }

  lemma ExpandKeeps(
    db: Tables, id: TaskId, parent: TaskId, kind: string, gateway: GatewayId, node: NodeId, payload: Payload,
    now: Time, until: Time)
    requires DbInv(db) && ExpandTx(db, id, parent, kind, gateway, node, payload, now, until).Ok?
    ensures DbInv(ExpandTx(db, id, parent, kind, gateway, node, payload, now, until).value)
  {
    var row := NewRow(Some(parent), Node, kind, Some(gateway), Some(node), payload,
                      DEFAULT_MAX_RETRIES, DEFAULT_TIMEOUT_SECONDS, "gateway:" + gateway, now);
    RowInserted(db, id, row);
    UnknownTaskHasNoLog(db, id);
    var e := TaskEvent(id, ExpandedEvent, None, Pending, "gateway:" + gateway);
    StatusLogged(PutTask(db, id, row), id, row, e);
    assert db.tasks[id := row][id := row] == db.tasks[id := row];
    RowRewritten(AddEvent(PutTask(db, id, row), e), id, ClaimedRow(row, gateway, until).(dispatch := Delivered));
  }

  /** The event says "from Pending"; that is true because no eligible row is ever Retrying. */
  lemma {:induction false} DeliverKeeps(db: Tables, answer: seq<TaskId>, node: NodeId, gateway: GatewayId)
    requires DbInv(db) && Distinct(answer)
    requires forall i :: 0 <= i < |answer| ==> answer[i] in db.tasks && Eligible(db.tasks[answer[i]], node, gateway)
    ensures DbInv(DeliverAll(db, answer, gateway))
  {
    if |answer| > 0 {
      var n := |answer| - 1;
      DeliverKeeps(db, answer[..n], node, gateway);
      PullExactly(db, answer[..n], gateway);
      var d := DeliverAll(db, answer[..n], gateway);
      assert answer[n] !in answer[..n];
      assert TaskInv(db, answer[n]);
      assert d.tasks[answer[n]] == db.tasks[answer[n]];
      StatusLogged(d, answer[n], DeliveredRow(d.tasks[answer[n]], gateway), DeliveryEvent(answer[n], gateway));
    }
  }

  lemma ReportKeeps(db: Tables, id: TaskId, node: NodeId, status: Status, errorMessage: string, result: string)
    requires DbInv(db) && status !in {Dispatching, Retrying}
    requires ReportTx(db, id, node, status, errorMessage, result).Ok?
    ensures DbInv(ReportTx(db, id, node, status, errorMessage, result).value)
  {
    var r := ReportTx(db, id, node, status, errorMessage, result).value;
    var run := r.runs[|db.runs|];
    var e := r.events[|db.events|];
    assert TaskInv(db, id);
    ConnectedAppended(db.events, e);
    LatestAttemptCounts(db.runs, id);
    forall i | 0 <= i < |r.runs| ensures r.runs[..i] == db.runs[..i] {}
    assert db.runs[..|db.runs|] == db.runs;
    assert Numbered(r.runs);
    forall k | k in r.tasks ensures TaskInv(r, k) {
      EventAppended(db.events, e, k);
      RunAppended(db.runs, run, k);
      assert TaskInv(db, k);
    }
  }

  lemma {:induction false} AddChildrenKeeps(
    db: Tables, parent: TaskId, ids: seq<TaskId>, nodes: seq<NodeId>, payload: Payload, now: Time)
    requires |ids| == |nodes| && DbInv(db)
    requires AddChildren(db, parent, ids, nodes, payload, now).Some?
    ensures DbInv(AddChildren(db, parent, ids, nodes, payload, now).value)
  {
    if |nodes| > 0 {
      var n := |nodes| - 1;
      AddChildrenKeeps(db, parent, ids[..n], nodes[..n], payload, now);
      RowInserted(AddChildren(db, parent, ids[..n], nodes[..n], payload, now).value, ids[n],
                  ChildRow(parent, nodes[n], payload, now));
    }
  }

  lemma FanOutKeeps(
    db: Tables, parent: TaskId, ids: seq<TaskId>, nodes: seq<NodeId>, up: Payload, down: Payload, now: Time)
    requires |ids| == |nodes| && DbInv(db)
    requires FanOutTx(db, parent, ids, nodes, up, down, now).Some?
    ensures DbInv(FanOutTx(db, parent, ids, nodes, up, down, now).value)
  {
    RowInserted(db, parent, ParentRow(up, now));
    AddChildrenKeeps(PutTask(db, parent, ParentRow(up, now)), parent, ids, nodes, down, now);
  }

  // ---- replay ----

  /** The newest event of the task is a reported result. */
  predicate ReportIsNewest(db: Tables, id: TaskId) {
    LastEvent(db.events, id).Some? && LastEvent(db.events, id).value.kind == ResultReportedEvent
  }

  /**
   Reporting the last accepted result once more writes its status and result again and adds a run,
   numbered next, and an event; it changes no row while that report is the task's newest event.
   */
  lemma ReplayOfLastRun(db: Tables, id: TaskId, node: NodeId)
    requires DbInv(db) && id in db.tasks && db.tasks[id].targetNode == Some(node)
    requires LastRun(db.runs, id).Some?
    ensures var last := LastRun(db.runs, id).value;
            var row := db.tasks[id];
            var attempt := CountRuns(db.runs, id) + 1;
            var next := TaskRun(id, node, attempt, last.status, true, last.errorMessage, last.result);
            var e := TaskEvent(id, ResultReportedEvent, Some(row.status), last.status, "agent:" + node);
            && ReportTx(db, id, node, last.status, last.errorMessage, last.result)
                 == Ok(Tables(db.tasks[id := row.(status := last.status, result := Some(last.result))],
                              db.runs + [next], db.events + [e]))
            && (ReportIsNewest(db, id) ==>
                  db.tasks[id := row.(status := last.status, result := Some(last.result))] == db.tasks)
  {
    assert TaskInv(db, id);
    LatestAttemptCounts(db.runs, id);
    var last := LastRun(db.runs, id).value;
    var row := db.tasks[id];
    if ReportIsNewest(db, id) {
      assert row.(status := last.status, result := Some(last.result)) == row;
      assert db.tasks[id := row] == db.tasks;
    }
  }

  /** The two guards of a cancel agree: it goes through exactly on rows that exist and have not ended for good. */
  lemma CancelSucceedsIff(db: Tables, id: TaskId)
    ensures CancelTaskTx(db, id).Ok? <==>
            id in db.tasks && db.tasks[id].status in {Pending, Dispatching, Running, Failed, Retrying}
    ensures id in db.tasks && !IsTerminal(db.tasks[id].status) ==> ValidateTransition(db.tasks[id].status, Cancelled)
  {
  }

  // ---- what every transaction leaves in place ----

  /** The row has left the statuses a pull selects. */
  predicate Dispatched(row: TaskRow) {
    row.status !in {Pending, Retrying}
  }

  predicate SameOrigin(a: TaskRow, b: TaskRow) {
    && a.parent == b.parent && a.scope == b.scope && a.kind == b.kind && a.targetNode == b.targetNode
    && a.targetGateway == b.targetGateway && a.payload == b.payload && a.createdBy == b.createdBy
    && a.timeoutSeconds == b.timeoutSeconds && a.maxRetries == b.maxRetries && a.createdAt == b.createdAt
  }

  /** Rows stay, keep their origin and never become pullable again; logs only grow. */
  ghost predicate Advances(a: Tables, b: Tables) {
    && (forall id :: id in a.tasks ==>
          id in b.tasks && SameOrigin(a.tasks[id], b.tasks[id])
              && (Dispatched(a.tasks[id]) ==> Dispatched(b.tasks[id])))
    && a.runs <= b.runs
    && a.events <= b.events
  }

  lemma CreateAdvances(db: Tables, id: TaskId, row: TaskRow)
    requires CreateTaskTx(db, id, row).Ok?
    ensures Advances(db, CreateTaskTx(db, id, row).value)
  {
  }

  lemma CancelAdvances(db: Tables, id: TaskId)
    requires CancelTaskTx(db, id).Ok?
    ensures Advances(db, CancelTaskTx(db, id).value)
  {
  }

  lemma ClaimAdvances(db: Tables, id: TaskId, owner: string, now: Time, until: Time)
    ensures Advances(db, ClaimTx(db, id, owner, now, until))
  {
  }

  lemma ExpandAdvances(
    db: Tables, id: TaskId, parent: TaskId, kind: string, gateway: GatewayId, node: NodeId, payload: Payload,
    now: Time, until: Time)
    requires ExpandTx(db, id, parent, kind, gateway, node, payload, now, until).Ok?
    ensures Advances(db, ExpandTx(db, id, parent, kind, gateway, node, payload, now, until).value)
  {
  }

  lemma ReportAdvances(db: Tables, id: TaskId, node: NodeId, status: Status, errorMessage: string, result: string)
    requires ReportTx(db, id, node, status, errorMessage, result).Ok? && status !in {Pending, Retrying}
    ensures Advances(db, ReportTx(db, id, node, status, errorMessage, result).value)
  {
  }

  lemma DeliverAdvances(db: Tables, answer: seq<TaskId>, gateway: GatewayId)
    requires Distinct(answer) && forall i :: 0 <= i < |answer| ==> answer[i] in db.tasks
    ensures Advances(db, DeliverAll(db, answer, gateway))
  {
    PullExactly(db, answer, gateway);
  }

  lemma FanOutAdvances(
    db: Tables, parent: TaskId, ids: seq<TaskId>, nodes: seq<NodeId>, up: Payload, down: Payload, now: Time)
    requires |ids| == |nodes| && FanOutTx(db, parent, ids, nodes, up, down, now).Some?
    ensures Advances(db, FanOutTx(db, parent, ids, nodes, up, down, now).value)
  {
    var d := PutTask(db, parent, ParentRow(up, now));
    AddChildrenExactly(d, parent, ids, nodes, down, now);
  }
}
