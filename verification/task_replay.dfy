/**
 Replaying a result, as an agent does after a crash when the acknowledgement was lost: in which reachable
 states the replay leaves the tables' rows alone.
 */
module TaskReplay {
  import opened Wrappers
  import opened TaskTables
  import opened TaskInvariants
  import opened TaskStore
  import Runner = TaskRunner
  import opened TaskProtocol

  predicate IsFinal(s: Status) {
    s in {Success, Failed, Cancelled, Timeout, PartiallySucceeded}
  }

  /** A reported task still shows its newest run, or a cancel has come after a report of Failed. */
  ghost predicate SettledTask(db: Tables, id: TaskId)
    requires id in db.tasks
  {
    var row := db.tasks[id];
    var run := LastRun(db.runs, id);
    run.Some? ==>
      && IsFinal(run.value.status)
      && row.targetNode == Some(run.value.nodeId)
      && if ReportIsNewest(db, id) then row.status == run.value.status && row.result == Some(run.value.result)
         else row.status == Cancelled && run.value.status == Failed
  }

  ghost predicate Settled(db: Tables) {
    && (forall i :: 0 <= i < |db.runs| ==> db.runs[i].taskId in db.tasks)
    && (forall id :: id in db.tasks ==> SettledTask(db, id))
  }

  lemma {:induction false} LastRunIsLogged(runs: seq<TaskRun>, id: TaskId)
    ensures LastRun(runs, id).Some? ==> exists i :: 0 <= i < |runs| && runs[i].taskId == id
  {
    if |runs| > 0 && runs[|runs| - 1].taskId != id {
      LastRunIsLogged(runs[..|runs| - 1], id);
    }
  }

  // ---- what each transaction keeps ----

  /** Nothing is reported, and no reported task is touched. */
  lemma ReportedUntouched(a: Tables, b: Tables)
    requires Settled(a) && b.runs == a.runs
    requires forall id :: id in a.tasks ==> id in b.tasks
    requires forall id :: id in a.tasks && LastRun(a.runs, id).Some? ==>
               && b.tasks[id].status == a.tasks[id].status && b.tasks[id].result == a.tasks[id].result
               && b.tasks[id].targetNode == a.tasks[id].targetNode
               && LastEvent(b.events, id) == LastEvent(a.events, id)
    ensures Settled(b)
  {
    forall id | id in b.tasks ensures SettledTask(b, id) {
      LastRunIsLogged(a.runs, id);
      if LastRun(a.runs, id).Some? {
        assert SettledTask(a, id);
      }
    }
  }

  /** A new key has no run, so its row and its event touch no reported task. */
  lemma InsertSettles(a: Tables, id: TaskId, row: TaskRow, e: TaskEvent)
    requires Settled(a) && id !in a.tasks && e.taskId == id
    ensures Settled(AddEvent(PutTask(a, id, row), e))
  {
    forall k ensures LastEvent(a.events + [e], k) == if k == id then Some(e) else LastEvent(a.events, k) {
      EventAppended(a.events, e, k);
    }
    ReportedUntouched(a, AddEvent(PutTask(a, id, row), e));
  }

  lemma FanOutSettles(
    a: Tables, parent: TaskId, ids: seq<TaskId>, nodes: seq<NodeId>, up: Payload, down: Payload, now: Time)
    requires |ids| == |nodes| && Settled(a) && FanOutTx(a, parent, ids, nodes, up, down, now).Some?
    ensures Settled(FanOutTx(a, parent, ids, nodes, up, down, now).value)
  {
    AddChildrenExactly(PutTask(a, parent, ParentRow(up, now)), parent, ids, nodes, down, now);
    ReportedUntouched(a, FanOutTx(a, parent, ids, nodes, up, down, now).value);
  }

  lemma ExpandSettles(a: Tables, push: PushRequest, share: Share, dur: int)
    requires Settled(a) && ShareTx(a, push, share, dur).Ok?
    ensures Settled(ShareTx(a, push, share, dur).value)
  {
    var b := ShareTx(a, push, share, dur).value;
    var e := ExpandedEventOf(push, share);
    assert b.events == a.events + [e];
    InsertSettles(a, share.id, b.tasks[share.id], e);
    assert b == AddEvent(PutTask(a, share.id, b.tasks[share.id]), e);
  }

  lemma {:induction false} NoEventElsewhere(db: Tables, answer: seq<TaskId>, gateway: GatewayId, id: TaskId)
    requires forall i :: 0 <= i < |answer| ==> answer[i] in db.tasks
    requires id !in answer
    ensures LastEvent(DeliverAll(db, answer, gateway).events, id) == LastEvent(db.events, id)
  {
    if |answer| > 0 {
      var n := |answer| - 1;
      NoEventElsewhere(db, answer[..n], gateway, id);
      EventAppended(DeliverAll(db, answer[..n], gateway).events, DeliveryEvent(answer[n], gateway), id);
    }
  }

  /** A reported task is never pulled: its status is final. */
  lemma DeliverSettles(a: Tables, answer: seq<TaskId>, node: NodeId, gateway: GatewayId)
    requires Settled(a) && Distinct(answer)
    requires forall i :: 0 <= i < |answer| ==> answer[i] in a.tasks && Eligible(a.tasks[answer[i]], node, gateway)
    ensures Settled(DeliverAll(a, answer, gateway))
  {
    var b := DeliverAll(a, answer, gateway);
    PullExactly(a, answer, gateway);
    forall id | id in a.tasks && LastRun(a.runs, id).Some?
      ensures b.tasks[id] == a.tasks[id] && LastEvent(b.events, id) == LastEvent(a.events, id)
    {
      assert SettledTask(a, id);
      assert id !in answer;
      NoEventElsewhere(a, answer, gateway, id);
    }
    ReportedUntouched(a, b);
  }

  lemma CancelSettles(a: Tables, id: TaskId)
    requires Settled(a) && CancelTaskTx(a, id).Ok?
    ensures Settled(CancelTaskTx(a, id).value)
  {
    var b := CancelTaskTx(a, id).value;
    forall k | k in b.tasks ensures SettledTask(b, k) {
      EventAppended(a.events, b.events[|a.events|], k);
      assert SettledTask(a, k);
    }
  }

  lemma ReportSettles(a: Tables, id: TaskId, node: NodeId, status: Status, errorMessage: string, result: string)
    requires Settled(a) && IsFinal(status) && ReportTx(a, id, node, status, errorMessage, result).Ok?
    ensures Settled(ReportTx(a, id, node, status, errorMessage, result).value)
  {
    var b := ReportTx(a, id, node, status, errorMessage, result).value;
    forall k | k in b.tasks ensures SettledTask(b, k) {
      EventAppended(a.events, b.events[|a.events|], k);
      RunAppended(a.runs, b.runs[|a.runs|], k);
      assert SettledTask(a, k);
    }
  }

  lemma ReportedSettles(a: Tables, id: TaskId, node: NodeId, raw: string, errorMessage: string, result: string)
    requires Settled(a) && Reported(a, id, node, raw, errorMessage, result).Ok?
    ensures Settled(Reported(a, id, node, raw, errorMessage, result).value)
  {
    ReportsNeverReopen(raw);
    ReportSettles(a, id, node, NormalizeReportedStatus(raw).value, errorMessage, result);
  }

  lemma PendingSettles(a: Tables, b: Tables)
    requires Settled(a) && exists pr :: ReportedPending(a, pr) == Ok(b)
    ensures Settled(b)
  {
    var pr :| ReportedPending(a, pr) == Ok(b);
    ReportedSettles(a, pr.taskId, pr.nodeId, pr.status, pr.errorMessage, pr.result);
  }

  lemma CommitSettles(w: World, s: Step, b: Tables)
    requires Settled(w.db) && Commits(w, s, b)
    ensures Settled(b)
  {
    match s
    case Create(req, id) =>
      var row := RequestedRow(req, w.clock);
      InsertSettles(w.db, id, row, TaskEvent(id, CreatedEvent, None, Pending, row.createdBy));
    case FanOut(parent, ids, nodes, up, down) => FanOutSettles(w.db, parent, ids, nodes, up, down, w.clock);
    case Expand(push, share, dur) => ExpandSettles(w.db, push, share, dur);
    case Claim(id, owner, dur, now, wall) => ReportedUntouched(w.db, b);
    case Pull(gateway, node, maxTasks, locked, answer, arrives) => DeliverSettles(w.db, answer, node, gateway);
    case ReportResult(id, node, raw, errorMessage, result) =>
        ReportedSettles(w.db, id, node, raw, errorMessage, result);
    case Cancel(id) => CancelSettles(w.db, id);
    case JobReport(_, _, _, _) => PendingSettles(w.db, b);
    case DrainAttempt(_, _, _, _) => PendingSettles(w.db, b);
  }

  lemma {:induction false} SettledAlways(w: World, steps: seq<Step>)
    requires Init(w)
    ensures Settled(Run(w, steps).db)
  {
    if |steps| > 0 {
      var before := Run(w, steps[..|steps| - 1]);
      var s := steps[|steps| - 1];
      SettledAlways(w, steps[..|steps| - 1]);
      OneTransaction(before, s);
      if Do(before, s).db != before.db {
        CommitSettles(before, s, Do(before, s).db);
      }
    }
  }

  // ---- the theorem ----

  /**
   In every reachable state, an agent that reports a task's last accepted result again is accepted, and the
   rows stay as they are if and only if that report is still the task's newest event. It is not exactly when
   a report of Failed was followed by a cancel, and then the replay turns the row back to Failed.
   */
  lemma ReplayIsIdempotentIff(w: World, steps: seq<Step>, pr: Runner.PendingResult)
    requires Init(w) && pr.taskId != "" && pr.nodeId != ""
    requires var run := LastRun(Run(w, steps).db.runs, pr.taskId); run.Some? && IsRunOf(run.value, pr)
    ensures var db := Run(w, steps).db;
            var r := ReportedPending(db, pr);
            && pr.taskId in db.tasks && r.Ok?
            && (r.value.tasks == db.tasks <==> ReportIsNewest(db, pr.taskId))
            && (ReportIsNewest(db, pr.taskId) <==>
                  !(db.tasks[pr.taskId].status == Cancelled && NormalizeReportedStatus(pr.status) == Some(Failed)))
            && Some(r.value.tasks[pr.taskId].status) == NormalizeReportedStatus(pr.status)
            && |r.value.runs| == |db.runs| + 1 && |r.value.events| == |db.events| + 1
  {
    var db := Run(w, steps).db;
    InvAlways(w, steps);
    SettledAlways(w, steps);
    LastRunIsLogged(db.runs, pr.taskId);
    assert SettledTask(db, pr.taskId);
    ReplayOfLastRun(db, pr.taskId, pr.nodeId);
    if !ReportIsNewest(db, pr.taskId) {
      assert ReportedPending(db, pr).value.tasks[pr.taskId].status == Failed;
    }
  }

  // ---- the input on which it fails ----

  /** In any tables: a report of Failed, a cancel and the report again leave the task Failed, and the cancel undone. */
  lemma ReplayUndoesCancel(db: Tables, id: TaskId, node: NodeId, errorMessage: string, result: string)
    requires id in db.tasks && db.tasks[id].targetNode == Some(node)
    ensures var first := ReportTx(db, id, node, Failed, errorMessage, result);
            && first.Ok? && CancelTaskTx(first.value, id).Ok?
            && var cancelled := CancelTaskTx(first.value, id).value;
               var again := ReportTx(cancelled, id, node, Failed, errorMessage, result);
               && cancelled.tasks[id].status == Cancelled && !ReportIsNewest(cancelled, id)
               && LastRun(cancelled.runs, id) == Some(first.value.runs[|db.runs|])
               && again.Ok? && again.value.tasks[id].status == Failed
  {
    var first := ReportTx(db, id, node, Failed, errorMessage, result).value;
    var cancelled := CancelTaskTx(first, id).value;
    EventAppended(first.events, cancelled.events[|first.events|], id);
    RunAppended(db.runs, first.runs[|db.runs|], id);
  }

  lemma RunOne(w: World, steps: seq<Step>, s: Step)
    ensures Run(w, steps + [s]) == Do(Run(w, steps), s)
  {
    assert (steps + [s])[..|steps|] == steps;
  }

  /** So from every state with such a task, the protocol has a run in which the agent's replay undoes a cancel. */
  lemma CancelIsUndone(w: World, id: TaskId, node: NodeId)
    requires id != "" && node != "" && id in w.db.tasks && w.db.tasks[id].targetNode == Some(node)
    ensures var report := ReportResult(id, node, "Failed", "", "{}");
            var cancelled := [report] + [Cancel(id)];
            && id in Run(w, cancelled).db.tasks && Run(w, cancelled).db.tasks[id].status == Cancelled
            && id in Run(w, cancelled + [report]).db.tasks && Run(w, cancelled + [report]).db.tasks[id].status == Failed
  {
    var report := ReportResult(id, node, "Failed", "", "{}");
    AgentWordsNormalize("", "Failed", "");
    assert "" + "Failed" + "" == "Failed";
    ReplayUndoesCancel(w.db, id, node, "", "{}");
    assert [] + [report] == [report];
    RunOne(w, [], report);
    RunOne(w, [report], Cancel(id));
    RunOne(w, [report] + [Cancel(id)], report);
  }
}
