/**
 The task dispatch protocol as a whole: any number of gateways, control-plane calls and agents
 with their crashes, interleaved at the granularity of one transaction, one file operation or one
 marking of the dedup set. A transaction that fails is rolled back and so is no step at all; a
 reply that is lost is a step whose answer does not arrive.
 */
module TaskProtocol {
  import opened Wrappers
  import opened TaskTables
  import opened TaskInvariants
  import opened TaskStore
  import opened TaskRunner

  /** A task given out by a pull, or started by an agent. */
  datatype Handout = Handout(taskId: TaskId, nodeId: NodeId)

  /** A won claim with its window. */
  datatype Lease = Lease(taskId: TaskId, owner: string, from: Time, until: Time)

  /** The agents, with the history of what was given out, started and saved. */
  datatype Fleet = Fleet(
    agents: map<NodeId, Agent>, handouts: seq<Handout>, executions: seq<Handout>, saved: map<TaskId, PendingResult>)

  datatype World = World(db: Tables, clock: Time, leases: seq<Lease>, fleet: Fleet)

  datatype Step =
    | Create(req: CreateRequest, id: TaskId)
    | FanOut(parent: TaskId, ids: seq<TaskId>, nodes: seq<NodeId>, up: Payload, down: Payload)
    | Expand(push: PushRequest, share: Share, claimDuration: int)
    | Claim(id: TaskId, owner: string, claimDuration: int, now: Time, wall: Time)
    | Pull(gateway: GatewayId, node: NodeId, maxTasks: int, locked: set<TaskId>, answer: seq<TaskId>, arrives: bool)
    | ReportResult(id: TaskId, node: NodeId, rawStatus: string, errorMessage: string, result: string)
    | Cancel(id: TaskId)
    | Tick(now: Time)
    | Local(node: NodeId, step: AgentStep)
    | JobReport(node: NodeId, job: nat, reaches: bool, replied: bool)
    | DrainAttempt(node: NodeId, readable: bool, reaches: bool, replied: bool)

  function Handouts(answer: seq<TaskId>, node: NodeId): seq<Handout> {
    seq(|answer|, i requires 0 <= i < |answer| => Handout(answer[i], node))
  }

  /** A reported result as the gateway handles it; an error of any kind leaves the tables alone. */
  function Reported(
    db: Tables, id: TaskId, node: NodeId, raw: string, errorMessage: string, result: string): Result<Tables, Failure>
  {
    var status := NormalizeReportedStatus(raw);
    if id == "" || node == "" || status == None then Err(InvalidArgument)
    else ReportTx(db, id, node, status.value, errorMessage, result)
  }

  function ReportedPending(db: Tables, pr: PendingResult): Result<Tables, Failure> {
    Reported(db, pr.taskId, pr.nodeId, pr.status, pr.errorMessage, pr.result)
  }

  function AfterPending(db: Tables, pr: PendingResult, reaches: bool): Tables {
    if reaches && ReportedPending(db, pr).Ok? then ReportedPending(db, pr).value else db
  }

  predicate Acked(db: Tables, pr: PendingResult, reaches: bool, replied: bool) {
    reaches && replied && ReportedPending(db, pr).Ok?
  }

  /** Steps of an agent that involve no call; a pull's answer arrives with the pull. */
  predicate IsLocal(s: AgentStep) {
    !s.Receive? && !s.Report? && !s.DrainReport?
  }

  ghost function Moved(f: Fleet, n: NodeId, s: AgentStep): Fleet
    requires n in f.agents
  {
    f.(agents := f.agents[n := Next(f.agents[n], s)])
  }

  predicate StartsTask(a: Agent) {
    a.mode == Polling && |a.inbox| > 0 && a.inbox[0].taskId !in a.processed
  }

  predicate WritesResult(a: Agent, s: AgentStep) {
    s.Save? && s.outcome == Written && HasJob(a, s.job) && a.jobs[s.job].phase.Executed?
  }

  ghost function LocalStep(f: Fleet, n: NodeId, s: AgentStep): Fleet
    requires n in f.agents && IsLocal(s)
  {
    var a := f.agents[n];
    if s.Accept? && StartsTask(a) then
      Moved(f, n, s).(executions := f.executions + [Handout(a.inbox[0].taskId, n)])
    else if WritesResult(a, s) then
      var pr := a.jobs[s.job].phase.pr;
      Moved(f, n, s).(saved := f.saved[pr.taskId := pr])
    else Moved(f, n, s)
  }

  ghost function PulledFleet(db: Tables, f: Fleet, node: NodeId, answer: seq<TaskId>, arrives: bool): Fleet
    requires forall i :: 0 <= i < |answer| ==> answer[i] in db.tasks
  {
    var handed := f.(handouts := f.handouts + Handouts(answer, node));
    if arrives && node in f.agents then Moved(handed, node, Receive(NodeTasks(db.tasks, answer))) else handed
  }

  /** One step of the whole system; a step that is not enabled changes nothing. */
  ghost function Do(w: World, s: Step): World {
    match s
    case Create(req, id) =>
      if req.kind != "" && req.scope.Some? && CreateTaskTx(w.db, id, RequestedRow(req, w.clock)).Ok? then
        w.(db := CreateTaskTx(w.db, id, RequestedRow(req, w.clock)).value)
      else w
    case FanOut(parent, ids, nodes, up, down) =>
      if |ids| == |nodes| && FanOutTx(w.db, parent, ids, nodes, up, down, w.clock).Some? then
        w.(db := FanOutTx(w.db, parent, ids, nodes, up, down, w.clock).value)
      else w
    case Expand(push, share, dur) =>
      if w.clock <= share.now <= share.wall && ShareTx(w.db, push, share, dur).Ok? then
        w.(db := ShareTx(w.db, push, share, dur).value, clock := share.wall,
           leases := w.leases + [Lease(share.id, push.gateway, share.now, share.wall + dur)])
      else w
    case Claim(id, owner, dur, now, wall) =>
      if w.clock <= now <= wall && ClaimWins(w.db, id, now) then
        w.(db := ClaimTx(w.db, id, owner, now, wall + dur), clock := wall,
           leases := w.leases + [Lease(id, owner, now, wall + dur)])
      else w
    case Pull(gateway, node, maxTasks, locked, answer, arrives) =>
      if node != "" && IsPullAnswer(w.db.tasks, answer, node, gateway, locked, PullLimit(maxTasks)) then
        w.(db := DeliverAll(w.db, answer, gateway), fleet := PulledFleet(w.db, w.fleet, node, answer, arrives))
      else w
    case ReportResult(id, node, raw, errorMessage, result) =>
      if Reported(w.db, id, node, raw, errorMessage, result).Ok? then
        w.(db := Reported(w.db, id, node, raw, errorMessage, result).value)
      else w
    case Cancel(id) => if CancelTaskTx(w.db, id).Ok? then w.(db := CancelTaskTx(w.db, id).value) else w
    case Tick(now) => if w.clock <= now then w.(clock := now) else w
    case Local(n, step) =>
      if n in w.fleet.agents && IsLocal(step) then w.(fleet := LocalStep(w.fleet, n, step)) else w
    case JobReport(n, j, reaches, replied) =>
      if n in w.fleet.agents && HasJob(w.fleet.agents[n], j) && w.fleet.agents[n].jobs[j].phase.Saved? then
        var pr := w.fleet.agents[n].jobs[j].phase.pr;
        w.(db := AfterPending(w.db, pr, reaches),
           fleet := Moved(w.fleet, n, Report(j, Acked(w.db, pr, reaches, replied))))
      else w
    case DrainAttempt(n, readable, reaches, replied) =>
      if n !in w.fleet.agents then w
      else if readable && DrainHead(w.fleet.agents[n]).Some? then
        var pr := DrainHead(w.fleet.agents[n]).value;
        w.(db := AfterPending(w.db, pr, reaches),
           fleet := Moved(w.fleet, n, DrainReport(true, Acked(w.db, pr, reaches, replied))))
      else w.(fleet := Moved(w.fleet, n, DrainReport(false, false)))
  }

  ghost function Run(w: World, steps: seq<Step>): World {
    if |steps| == 0 then w else Do(Run(w, steps[..|steps| - 1]), steps[|steps| - 1])
  }

  /** Empty tables, and agents that have never run. */
  ghost predicate Init(w: World) {
    && w.db == EMPTY && w.leases == []
    && w.fleet == Fleet(w.fleet.agents, [], [], map[])
    && forall n :: n in w.fleet.agents ==> w.fleet.agents[n] == Agent(n, Down, {}, [], [], map[])
  }

  // ---- the invariant ----

  function LastLease(leases: seq<Lease>, id: TaskId): Option<Lease> {
    if |leases| == 0 then None
    else if leases[|leases| - 1].taskId == id then Some(leases[|leases| - 1])
    else LastLease(leases[..|leases| - 1], id)
  }

  /** The row's owner and expiry are those of its last lease; a row never leased has no expiry. */
  ghost predicate RowMatchesLease(row: TaskRow, lease: Option<Lease>) {
    match lease
    case None => row.claimExpireAt == None
    case Some(l) => row.claimExpireAt == Some(l.until) && row.owner == Some(l.owner) && row.dispatch != Unclaimed
  }

  ghost predicate LeaseInv(db: Tables, clock: Time, leases: seq<Lease>) {
    && (forall i :: 0 <= i < |leases| ==> leases[i].taskId in db.tasks && leases[i].from <= clock)
    && (forall i, j :: 0 <= i < j < |leases| && leases[i].taskId == leases[j].taskId ==>
        leases[i].until < leases[j].from)
    && (forall id :: id in db.tasks ==> RowMatchesLease(db.tasks[id], LastLease(leases, id)))
  }

  /**
   Handouts are unique per task and their rows are past pulling; a task is started at most once, by whoever got
   it.
   */
  ghost predicate HandoutInv(db: Tables, f: Fleet) {
    && (forall i, j :: 0 <= i < j < |f.handouts| ==> f.handouts[i].taskId != f.handouts[j].taskId)
    && (forall h :: h in f.handouts ==>
          h.taskId in db.tasks && Dispatched(db.tasks[h.taskId]) && db.tasks[h.taskId].targetNode == Some(h.nodeId))
    && Distinct(f.executions)
    && (forall e :: e in f.executions ==> e in f.handouts)
  }

  predicate IsRunOf(run: TaskRun, pr: PendingResult) {
    && run.taskId == pr.taskId && run.nodeId == pr.nodeId && run.finished
    && Some(run.status) == NormalizeReportedStatus(pr.status)
    && run.errorMessage == pr.errorMessage && run.result == pr.result
  }

  /** A finished run with exactly this result is committed. */
  ghost predicate IsCommitted(db: Tables, pr: PendingResult) {
    exists i :: 0 <= i < |db.runs| && IsRunOf(db.runs[i], pr)
  }

  predicate ResultOf(pr: PendingResult, t: TaskId, n: NodeId) {
    pr.taskId == t && pr.nodeId == n
  }

  ghost predicate JobInv(db: Tables, saved: map<TaskId, PendingResult>, files: map<TaskId, File>, job: Job, n: NodeId) {
    var t := job.taskId;
    match job.phase
    case Executing => t !in saved && t !in files
    case Executed(pr) => ResultOf(pr, t, n) && t !in saved && t !in files
    case Saved(pr) => ResultOf(pr, t, n) && (t in saved ==> saved[t] == pr)
    case Acknowledged(pr) => ResultOf(pr, t, n) && (t in saved ==> saved[t] == pr) && IsCommitted(db, pr)
    case Finished => true
  }

  /** The inbox is handed out, not started, and free of repetitions. */
  ghost predicate InboxInv(f: Fleet, a: Agent, n: NodeId) {
    && (forall i :: 0 <= i < |a.inbox| ==>
          Handout(a.inbox[i].taskId, n) in f.handouts && Handout(a.inbox[i].taskId, n) !in f.executions)
    && (forall i, j :: 0 <= i < j < |a.inbox| ==> a.inbox[i].taskId != a.inbox[j].taskId)
  }

  ghost predicate JobsInv(db: Tables, f: Fleet, a: Agent, n: NodeId) {
    forall j :: 0 <= j < |a.jobs| ==>
      Handout(a.jobs[j].taskId, n) in f.executions && JobInv(db, f.saved, a.files, a.jobs[j], n)
  }

  ghost predicate FilesInv(db: Tables, f: Fleet, a: Agent, n: NodeId) {
    && (forall t :: t in a.files ==> Handout(t, n) in f.executions)
    && (forall t :: t in a.files && a.files[t].Readable? ==>
          t in f.saved && f.saved[t] == a.files[t].pr && ResultOf(f.saved[t], t, n))
    && (a.mode.Draining? && a.mode.acked.Some? ==>
          IsCommitted(db, a.mode.acked.value)
          && a.mode.acked.value.taskId in f.saved && f.saved[a.mode.acked.value.taskId] == a.mode.acked.value)
  }

  ghost predicate AgentInv(db: Tables, f: Fleet, a: Agent, n: NodeId) {
    && a.nodeId == n && Deduplicated(a) && NamedByTask(a)
    && InboxInv(f, a, n) && JobsInv(db, f, a, n) && FilesInv(db, f, a, n)
  }

  /** The saved result of a started task is committed, or its file is still there. */
  ghost predicate ResultKept(db: Tables, f: Fleet, t: TaskId)
    requires t in f.saved
  {
    var pr := f.saved[t];
    && pr.taskId == t && pr.nodeId in f.agents && Handout(t, pr.nodeId) in f.executions
    && (IsCommitted(db, pr) || (t in f.agents[pr.nodeId].files && f.agents[pr.nodeId].files[t] == Readable(pr)))
  }

  ghost predicate FleetInv(db: Tables, f: Fleet) {
    && HandoutInv(db, f)
    && (forall n :: n in f.agents ==> AgentInv(db, f, f.agents[n], n))
    && (forall t :: t in f.saved ==> ResultKept(db, f, t))
  }

  ghost predicate Inv(w: World) {
    DbInv(w.db) && LeaseInv(w.db, w.clock, w.leases) && FleetInv(w.db, w.fleet)
  }

  // ---- the tables ----

  lemma ReportedKeeps(db: Tables, id: TaskId, node: NodeId, raw: string, errorMessage: string, result: string)
    requires DbInv(db) && Reported(db, id, node, raw, errorMessage, result).Ok?
    ensures DbInv(Reported(db, id, node, raw, errorMessage, result).value)
  {
    ReportsNeverReopen(raw);
    ReportKeeps(db, id, node, NormalizeReportedStatus(raw).value, errorMessage, result);
  }

  /** The one transaction of the step takes the tables to `b`. */
  ghost predicate Commits(w: World, s: Step, b: Tables) {
    match s
    case Create(req, id) => req.scope.Some? && CreateTaskTx(w.db, id, RequestedRow(req, w.clock)) == Ok(b)
    case FanOut(parent, ids, nodes, up, down) =>
      |ids| == |nodes| && FanOutTx(w.db, parent, ids, nodes, up, down, w.clock) == Some(b)
    case Expand(push, share, dur) => ShareTx(w.db, push, share, dur) == Ok(b)
    case Claim(id, owner, dur, now, wall) => ClaimTx(w.db, id, owner, now, wall + dur) == b
    case Pull(gateway, node, maxTasks, locked, answer, arrives) =>
      IsPullAnswer(w.db.tasks, answer, node, gateway, locked, PullLimit(maxTasks))
          && DeliverAll(w.db, answer, gateway) == b
    case ReportResult(id, node, raw, errorMessage, result) =>
        Reported(w.db, id, node, raw, errorMessage, result) == Ok(b)
    case Cancel(id) => CancelTaskTx(w.db, id) == Ok(b)
    case _ => (s.JobReport? || s.DrainAttempt?) && exists pr :: ReportedPending(w.db, pr) == Ok(b)
  }

  lemma OneTransaction(w: World, s: Step)
    ensures Do(w, s).db == w.db || Commits(w, s, Do(w, s).db)
  {
  }

  lemma CommitKeeps(w: World, s: Step, b: Tables)
    requires DbInv(w.db) && Commits(w, s, b)
    ensures DbInv(b)
  {
    if s.Create? || s.FanOut? || s.Expand? {
      InsertKeeps(w, s, b);
    } else {
      match s
      case Claim(id, owner, dur, now, wall) => ClaimKeeps(w.db, id, owner, now, wall + dur);
      case Pull(gateway, node, maxTasks, locked, answer, arrives) => DeliverKeeps(w.db, answer, node, gateway);
      case ReportResult(id, node, raw, errorMessage, result) =>
          ReportedKeeps(w.db, id, node, raw, errorMessage, result);
      case Cancel(id) => CancelKeeps(w.db, id);
      case JobReport(_, _, _, _) => PendingCommits(w.db, b);
      case DrainAttempt(_, _, _, _) => PendingCommits(w.db, b);
    }
  }

  lemma InsertKeeps(w: World, s: Step, b: Tables)
    requires DbInv(w.db) && Commits(w, s, b) && (s.Create? || s.FanOut? || s.Expand?)
    ensures DbInv(b)
  {
    match s
    case Create(req, id) => CreateKeeps(w.db, id, RequestedRow(req, w.clock));
    case FanOut(parent, ids, nodes, up, down) => FanOutKeeps(w.db, parent, ids, nodes, up, down, w.clock);
    case Expand(push, share, dur) => ShareKeeps(w.db, push, share, dur);
  }

  lemma ShareKeeps(db: Tables, push: PushRequest, share: Share, dur: int)
    requires DbInv(db) && ShareTx(db, push, share, dur).Ok?
    ensures DbInv(ShareTx(db, push, share, dur).value)
  {
    ExpandKeeps(db, share.id, push.taskId, push.kind, push.gateway, share.node, push.payload,
                share.now, share.wall + dur);
  }

  lemma PendingCommits(db: Tables, b: Tables)
    requires exists pr :: ReportedPending(db, pr) == Ok(b)
    ensures DbInv(db) ==> DbInv(b)
    ensures Advances(db, b)
  {
    var pr :| ReportedPending(db, pr) == Ok(b);
    if DbInv(db) {
      ReportedKeeps(db, pr.taskId, pr.nodeId, pr.status, pr.errorMessage, pr.result);
    }
    ReportedAdvances(db, pr.taskId, pr.nodeId, pr.status, pr.errorMessage, pr.result);
  }

  lemma TablesKept(w: World, s: Step)
    requires DbInv(w.db)
    ensures DbInv(Do(w, s).db)
  {
    OneTransaction(w, s);
    if Do(w, s).db != w.db {
      CommitKeeps(w, s, Do(w, s).db);
    }
  }

  lemma ReportedAdvances(db: Tables, id: TaskId, node: NodeId, raw: string, errorMessage: string, result: string)
    requires Reported(db, id, node, raw, errorMessage, result).Ok?
    ensures Advances(db, Reported(db, id, node, raw, errorMessage, result).value)
  {
    ReportsNeverReopen(raw);
    ReportAdvances(db, id, node, NormalizeReportedStatus(raw).value, errorMessage, result);
  }

  lemma CommitAdvances(w: World, s: Step, b: Tables)
    requires Commits(w, s, b)
    ensures Advances(w.db, b)
  {
    match s
    case Create(req, id) => CreateAdvances(w.db, id, RequestedRow(req, w.clock));
    case FanOut(parent, ids, nodes, up, down) => FanOutAdvances(w.db, parent, ids, nodes, up, down, w.clock);
    case Expand(push, share, dur) =>
      ExpandAdvances(w.db, share.id, push.taskId, push.kind, push.gateway, share.node, push.payload,
                     share.now, share.wall + dur);
    case Claim(id, owner, dur, now, wall) => ClaimAdvances(w.db, id, owner, now, wall + dur);
    case Pull(gateway, node, maxTasks, locked, answer, arrives) => DeliverAdvances(w.db, answer, gateway);
    case ReportResult(id, node, raw, errorMessage, result) =>
        ReportedAdvances(w.db, id, node, raw, errorMessage, result);
    case Cancel(id) => CancelAdvances(w.db, id);
    case JobReport(_, _, _, _) => PendingCommits(w.db, b);
    case DrainAttempt(_, _, _, _) => PendingCommits(w.db, b);
  }

  /** Whatever the step, rows keep their origin, never become pullable again, and logs only grow. */
  lemma TablesAdvance(w: World, s: Step)
    ensures Advances(w.db, Do(w, s).db)
  {
    OneTransaction(w, s);
    if Do(w, s).db != w.db {
      CommitAdvances(w, s, Do(w, s).db);
    }
  }

  // ---- leases ----

  lemma {:induction false} LastLeaseIsLast(leases: seq<Lease>, id: TaskId)
    ensures LastLease(leases, id) == None ==> forall i :: 0 <= i < |leases| ==> leases[i].taskId != id
    ensures LastLease(leases, id).Some? ==>
              exists k :: 0 <= k < |leases| && leases[k] == LastLease(leases, id).value && leases[k].taskId == id
                          && forall i :: k < i < |leases| ==> leases[i].taskId != id
  {
    if |leases| > 0 && leases[|leases| - 1].taskId != id {
      LastLeaseIsLast(leases[..|leases| - 1], id);
    }
  }

  /** A claim that wins starts after the end of every earlier lease of its row. */
  lemma WinnerComesAfter(w: World, id: TaskId, now: Time)
    requires LeaseInv(w.db, w.clock, w.leases) && ClaimWins(w.db, id, now) && w.clock <= now
    ensures forall i :: 0 <= i < |w.leases| && w.leases[i].taskId == id ==> w.leases[i].until < now
  {
    LastLeaseIsLast(w.leases, id);
    assert RowMatchesLease(w.db.tasks[id], LastLease(w.leases, id));
  }

  lemma LeaseGranted(w: World, v: World, l: Lease)
    requires LeaseInv(w.db, w.clock, w.leases)
    requires v.leases == w.leases + [l] && w.clock <= l.from <= v.clock
    requires forall i :: 0 <= i < |w.leases| && w.leases[i].taskId == l.taskId ==> w.leases[i].until < l.from
    requires l.taskId in v.db.tasks && RowMatchesLease(v.db.tasks[l.taskId], Some(l))
    requires forall id :: id in w.db.tasks ==> id in v.db.tasks
    requires forall id :: id in v.db.tasks && id != l.taskId ==> id in w.db.tasks && v.db.tasks[id] == w.db.tasks[id]
    ensures LeaseInv(v.db, v.clock, v.leases)
  {
    assert v.leases[..|w.leases|] == w.leases;
    forall id | id in v.db.tasks ensures RowMatchesLease(v.db.tasks[id], LastLease(v.leases, id)) {
      if id != l.taskId {
        assert RowMatchesLease(w.db.tasks[id], LastLease(w.leases, id));
      }
    }
  }

  /** No claim is involved: old rows keep claim fields or get a first owner, new rows were never leased. */
  ghost predicate ClaimFieldsKept(a: Tables, b: Tables) {
    && (forall id :: id in a.tasks ==>
          id in b.tasks && b.tasks[id].claimExpireAt == a.tasks[id].claimExpireAt
          && (a.tasks[id].owner.Some? ==> b.tasks[id].owner == a.tasks[id].owner)
          && (a.tasks[id].dispatch != Unclaimed ==> b.tasks[id].dispatch != Unclaimed))
    && (forall id :: id in b.tasks && id !in a.tasks ==> b.tasks[id].claimExpireAt == None)
  }

  lemma LeasesUntouched(w: World, v: World)
    requires LeaseInv(w.db, w.clock, w.leases) && v.leases == w.leases && w.clock <= v.clock
    requires ClaimFieldsKept(w.db, v.db)
    ensures LeaseInv(v.db, v.clock, v.leases)
  {
    forall id | id in v.db.tasks ensures RowMatchesLease(v.db.tasks[id], LastLease(v.leases, id)) {
      if id in w.db.tasks {
        assert RowMatchesLease(w.db.tasks[id], LastLease(w.leases, id));
      } else {
        LastLeaseIsLast(w.leases, id);
      }
    }
  }

  lemma FanOutClaimFields(
    db: Tables, parent: TaskId, ids: seq<TaskId>, nodes: seq<NodeId>, up: Payload, down: Payload, now: Time)
    requires |ids| == |nodes| && FanOutTx(db, parent, ids, nodes, up, down, now).Some?
    ensures ClaimFieldsKept(db, FanOutTx(db, parent, ids, nodes, up, down, now).value)
  {
    var r := FanOutTx(db, parent, ids, nodes, up, down, now).value;
    AddChildrenExactly(PutTask(db, parent, ParentRow(up, now)), parent, ids, nodes, down, now);
    forall id | id in r.tasks && id !in db.tasks ensures r.tasks[id].claimExpireAt == None {
      if id != parent {
        assert id in ids;
        var i :| 0 <= i < |ids| && ids[i] == id;
        assert r.tasks[ids[i]] == ChildRow(parent, nodes[i], down, now);
      }
    }
  }

  lemma CommitKeepsClaimFields(w: World, s: Step, b: Tables)
    requires Commits(w, s, b) && !s.Claim? && !s.Expand?
    ensures ClaimFieldsKept(w.db, b)
  {
    if s.FanOut? {
      FanOutClaimFields(w.db, s.parent, s.ids, s.nodes, s.up, s.down, w.clock);
    } else if s.Pull? {
      PullExactly(w.db, s.answer, s.gateway);
    }
  }

  lemma ClaimFieldsStay(w: World, s: Step)
    requires !s.Claim? && !s.Expand?
    ensures ClaimFieldsKept(w.db, Do(w, s).db)
  {
    OneTransaction(w, s);
    if Do(w, s).db != w.db {
      CommitKeepsClaimFields(w, s, Do(w, s).db);
    }
  }

  lemma LeasesKept(w: World, s: Step)
    requires LeaseInv(w.db, w.clock, w.leases)
    ensures LeaseInv(Do(w, s).db, Do(w, s).clock, Do(w, s).leases)
  {
    if s.Claim? {
      ClaimLeases(w, s);
    } else if s.Expand? {
      ShareLeases(w, s);
    } else {
      ClaimFieldsStay(w, s);
      LeasesUntouched(w, Do(w, s));
    }
  }

  lemma ClaimLeases(w: World, s: Step)
    requires LeaseInv(w.db, w.clock, w.leases) && s.Claim?
    ensures LeaseInv(Do(w, s).db, Do(w, s).clock, Do(w, s).leases)
  {
    var v := Do(w, s);
    if w.clock <= s.now <= s.wall && ClaimWins(w.db, s.id, s.now) {
      WinnerComesAfter(w, s.id, s.now);
      LeaseGranted(w, v, Lease(s.id, s.owner, s.now, s.wall + s.claimDuration));
    }
  }

  lemma ShareLeases(w: World, s: Step)
    requires LeaseInv(w.db, w.clock, w.leases) && s.Expand?
    ensures LeaseInv(Do(w, s).db, Do(w, s).clock, Do(w, s).leases)
  {
    var v := Do(w, s);
    if w.clock <= s.share.now <= s.share.wall && ShareTx(w.db, s.push, s.share, s.claimDuration).Ok? {
      LeaseGranted(w, v, Lease(s.share.id, s.push.gateway, s.share.now, s.share.wall + s.claimDuration));
    }
  }

  // ---- agents ----

  lemma CommittedStays(a: Tables, b: Tables, pr: PendingResult)
    requires a.runs <= b.runs && IsCommitted(a, pr)
    ensures IsCommitted(b, pr)
  {
    var i :| 0 <= i < |a.runs| && IsRunOf(a.runs[i], pr);
    assert b.runs[i] == a.runs[i];
  }

  lemma AgentSeesAdvance(a: Tables, b: Tables, f: Fleet, agent: Agent, n: NodeId)
    requires AgentInv(a, f, agent, n) && Advances(a, b)
    ensures AgentInv(b, f, agent, n)
  {
    forall pr | IsCommitted(a, pr) ensures IsCommitted(b, pr) {
      CommittedStays(a, b, pr);
    }
    forall j | 0 <= j < |agent.jobs| ensures JobInv(b, f.saved, agent.files, agent.jobs[j], n) {
      assert JobInv(a, f.saved, agent.files, agent.jobs[j], n);
    }
  }

  /** The agents do not notice a transaction that advances the tables. */
  lemma FleetSeesAdvance(a: Tables, b: Tables, f: Fleet)
    requires FleetInv(a, f) && Advances(a, b)
    ensures FleetInv(b, f)
  {
    forall n | n in f.agents ensures AgentInv(b, f, f.agents[n], n) {
      AgentSeesAdvance(a, b, f, f.agents[n], n);
    }
    forall t | t in f.saved ensures ResultKept(b, f, t) {
      assert ResultKept(a, f, t);
      if IsCommitted(a, f.saved[t]) {
        CommittedStays(a, b, f.saved[t]);
      }
    }
  }

  /** Only agent `n` changed, and it lost no file that carries a saved result still to be committed. */
  lemma OneAgentMoved(db: Tables, f: Fleet, g: Fleet, n: NodeId)
    requires FleetInv(db, f) && n in f.agents && n in g.agents
    requires g == f.(agents := f.agents[n := g.agents[n]])
    requires AgentInv(db, g, g.agents[n], n)
    requires forall t :: t in f.saved && f.saved[t].nodeId == n && t in f.agents[n].files
                         && f.agents[n].files[t] == Readable(f.saved[t]) && !IsCommitted(db, f.saved[t]) ==>
               t in g.agents[n].files && g.agents[n].files[t] == Readable(f.saved[t])
    ensures FleetInv(db, g)
  {
    forall m | m in g.agents ensures AgentInv(db, g, g.agents[m], m) {
      if m != n {
        SameHistory(db, f, g, f.agents[m], m);
      }
    }
    forall t | t in g.saved ensures ResultKept(db, g, t) {
      ResultStaysKept(db, f, g, n, t);
    }
  }

  lemma ResultStaysKept(db: Tables, f: Fleet, g: Fleet, n: NodeId, t: TaskId)
    requires t in f.saved && ResultKept(db, f, t)
    requires n in f.agents && n in g.agents && g == f.(agents := f.agents[n := g.agents[n]])
    requires f.saved[t].nodeId == n && t in f.agents[n].files
             && f.agents[n].files[t] == Readable(f.saved[t]) && !IsCommitted(db, f.saved[t]) ==>
               t in g.agents[n].files && g.agents[n].files[t] == Readable(f.saved[t])
    ensures ResultKept(db, g, t)
  {
  }

  lemma FilesStay(db: Tables, f: Fleet, n: NodeId, s: AgentStep)
    requires FleetInv(db, f) && n in f.agents
    requires AgentInv(db, f, Next(f.agents[n], s), n) && Next(f.agents[n], s).files == f.agents[n].files
    ensures FleetInv(db, Moved(f, n, s))
  {
    SameHistory(db, f, Moved(f, n, s), Next(f.agents[n], s), n);
    OneAgentMoved(db, f, Moved(f, n, s), n);
  }

  /** What is asked of an agent does not depend on the other agents. */
  lemma SameHistory(db: Tables, f: Fleet, g: Fleet, a: Agent, n: NodeId)
    requires AgentInv(db, f, a, n)
    requires g.handouts == f.handouts && g.executions == f.executions && g.saved == f.saved
    ensures AgentInv(db, g, a, n)
  {
    forall j | 0 <= j < |a.jobs| ensures JobInv(db, g.saved, a.files, a.jobs[j], n) {
      assert JobInv(db, f.saved, a.files, a.jobs[j], n);
    }
  }

  /** A task is held by one node only. */
  lemma SameHolder(db: Tables, f: Fleet, t: TaskId, n: NodeId, m: NodeId)
    requires HandoutInv(db, f) && Handout(t, n) in f.handouts && Handout(t, m) in f.handouts
    ensures n == m
  {
  }

  /** Steps that start nothing and save nothing. */
  predicate IsQuiet(a: Agent, s: AgentStep) {
    s.Boot? || s.DrainDone? || s.Execute? || s.Crash? || (s.Accept? && !StartsTask(a))
        || (s.Save? && !WritesResult(a, s))
  }

  ghost predicate FilesKept(f: Fleet, a: Agent, b: Agent, n: NodeId) {
    forall t :: t in a.files && t in f.saved && f.saved[t].nodeId == n ==> t in b.files && b.files[t] == a.files[t]
  }

  lemma QuietAgent(db: Tables, f: Fleet, a: Agent, n: NodeId, s: AgentStep)
    requires AgentInv(db, f, a, n) && IsQuiet(a, s)
    ensures AgentInv(db, f, Next(a, s), n) && FilesKept(f, a, Next(a, s), n)
  {
    if s.Save? {
      UnwrittenSave(db, f, a, n, s);
    } else if s.Execute? {
      ExecutedAgent(db, f, a, n, s);
    } else {
      IdleAgent(db, f, a, n, s);
    }
  }

  /** No goroutine moves, unless a crash ends them all. */
  lemma IdleAgent(db: Tables, f: Fleet, a: Agent, n: NodeId, s: AgentStep)
    requires AgentInv(db, f, a, n) && (s.Boot? || s.DrainDone? || s.Crash? || (s.Accept? && !StartsTask(a)))
    ensures AgentInv(db, f, Next(a, s), n) && Next(a, s).files == a.files
  {
    DeduplicatedNext(a, s);
    NamedByTaskNext(a, s);
    assert JobsInv(db, f, Next(a, s), n);
    assert FilesInv(db, f, Next(a, s), n);
  }

  lemma ExecutedAgent(db: Tables, f: Fleet, a: Agent, n: NodeId, s: AgentStep)
    requires AgentInv(db, f, a, n) && s.Execute?
    ensures AgentInv(db, f, Next(a, s), n) && Next(a, s).files == a.files
  {
    var b := Next(a, s);
    DeduplicatedNext(a, s);
    NamedByTaskNext(a, s);
    forall j | 0 <= j < |b.jobs|
      ensures Handout(b.jobs[j].taskId, n) in f.executions && JobInv(db, f.saved, b.files, b.jobs[j], n)
    {
      assert JobInv(db, f.saved, a.files, a.jobs[j], n);
    }
    assert FilesInv(db, f, b, n);
  }

  /** A save that writes no readable file: at most a torn one, under the name of a task that was never saved. */
  lemma UnwrittenSave(db: Tables, f: Fleet, a: Agent, n: NodeId, s: AgentStep)
    requires AgentInv(db, f, a, n) && s.Save? && !WritesResult(a, s)
    ensures AgentInv(db, f, Next(a, s), n) && FilesKept(f, a, Next(a, s), n)
  {
    var b := Next(a, s);
    DeduplicatedNext(a, s);
    NamedByTaskNext(a, s);
    if HasJob(a, s.job) {
      assert JobInv(db, f.saved, a.files, a.jobs[s.job], n);
    }
    forall j | 0 <= j < |b.jobs|
      ensures Handout(b.jobs[j].taskId, n) in f.executions && JobInv(db, f.saved, b.files, b.jobs[j], n)
    {
      assert JobInv(db, f.saved, a.files, a.jobs[j], n);
      assert HasJob(a, s.job) && j != s.job ==> a.jobs[j].taskId != a.jobs[s.job].taskId;
    }
    assert FilesInv(db, f, b, n);
  }

  lemma HeadOfInbox(db: Tables, f: Fleet, n: NodeId)
    requires FleetInv(db, f) && n in f.agents && StartsTask(f.agents[n])
    ensures var e := Handout(f.agents[n].inbox[0].taskId, n);
            e in f.handouts && e !in f.executions && e.taskId !in f.saved
  {
    var t := f.agents[n].inbox[0].taskId;
    assert AgentInv(db, f, f.agents[n], n);
    forall k | k in f.saved
      ensures Handout(k, f.saved[k].nodeId) in f.executions && Handout(k, f.saved[k].nodeId) in f.handouts
    {
      assert ResultKept(db, f, k);
    }
  }

  lemma ExecutionAdded(db: Tables, f: Fleet, g: Fleet, e: Handout)
    requires HandoutInv(db, f) && e in f.handouts && e !in f.executions
    requires g.handouts == f.handouts && g.executions == f.executions + [e]
    ensures HandoutInv(db, g)
  {
  }

  /** Results stay kept while executions only grow and no file changes. */
  lemma ResultsStayKept(db: Tables, f: Fleet, g: Fleet)
    requires forall t :: t in f.saved ==> ResultKept(db, f, t)
    requires g.saved == f.saved && f.executions <= g.executions
    requires forall n :: n in f.agents ==> n in g.agents && g.agents[n].files == f.agents[n].files
    ensures forall t :: t in g.saved ==> ResultKept(db, g, t)
  {
    assert forall e :: e in f.executions ==> e in g.executions;
    forall t | t in g.saved ensures ResultKept(db, g, t) {
      assert ResultKept(db, f, t);
    }
  }

  /** Starting the head of the inbox: nobody has started it, so nobody has saved it. */
  lemma AcceptStep(db: Tables, f: Fleet, n: NodeId)
    requires FleetInv(db, f) && n in f.agents && StartsTask(f.agents[n])
    ensures FleetInv(db, LocalStep(f, n, Accept))
  {
    var a := f.agents[n];
    var e := Handout(a.inbox[0].taskId, n);
    var g := LocalStep(f, n, Accept);
    HeadOfInbox(db, f, n);
    ExecutionAdded(db, f, g, e);
    ResultsStayAfterStart(db, f, n);
    AcceptedAgent(db, f, a, n);
    SameHistory(db, f.(executions := f.executions + [e]), g, g.agents[n], n);
    OthersSeeExecution(db, f, g, n, e);
  }

  lemma ResultsStayAfterStart(db: Tables, f: Fleet, n: NodeId)
    requires FleetInv(db, f) && n in f.agents && StartsTask(f.agents[n])
    ensures var g := LocalStep(f, n, Accept);
            forall t :: t in g.saved ==> ResultKept(db, g, t)
  {
    ResultsStayKept(db, f, LocalStep(f, n, Accept));
  }

  lemma OthersSeeExecution(db: Tables, f: Fleet, g: Fleet, n: NodeId, e: Handout)
    requires forall m :: m in f.agents ==> AgentInv(db, f, f.agents[m], m)
    requires e.nodeId == n && g.handouts == f.handouts && g.saved == f.saved && g.executions == f.executions + [e]
    ensures forall m :: m in f.agents && m != n ==> AgentInv(db, g, f.agents[m], m)
  {
    forall m | m in f.agents && m != n ensures AgentInv(db, g, f.agents[m], m) {
      SeesExecution(db, f, g, f.agents[m], m, e);
    }
  }

  lemma SeesExecution(db: Tables, f: Fleet, g: Fleet, a: Agent, m: NodeId, e: Handout)
    requires AgentInv(db, f, a, m) && e.nodeId != m
    requires g.handouts == f.handouts && g.saved == f.saved && g.executions == f.executions + [e]
    ensures AgentInv(db, g, a, m)
  {
    forall j | 0 <= j < |a.jobs| ensures JobInv(db, g.saved, a.files, a.jobs[j], m) {
      assert JobInv(db, f.saved, a.files, a.jobs[j], m);
    }
  }

  lemma AcceptedAgent(db: Tables, f: Fleet, a: Agent, n: NodeId)
    requires AgentInv(db, f, a, n) && StartsTask(a) && a.inbox[0].taskId !in f.saved
    ensures AgentInv(db, f.(executions := f.executions + [Handout(a.inbox[0].taskId, n)]), Next(a, Accept), n)
  {
    var e := Handout(a.inbox[0].taskId, n);
    var g := f.(executions := f.executions + [e]);
    var b := Next(a, Accept);
    DeduplicatedNext(a, Accept);
    NamedByTaskNext(a, Accept);
    assert g.executions[|f.executions|] == e;
    forall j | 0 <= j < |b.jobs|
      ensures Handout(b.jobs[j].taskId, n) in g.executions && JobInv(db, g.saved, b.files, b.jobs[j], n)
    {
      if j < |a.jobs| {
        assert b.jobs[j] == a.jobs[j] && JobInv(db, f.saved, a.files, a.jobs[j], n);
      }
    }
    assert InboxInv(g, b, n);
  }

  lemma UnsavedJob(db: Tables, f: Fleet, n: NodeId, s: AgentStep)
    requires FleetInv(db, f) && n in f.agents && WritesResult(f.agents[n], s)
    ensures var job := f.agents[n].jobs[s.job];
            ResultOf(job.phase.pr, job.taskId, n) && job.taskId !in f.saved && Handout(job.taskId, n) in f.executions
  {
    var a := f.agents[n];
    assert AgentInv(db, f, a, n);
    assert JobInv(db, f.saved, a.files, a.jobs[s.job], n);
  }

  /** The result just written is on disk; the others are where they were. */
  lemma ResultAdded(db: Tables, f: Fleet, g: Fleet, n: NodeId, pr: PendingResult)
    requires forall t :: t in f.saved ==> ResultKept(db, f, t)
    requires n in f.agents && pr.nodeId == n && pr.taskId !in f.saved && Handout(pr.taskId, n) in f.executions
    requires g.saved == f.saved[pr.taskId := pr] && g.executions == f.executions && g.agents.Keys == f.agents.Keys
    requires forall m :: m in f.agents ==>
               g.agents[m].files == if m == n then f.agents[m].files[pr.taskId := Readable(pr)] else f.agents[m].files
    ensures forall t :: t in g.saved ==> ResultKept(db, g, t)
  {
    forall t | t in g.saved ensures ResultKept(db, g, t) {
      if t != pr.taskId {
        assert ResultKept(db, f, t);
      }
    }
  }

  /** A result reaches the disk: its task was never saved before, on this node or any other. */
  lemma WriteStep(db: Tables, f: Fleet, n: NodeId, s: AgentStep)
    requires FleetInv(db, f) && n in f.agents && WritesResult(f.agents[n], s)
    ensures FleetInv(db, LocalStep(f, n, s))
  {
    var a := f.agents[n];
    var g := LocalStep(f, n, s);
    UnsavedJob(db, f, n, s);
    WrittenAgent(db, f, a, n, s);
    SameHistory(db, f.(saved := g.saved), g, g.agents[n], n);
    OthersSeeResult(db, f, g, n, a.jobs[s.job].phase.pr);
    AllResultsKept(db, f, n, s);
  }

  lemma AllResultsKept(db: Tables, f: Fleet, n: NodeId, s: AgentStep)
    requires FleetInv(db, f) && n in f.agents && WritesResult(f.agents[n], s)
    ensures var g := LocalStep(f, n, s);
            forall t :: t in g.saved ==> ResultKept(db, g, t)
  {
    UnsavedJob(db, f, n, s);
    ResultAdded(db, f, LocalStep(f, n, s), n, f.agents[n].jobs[s.job].phase.pr);
  }

  lemma OthersSeeResult(db: Tables, f: Fleet, g: Fleet, n: NodeId, pr: PendingResult)
    requires HandoutInv(db, f) && forall m :: m in f.agents ==> AgentInv(db, f, f.agents[m], m)
    requires Handout(pr.taskId, n) in f.executions && pr.taskId !in f.saved
    requires g.handouts == f.handouts && g.executions == f.executions && g.saved == f.saved[pr.taskId := pr]
    ensures forall m :: m in f.agents && m != n ==> AgentInv(db, g, f.agents[m], m)
  {
    forall m | m in f.agents && m != n ensures AgentInv(db, g, f.agents[m], m) {
      NotStartedElsewhere(db, f, m, n, pr.taskId);
      SeesOtherResult(db, f, g, f.agents[m], m, pr.taskId);
    }
  }

  lemma WrittenAgent(db: Tables, f: Fleet, a: Agent, n: NodeId, s: AgentStep)
    requires AgentInv(db, f, a, n) && WritesResult(a, s)
    ensures var pr := a.jobs[s.job].phase.pr;
            AgentInv(db, f.(saved := f.saved[pr.taskId := pr]), Next(a, s), n)
  {
    var pr := a.jobs[s.job].phase.pr;
    var g := f.(saved := f.saved[pr.taskId := pr]);
    var b := Next(a, s);
    DeduplicatedNext(a, s);
    NamedByTaskNext(a, s);
    assert JobInv(db, f.saved, a.files, a.jobs[s.job], n);
    forall j | 0 <= j < |b.jobs|
      ensures Handout(b.jobs[j].taskId, n) in g.executions && JobInv(db, g.saved, b.files, b.jobs[j], n)
    {
      assert JobInv(db, f.saved, a.files, a.jobs[j], n);
      assert j != s.job ==> a.jobs[j].taskId != a.jobs[s.job].taskId;
    }
    assert FilesInv(db, g, b, n);
  }

  lemma NotStartedElsewhere(db: Tables, f: Fleet, m: NodeId, n: NodeId, t: TaskId)
    requires HandoutInv(db, f) && m != n && Handout(t, n) in f.executions
    ensures Handout(t, m) !in f.executions
  {
    if Handout(t, m) in f.executions {
      SameHolder(db, f, t, n, m);
    }
  }

  /** A result saved by another node is no concern of agent `m`, which never started that task. */
  lemma SeesOtherResult(db: Tables, f: Fleet, g: Fleet, a: Agent, m: NodeId, t: TaskId)
    requires AgentInv(db, f, a, m) && Handout(t, m) !in f.executions && t !in f.saved
    requires g.handouts == f.handouts && g.executions == f.executions
    requires t in g.saved && g.saved == f.saved[t := g.saved[t]]
    ensures AgentInv(db, g, a, m)
  {
    forall j | 0 <= j < |a.jobs| ensures JobInv(db, g.saved, a.files, a.jobs[j], m) {
      assert a.jobs[j].taskId != t;
      assert JobInv(db, f.saved, a.files, a.jobs[j], m);
    }
    assert JobsInv(db, g, a, m);
    assert FilesInv(db, g, a, m);
  }

  /** A file is removed only when what it holds is committed. */
  lemma RemoveStep(db: Tables, f: Fleet, n: NodeId, s: AgentStep)
    requires FleetInv(db, f) && n in f.agents && (s.Remove? || s.DrainRemove?)
    ensures FleetInv(db, Moved(f, n, s))
  {
    var a := f.agents[n];
    var b := Next(a, s);
    assert AgentInv(db, f, a, n);
    RemovedAgent(db, f, a, n, s);
    SameHistory(db, f, Moved(f, n, s), b, n);
    OneAgentMoved(db, f, Moved(f, n, s), n);
  }

  lemma RemovedAgent(db: Tables, f: Fleet, a: Agent, n: NodeId, s: AgentStep)
    requires AgentInv(db, f, a, n) && (s.Remove? || s.DrainRemove?)
    ensures AgentInv(db, f, Next(a, s), n)
    ensures forall t :: t in a.files && t in f.saved && !IsCommitted(db, f.saved[t]) ==>
              t in Next(a, s).files && Next(a, s).files[t] == a.files[t]
  {
    var b := Next(a, s);
    DeduplicatedNext(a, s);
    NamedByTaskNext(a, s);
    if s.Remove? && HasJob(a, s.job) {
      assert JobInv(db, f.saved, a.files, a.jobs[s.job], n);
    }
    forall j | 0 <= j < |b.jobs|
      ensures Handout(b.jobs[j].taskId, n) in f.executions && JobInv(db, f.saved, b.files, b.jobs[j], n)
    {
      assert JobInv(db, f.saved, a.files, a.jobs[j], n);
    }
    assert FilesInv(db, f, b, n);
  }

  /** `acked` may be true only when the result is committed by then. */
  lemma ReportStep(db: Tables, f: Fleet, n: NodeId, s: AgentStep)
    requires FleetInv(db, f) && n in f.agents && (s.Report? || s.DrainReport?)
    requires s.Report? && s.acked && HasJob(f.agents[n], s.job) && f.agents[n].jobs[s.job].phase.Saved? ==>
               IsCommitted(db, f.agents[n].jobs[s.job].phase.pr)
    requires s.DrainReport? && s.acked && DrainHead(f.agents[n]).Some? ==> IsCommitted(db, DrainHead(f.agents[n]).value)
    ensures FleetInv(db, Moved(f, n, s))
  {
    ReportedAgent(db, f, f.agents[n], n, s);
    FilesStay(db, f, n, s);
  }

  lemma ReportedAgent(db: Tables, f: Fleet, a: Agent, n: NodeId, s: AgentStep)
    requires AgentInv(db, f, a, n) && (s.Report? || s.DrainReport?)
    requires s.Report? && s.acked && HasJob(a, s.job) && a.jobs[s.job].phase.Saved? ==>
        IsCommitted(db, a.jobs[s.job].phase.pr)
    requires s.DrainReport? && s.acked && DrainHead(a).Some? ==> IsCommitted(db, DrainHead(a).value)
    ensures AgentInv(db, f, Next(a, s), n) && Next(a, s).files == a.files
  {
    var b := Next(a, s);
    DeduplicatedNext(a, s);
    NamedByTaskNext(a, s);
    forall j | 0 <= j < |b.jobs|
      ensures Handout(b.jobs[j].taskId, n) in f.executions && JobInv(db, f.saved, b.files, b.jobs[j], n)
    {
      assert JobInv(db, f.saved, a.files, a.jobs[j], n);
    }
    assert FilesInv(db, f, b, n);
  }

  /** A reply means the gateway committed a finished run with this result. */
  lemma AckMeansCommitted(db: Tables, pr: PendingResult, reaches: bool, replied: bool)
    requires Acked(db, pr, reaches, replied)
    ensures IsCommitted(AfterPending(db, pr, reaches), pr)
  {
    var after := AfterPending(db, pr, reaches);
    assert IsRunOf(after.runs[|db.runs|], pr);
  }

  // ---- pulls ----

  lemma JoinedTasksDiffer(a: seq<Handout>, b: seq<Handout>)
    requires forall i, j :: 0 <= i < j < |a| ==> a[i].taskId != a[j].taskId
    requires forall i, j :: 0 <= i < j < |b| ==> b[i].taskId != b[j].taskId
    requires forall h, k :: h in a && k in b ==> h.taskId != k.taskId
    ensures forall i, j :: 0 <= i < j < |a + b| ==> (a + b)[i].taskId != (a + b)[j].taskId
  {
    forall i, j | 0 <= i < j < |a + b| ensures (a + b)[i].taskId != (a + b)[j].taskId {
      if i < |a| <= j {
        assert a[i] in a && b[j - |a|] in b;
      }
    }
  }

  lemma HandoutsGrow(w: World, s: Step)
    requires HandoutInv(w.db, w.fleet) && s.Pull?
    requires IsPullAnswer(w.db.tasks, s.answer, s.node, s.gateway, s.locked, PullLimit(s.maxTasks))
    ensures HandoutInv(DeliverAll(w.db, s.answer, s.gateway),
                       w.fleet.(handouts := w.fleet.handouts + Handouts(s.answer, s.node)))
    ensures forall h :: h in Handouts(s.answer, s.node) ==> h !in w.fleet.handouts
  {
    var db := DeliverAll(w.db, s.answer, s.gateway);
    var olds := w.fleet.handouts;
    var more := Handouts(s.answer, s.node);
    PullExactly(w.db, s.answer, s.gateway);
    forall h | h in more ensures h.taskId in s.answer && h.nodeId == s.node {
    }
    forall h, k | h in olds && k in more ensures h.taskId != k.taskId {
      assert Dispatched(w.db.tasks[h.taskId]);
      assert k.taskId in s.answer;
      assert !Dispatched(w.db.tasks[k.taskId]);
    }
    JoinedTasksDiffer(olds, more);
    forall h | h in olds + more
      ensures h.taskId in db.tasks && Dispatched(db.tasks[h.taskId]) && db.tasks[h.taskId].targetNode == Some(h.nodeId)
    {
      if h in olds {
        assert Dispatched(w.db.tasks[h.taskId]);
      } else {
        assert h in more;
      }
    }
  }

  lemma SeesHandouts(db: Tables, f: Fleet, g: Fleet, a: Agent, n: NodeId)
    requires AgentInv(db, f, a, n)
    requires f.handouts <= g.handouts && g.executions == f.executions && g.saved == f.saved
    ensures AgentInv(db, g, a, n)
  {
    assert forall h :: h in f.handouts ==> h in g.handouts;
    forall j | 0 <= j < |a.jobs| ensures JobInv(db, g.saved, a.files, a.jobs[j], n) {
      assert JobInv(db, f.saved, a.files, a.jobs[j], n);
    }
  }

  lemma HandedOut(w: World, s: Step)
    requires FleetInv(w.db, w.fleet) && s.Pull?
    requires IsPullAnswer(w.db.tasks, s.answer, s.node, s.gateway, s.locked, PullLimit(s.maxTasks))
    ensures FleetInv(DeliverAll(w.db, s.answer, s.gateway),
                     w.fleet.(handouts := w.fleet.handouts + Handouts(s.answer, s.node)))
  {
    var f := w.fleet;
    var db := DeliverAll(w.db, s.answer, s.gateway);
    var handed := f.(handouts := f.handouts + Handouts(s.answer, s.node));
    DeliverAdvances(w.db, s.answer, s.gateway);
    FleetSeesAdvance(w.db, db, f);
    HandoutsGrow(w, s);
    forall n | n in handed.agents ensures AgentInv(db, handed, handed.agents[n], n) {
      SeesHandouts(db, f, handed, f.agents[n], n);
    }
    forall t | t in handed.saved ensures ResultKept(db, handed, t) {
      assert ResultKept(db, f, t);
    }
  }

  lemma PullStep(w: World, s: Step)
    requires FleetInv(w.db, w.fleet) && s.Pull?
    requires s.node != "" && IsPullAnswer(w.db.tasks, s.answer, s.node, s.gateway, s.locked, PullLimit(s.maxTasks))
    ensures FleetInv(Do(w, s).db, Do(w, s).fleet)
  {
    HandedOut(w, s);
    if s.arrives && s.node in w.fleet.agents {
      Arrived(w, s);
    }
  }

  lemma Arrived(w: World, s: Step)
    requires FleetInv(w.db, w.fleet) && s.Pull? && s.node in w.fleet.agents
    requires IsPullAnswer(w.db.tasks, s.answer, s.node, s.gateway, s.locked, PullLimit(s.maxTasks))
    ensures FleetInv(DeliverAll(w.db, s.answer, s.gateway), PulledFleet(w.db, w.fleet, s.node, s.answer, true))
  {
    var db := DeliverAll(w.db, s.answer, s.gateway);
    var handed := w.fleet.(handouts := w.fleet.handouts + Handouts(s.answer, s.node));
    HandedOut(w, s);
    NewHandouts(w, s);
    Delivery(db, handed, s.node, s.answer, NodeTasks(w.db.tasks, s.answer));
  }

  lemma NewHandouts(w: World, s: Step)
    requires HandoutInv(w.db, w.fleet) && s.Pull?
    requires IsPullAnswer(w.db.tasks, s.answer, s.node, s.gateway, s.locked, PullLimit(s.maxTasks))
    ensures forall h :: h in Handouts(s.answer, s.node) ==>
              h in w.fleet.handouts + Handouts(s.answer, s.node) && h !in w.fleet.executions
  {
    HandoutsGrow(w, s);
  }

  lemma Delivery(db: Tables, f: Fleet, n: NodeId, answer: seq<TaskId>, tasks: seq<NodeTask>)
    requires FleetInv(db, f) && n in f.agents
    requires Distinct(answer) && |tasks| == |answer| && forall i :: 0 <= i < |tasks| ==> tasks[i].taskId == answer[i]
    requires forall h :: h in Handouts(answer, n) ==> h in f.handouts && h !in f.executions
    ensures FleetInv(db, Moved(f, n, Receive(tasks)))
  {
    ReceivedAgent(db, f, f.agents[n], n, answer, tasks);
    FilesStay(db, f, n, Receive(tasks));
  }

  lemma ReceivedAgent(db: Tables, f: Fleet, a: Agent, n: NodeId, answer: seq<TaskId>, tasks: seq<NodeTask>)
    requires AgentInv(db, f, a, n)
    requires Distinct(answer) && |tasks| == |answer| && forall i :: 0 <= i < |tasks| ==> tasks[i].taskId == answer[i]
    requires forall h :: h in Handouts(answer, n) ==> h in f.handouts && h !in f.executions
    ensures AgentInv(db, f, Next(a, Receive(tasks)), n) && Next(a, Receive(tasks)).files == a.files
  {
    var b := Next(a, Receive(tasks));
    DeduplicatedNext(a, Receive(tasks));
    NamedByTaskNext(a, Receive(tasks));
    forall i | 0 <= i < |tasks|
      ensures Handout(tasks[i].taskId, n) in f.handouts && Handout(tasks[i].taskId, n) !in f.executions
    {
      assert Handouts(answer, n)[i] == Handout(tasks[i].taskId, n);
    }
    assert InboxInv(f, b, n);
    assert JobsInv(db, f, b, n);
    assert FilesInv(db, f, b, n);
  }

  // ---- every step, every run ----

  lemma LocalKept(db: Tables, f: Fleet, n: NodeId, s: AgentStep)
    requires FleetInv(db, f) && n in f.agents && IsLocal(s)
    ensures FleetInv(db, LocalStep(f, n, s))
  {
    var a := f.agents[n];
    if s.Accept? && StartsTask(a) {
      AcceptStep(db, f, n);
    } else if WritesResult(a, s) {
      WriteStep(db, f, n, s);
    } else if s.Remove? || s.DrainRemove? {
      RemoveStep(db, f, n, s);
    } else {
      assert AgentInv(db, f, a, n);
      QuietAgent(db, f, a, n, s);
      SameHistory(db, f, Moved(f, n, s), Next(a, s), n);
      OneAgentMoved(db, f, Moved(f, n, s), n);
    }
  }

  lemma CallKept(w: World, n: NodeId, pr: PendingResult, reaches: bool, replied: bool, s: AgentStep)
    requires FleetInv(w.db, w.fleet) && n in w.fleet.agents
    requires s.Report? || s.DrainReport?
    requires s.acked ==> Acked(w.db, pr, reaches, replied)
    requires s.Report? ==> HasJob(w.fleet.agents[n], s.job) && w.fleet.agents[n].jobs[s.job].phase == Saved(pr)
    requires s.DrainReport? && s.acked ==> DrainHead(w.fleet.agents[n]) == Some(pr)
    ensures FleetInv(AfterPending(w.db, pr, reaches), Moved(w.fleet, n, s))
  {
    var db := AfterPending(w.db, pr, reaches);
    if db != w.db {
      ReportedAdvances(w.db, pr.taskId, pr.nodeId, pr.status, pr.errorMessage, pr.result);
      FleetSeesAdvance(w.db, db, w.fleet);
    }
    if s.acked {
      AckMeansCommitted(w.db, pr, reaches, replied);
    }
    ReportStep(db, w.fleet, n, s);
  }

  lemma FleetKept(w: World, s: Step)
    requires FleetInv(w.db, w.fleet)
    ensures FleetInv(Do(w, s).db, Do(w, s).fleet)
  {
    match s
    case Local(n, step) =>
      if n in w.fleet.agents && IsLocal(step) {
        LocalKept(w.db, w.fleet, n, step);
      }
    case Pull(gateway, node, maxTasks, locked, answer, arrives) =>
      if node != "" && IsPullAnswer(w.db.tasks, answer, node, gateway, locked, PullLimit(maxTasks)) {
        PullStep(w, s);
      }
    case JobReport(n, j, reaches, replied) =>
      if n in w.fleet.agents && HasJob(w.fleet.agents[n], j) && w.fleet.agents[n].jobs[j].phase.Saved? {
        var pr := w.fleet.agents[n].jobs[j].phase.pr;
        CallKept(w, n, pr, reaches, replied, Report(j, Acked(w.db, pr, reaches, replied)));
      }
    case DrainAttempt(n, readable, reaches, replied) =>
      if n in w.fleet.agents {
        if readable && DrainHead(w.fleet.agents[n]).Some? {
          var pr := DrainHead(w.fleet.agents[n]).value;
          CallKept(w, n, pr, reaches, replied, DrainReport(true, Acked(w.db, pr, reaches, replied)));
        } else {
          ReportStep(w.db, w.fleet, n, DrainReport(false, false));
        }
      }
    case _ =>
      TablesAdvance(w, s);
      FleetSeesAdvance(w.db, Do(w, s).db, w.fleet);
  }

  lemma {:induction false} InvAlways(w: World, steps: seq<Step>)
    requires Init(w)
    ensures Inv(Run(w, steps))
  {
    if |steps| > 0 {
      var before := Run(w, steps[..|steps| - 1]);
      var s := steps[|steps| - 1];
      InvAlways(w, steps[..|steps| - 1]);
      TablesKept(before, s);
      LeasesKept(before, s);
      FleetKept(before, s);
    }
  }

  // ---- the theorems ----

  /** In every run each task is given out by a pull at most once, and to the node it targets. */
  lemma HandedOutAtMostOnce(w: World, steps: seq<Step>)
    requires Init(w)
    ensures var v := Run(w, steps);
            && (forall i, j :: 0 <= i < j < |v.fleet.handouts| ==>
                v.fleet.handouts[i].taskId != v.fleet.handouts[j].taskId)
            && (forall h :: h in v.fleet.handouts ==>
                  h.taskId in v.db.tasks && v.db.tasks[h.taskId].targetNode == Some(h.nodeId))
  {
    InvAlways(w, steps);
  }

  /**
   In every run each task is started at most once, over all agents and all their restarts, by the node it was
   given to.
   */
  lemma ExecutedAtMostOnce(w: World, steps: seq<Step>)
    requires Init(w)
    ensures var f := Run(w, steps).fleet;
            && (forall i, j :: 0 <= i < j < |f.executions| ==> f.executions[i].taskId != f.executions[j].taskId)
            && (forall e :: e in f.executions ==> e in f.handouts)
  {
    InvAlways(w, steps);
    var f := Run(w, steps).fleet;
    forall i, j | 0 <= i < j < |f.executions| ensures f.executions[i].taskId != f.executions[j].taskId {
      assert f.executions[i] in f.handouts && f.executions[j] in f.handouts;
    }
  }

  /** In every state each result that reached the disk is committed in a finished run, or its file is still there. */
  lemma NoSavedResultLost(w: World, steps: seq<Step>, t: TaskId)
    requires Init(w) && t in Run(w, steps).fleet.saved
    ensures var v := Run(w, steps);
            var pr := v.fleet.saved[t];
            || IsCommitted(v.db, pr)
            || (pr.nodeId in v.fleet.agents && t in v.fleet.agents[pr.nodeId].files
                && v.fleet.agents[pr.nodeId].files[t] == Readable(pr))
  {
    InvAlways(w, steps);
    assert ResultKept(Run(w, steps).db, Run(w, steps).fleet, t);
  }

  /** The row's status is where the log ends, and the runs are counted by the reports. */
  ghost predicate Accounted(db: Tables, id: TaskId)
    requires id in db.tasks
  {
    && db.tasks[id].status == LoggedStatus(db.events, id)
    && MaxAttempt(db.runs, id) == CountRuns(db.runs, id) == CountReports(db.events, id)
    && db.tasks[id].status !in {Dispatching, Retrying}
  }

  /**
   In every state each task's log is a connected path to the row's status, and its runs are numbered by its
   reports.
   */
  lemma LogsAreFaithful(w: World, steps: seq<Step>)
    requires Init(w)
    ensures var db := Run(w, steps).db;
            Connected(db.events) && Numbered(db.runs) && forall id :: id in db.tasks ==> Accounted(db, id)
  {
    InvAlways(w, steps);
    var db := Run(w, steps).db;
    forall id | id in db.tasks ensures Accounted(db, id) {
      assert TaskInv(db, id);
      LatestAttemptCounts(db.runs, id);
    }
  }

  /**
   In every run the windows of the won claims on one task are disjoint and in order, and the row names the last
   winner.
   */
  lemma LeasesAreExclusive(w: World, steps: seq<Step>)
    requires Init(w)
    ensures var v := Run(w, steps);
            && (forall i, j :: 0 <= i < j < |v.leases| && v.leases[i].taskId == v.leases[j].taskId ==>
                  v.leases[i].until < v.leases[j].from)
            && (forall id :: id in v.db.tasks && LastLease(v.leases, id).Some? ==>
                  v.db.tasks[id].owner == Some(LastLease(v.leases, id).value.owner)
                  && v.db.tasks[id].claimExpireAt == Some(LastLease(v.leases, id).value.until))
  {
    InvAlways(w, steps);
    var v := Run(w, steps);
    forall id | id in v.db.tasks ensures RowMatchesLease(v.db.tasks[id], LastLease(v.leases, id)) {
    }
  }

  /** A row that a pull delivered without any lease can never be claimed afterwards, in any continuation. */
  lemma {:induction false} DeliveredWithoutLeaseStaysSo(w: World, steps: seq<Step>, id: TaskId)
    requires id in w.db.tasks && w.db.tasks[id].dispatch != Unclaimed && w.db.tasks[id].claimExpireAt == None
    ensures var v := Run(w, steps);
            && id in v.db.tasks && v.db.tasks[id].dispatch != Unclaimed && v.db.tasks[id].claimExpireAt == None
            && forall now :: !ClaimWins(v.db, id, now)
  {
    if |steps| > 0 {
      var before := Run(w, steps[..|steps| - 1]);
      var s := steps[|steps| - 1];
      DeliveredWithoutLeaseStaysSo(w, steps[..|steps| - 1], id);
      if s.Expand? {
        TablesAdvance(before, s);
      } else if !s.Claim? {
        ClaimFieldsStay(before, s);
      }
    }
  }
}
