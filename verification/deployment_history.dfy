/**
 Any number of controllers and operators at work on the deployments, between other traffic on the
 task tables. A controller acts on rows it listed at some earlier time and on readings of the node,
 profile and runtime-state tables of any age; its transaction is one step.
 */
module DeploymentHistory {
  import opened Wrappers
  import opened TaskTables
  import opened TaskInvariants
  import opened Ranking
  import opened Rollout
  import opened Deployment
  import TaskProtocol

  datatype Listed = Listed(id: DeploymentId, row: DeploymentRow)

  datatype World = World(db: Database, held: set<Listed>)

  /** Everything a controller reads for one deployment. */
  datatype Sources = Sources(table: map<NodeId, EdgeNode>, profiles: seq<Profile>, states: RuntimeStates)

  datatype Step =
    | Create(req: CreateDeploymentRequest, id: DeploymentId)
    | Update(edit: UpdateRequest)
    | ListPending
    | Reconcile(listed: Listed, sources: Sources, see: Readings, keys: Keys, now: Time)
    | Traffic(tables: Tables)

  /** The readings are answers to the controller's queries. */
  ghost predicate AreReadings(see: Readings, s: Sources, row: DeploymentRow) {
    && IsNodeListing(see.nodes, s.table, row.target)
    && IsResolved(see.runtime, row.runtime, row.modelName, s.profiles)
    && (see.ready, see.failed) == CountStates(s.states, row.modelName, row.modelVersion)
  }

  /** What the rest of the system does to the task tables; no task of it is signed as the controller's. */
  ghost predicate IsTraffic(a: Tables, b: Tables) {
    && Advances(a, b)
    && (forall t :: t in b.tasks && t !in a.tasks ==> b.tasks[t].createdBy != CONTROLLER)
  }

  ghost predicate Enabled(w: World, s: Step) {
    match s
    case Create(req, id) => CreateDeploymentTx(w.db, id, req).Ok?
    case Update(edit) => UpdateDeploymentTx(w.db, edit).Ok?
    case ListPending => true
    case Reconcile(listed, sources, see, keys, now) =>
      && listed in w.held && AreReadings(see, sources, listed.row)
      && |keys.children| == |see.nodes|
      && ReconcileTx(w.db, listed.id, listed.row, see, keys, now).Some?
    case Traffic(tables) => IsTraffic(w.db.tables, tables)
  }

  predicate IsListed(row: DeploymentRow) {
    Decoded(row.status).phase in {Phase.Pending, RollingOut}
  }

  ghost function PendingRows(deployments: map<DeploymentId, DeploymentRow>): set<Listed> {
    set id | id in deployments && IsListed(deployments[id]) :: Listed(id, deployments[id])
  }

  ghost function Do(w: World, s: Step): World {
    if !Enabled(w, s) then w
    else
      match s
      case Create(req, id) => w.(db := CreateDeploymentTx(w.db, id, req).value)
      case Update(edit) => w.(db := UpdateDeploymentTx(w.db, edit).value)
      case ListPending => w.(held := w.held + PendingRows(w.db.deployments))
      case Reconcile(listed, _, see, keys, now) =>
        w.(db := ReconcileTx(w.db, listed.id, listed.row, see, keys, now).value)
      case Traffic(tables) => w.(db := w.db.(tables := tables))
  }

  ghost function Run(w: World, steps: seq<Step>): World {
    if |steps| == 0 then w else Do(Run(w, steps[..|steps| - 1]), steps[|steps| - 1])
  }

  /** No deployment yet, and no task signed as the controller's. */
  ghost predicate Init(w: World) {
    && w.db.deployments == map[] && w.held == {}
    && forall t :: t in w.db.tables.tasks ==> w.db.tables.tasks[t].createdBy != CONTROLLER
  }

  // ---- the controller's tasks ----

  function DeploymentOf(p: Payload): Option<DeploymentId> {
    if p.Object? && "deployment_id" in p.members then Some(p.members["deployment_id"]) else None
  }

  predicate IsTaskOf(row: TaskRow, kind: string, id: DeploymentId) {
    row.createdBy == CONTROLLER && row.kind == kind && DeploymentOf(row.payload) == Some(id)
  }

  function TasksOf(db: Tables, kind: string, id: DeploymentId): set<TaskId> {
    set t | t in db.tasks && IsTaskOf(db.tasks[t], kind, id)
  }

  function Parents(db: Tables, id: DeploymentId): set<TaskId> {
    TasksOf(db, DEPLOY_KIND, id)
  }

  function Children(db: Tables, id: DeploymentId): set<TaskId> {
    TasksOf(db, START_KIND, id)
  }

  /** Traffic leaves the controller's tasks where they are. */
  lemma TrafficKeepsTasks(a: Tables, b: Tables, kind: string, id: DeploymentId)
    requires IsTraffic(a, b)
    ensures TasksOf(b, kind, id) == TasksOf(a, kind, id)
    ensures forall t :: t in TasksOf(a, kind, id) ==> SameOrigin(a.tasks[t], b.tasks[t])
  {
  }

  /** The rows a fan-out writes, and where the others are. */
  lemma FanOutRows(
    db: Tables, r: Tables, id: DeploymentId, snapshot: DeploymentRow, see: Readings, keys: Keys, now: Time)
    requires |keys.children| == |see.nodes|
    requires FanOutTx(db, keys.parent, keys.children, see.nodes, ParentPayload(id, snapshot, see.runtime),
                      ChildPayload(id, snapshot, see.runtime), now) == Some(r)
    ensures Distinct(keys.children) && keys.parent !in db.tasks && keys.parent !in keys.children
    ensures keys.parent in r.tasks && r.tasks[keys.parent] == ParentRow(ParentPayload(id, snapshot, see.runtime), now)
    ensures forall i :: 0 <= i < |keys.children| ==>
              keys.children[i] in r.tasks && keys.children[i] !in db.tasks
              && r.tasks[keys.children[i]]
                  == ChildRow(keys.parent, see.nodes[i], ChildPayload(id, snapshot, see.runtime), now)
    ensures forall t :: t in db.tasks ==> t in r.tasks && r.tasks[t] == db.tasks[t]
    ensures forall t :: t in r.tasks ==> t in db.tasks || t == keys.parent || t in keys.children
  {
    var d := PutTask(db, keys.parent, ParentRow(ParentPayload(id, snapshot, see.runtime), now));
    AddChildrenExactly(d, keys.parent, keys.children, see.nodes, ChildPayload(id, snapshot, see.runtime), now);
  }

  /** A fan-out adds one parent and one child per node, for its own deployment only. */
  lemma FanOutAddsTasks(
    db: Tables, r: Tables, id: DeploymentId, snapshot: DeploymentRow, see: Readings, keys: Keys, now: Time,
    other: DeploymentId)
    requires |keys.children| == |see.nodes|
    requires FanOutTx(db, keys.parent, keys.children, see.nodes, ParentPayload(id, snapshot, see.runtime),
                      ChildPayload(id, snapshot, see.runtime), now) == Some(r)
    ensures Parents(r, other) == Parents(db, other) + if other == id then {keys.parent} else {}
    ensures Children(r, other) == Children(db, other) + if other == id then Elements(keys.children) else {}
  {
    FanOutRows(db, r, id, snapshot, see, keys, now);
    forall t | t in keys.children ensures t in r.tasks && t !in db.tasks && IsTaskOf(r.tasks[t], START_KIND, id) {
      var i :| 0 <= i < |keys.children| && keys.children[i] == t;
      assert r.tasks[keys.children[i]].kind == START_KIND;
    }
    assert IsTaskOf(r.tasks[keys.parent], DEPLOY_KIND, id);
    TasksAdded(db, r, keys.parent, Elements(keys.children), id, other);
  }

  lemma TasksAdded(db: Tables, r: Tables, parent: TaskId, children: set<TaskId>, id: DeploymentId, other: DeploymentId)
    requires parent !in db.tasks && parent in r.tasks && IsTaskOf(r.tasks[parent], DEPLOY_KIND, id)
    requires forall t :: t in children ==> t !in db.tasks && t in r.tasks && IsTaskOf(r.tasks[t], START_KIND, id)
    requires forall t :: t in db.tasks ==> t in r.tasks && r.tasks[t] == db.tasks[t]
    requires forall t :: t in r.tasks ==> t in db.tasks || t == parent || t in children
    ensures Parents(r, other) == Parents(db, other) + if other == id then {parent} else {}
    ensures Children(r, other) == Children(db, other) + if other == id then children else {}
  {
  }

  // ---- one parent per fan-out ----

  predicate InPending(w: World, id: DeploymentId) {
    id in w.db.deployments && Decoded(w.db.deployments[id].status).phase == Phase.Pending
  }

  /** How many reconcile commits of the run took the deployment out of Pending. */
  ghost function FanOuts(w: World, steps: seq<Step>, id: DeploymentId): nat {
    if |steps| == 0 then 0
    else
      var before := Run(w, steps[..|steps| - 1]);
      var s := steps[|steps| - 1];
      FanOuts(w, steps[..|steps| - 1], id)
      + if s.Reconcile? && InPending(before, id) && !InPending(Do(before, s), id) then 1 else 0
  }

  lemma ParentsAfterReconcile(
    db: Database, r: Database, listed: Listed, see: Readings, keys: Keys, now: Time, id: DeploymentId)
    requires |keys.children| == |see.nodes| && ReconcileTx(db, listed.id, listed.row, see, keys, now) == Some(r)
    ensures |Parents(r.tables, id)|
         == |Parents(db.tables, id)|
            + if id == listed.id && FansOut(Decoded(db.deployments[id].status), see.nodes) then 1 else 0
  {
    if FansOut(Decoded(db.deployments[listed.id].status), see.nodes) {
      FanOutAddsTasks(db.tables, r.tables, listed.id, listed.row, see, keys, now, id);
    }
  }

  lemma ParentsStep(w: World, s: Step, id: DeploymentId)
    ensures |Parents(Do(w, s).db.tables, id)|
         == |Parents(w.db.tables, id)| + if s.Reconcile? && InPending(w, id) && !InPending(Do(w, s), id) then 1 else 0
  {
    if Enabled(w, s) {
      match s
      case Traffic(tables) => TrafficKeepsTasks(w.db.tables, tables, DEPLOY_KIND, id);
      case Reconcile(listed, _, see, keys, now) =>
        OtherPhasesAreFixed(Decoded(w.db.deployments[listed.id].status), see);
        ParentsAfterReconcile(w.db, Do(w, s).db, listed, see, keys, now, id);
      case _ =>
    }
  }

  /**
   However many controllers reconcile from however stale rows, and wherever their transactions fail,
   a deployment has exactly as many parent tasks as there were commits that took it out of Pending.
   */
  lemma {:induction false} OneParentPerFanOut(w: World, steps: seq<Step>, id: DeploymentId)
    requires Init(w)
    ensures |Parents(Run(w, steps).db.tables, id)| == FanOuts(w, steps, id)
  {
    if |steps| > 0 {
      OneParentPerFanOut(w, steps[..|steps| - 1], id);
      ParentsStep(Run(w, steps[..|steps| - 1]), steps[|steps| - 1], id);
    } else {
      assert Parents(w.db.tables, id) == {};
    }
  }

  // ---- fan-out happens once ----

  /** No operator puts the deployment back to Pending. */
  ghost predicate NeverReset(steps: seq<Step>, id: DeploymentId) {
    forall s :: s in steps && s.Update? && s.edit.id == id ==> s.edit.phase != Some(Phase.Pending)
  }

  ghost predicate NeverEdited(steps: seq<Step>) {
    forall s :: s in steps && s.Update? ==> s.edit.phase == None
  }

  predicate SameModel(a: DeploymentRow, b: DeploymentRow) {
    a.modelName == b.modelName && a.modelVersion == b.modelVersion && a.target == b.target
  }

  /** Whatever a controller holds, its model and target are still those of the stored row. */
  ghost predicate HeldInv(w: World) {
    forall l :: l in w.held ==> l.id in w.db.deployments && SameModel(l.row, w.db.deployments[l.id])
  }

  predicate Carries(p: Payload, key: string, value: string) {
    p.Object? && key in p.members && p.members[key] == value
  }

  /** The child starts this model on some node, under a parent task of the same deployment. */
  ghost predicate IsChildOf(db: Tables, t: TaskId, id: DeploymentId, row: DeploymentRow)
    requires t in db.tasks
  {
    var task := db.tasks[t];
    && task.parent.Some? && task.parent.value in Parents(db, id)
    && task.scope == Scope.Node && task.targetNode.Some?
    && Carries(task.payload, "model_name", row.modelName) && Carries(task.payload, "model_version", row.modelVersion)
    && Carries(task.payload, "action", "StartRuntime")
  }

  /** At most one parent, and a child for each of the desired nodes, no node twice. */
  ghost predicate Tidy(db: Tables, id: DeploymentId, row: DeploymentRow) {
    var children := Children(db, id);
    && |Parents(db, id)| == (if Decoded(row.status).desired > 0 then 1 else 0)
    && |children| == Decoded(row.status).desired
    && (forall t :: t in children ==> IsChildOf(db, t, id, row))
    && (forall t, u :: t in children && u in children && t != u ==> db.tasks[t].targetNode != db.tasks[u].targetNode)
    && (Decoded(row.status).phase == Phase.Pending ==> Decoded(row.status).desired == 0)
  }

  ghost predicate FanOutInv(db: Database, id: DeploymentId) {
    if id in db.deployments then Tidy(db.tables, id, db.deployments[id])
    else Parents(db.tables, id) == {} && Children(db.tables, id) == {}
  }

  lemma HeldKept(w: World, s: Step)
    requires HeldInv(w)
    ensures HeldInv(Do(w, s))
  {
  }

  lemma TidyAfterTraffic(a: Tables, b: Tables, id: DeploymentId, row: DeploymentRow)
    requires Tidy(a, id, row) && IsTraffic(a, b)
    ensures Tidy(b, id, row)
  {
    TrafficKeepsTasks(a, b, DEPLOY_KIND, id);
    TrafficKeepsTasks(a, b, START_KIND, id);
    forall t | t in Children(b, id) ensures IsChildOf(b, t, id, row) {
      assert IsChildOf(a, t, id, row);
    }
  }

  /** Only the desired count and the way to Pending matter. */
  lemma TidyAfterEdit(db: Tables, id: DeploymentId, row: DeploymentRow, edited: DeploymentRow)
    requires Tidy(db, id, row) && SameModel(row, edited)
    requires Decoded(edited.status).desired == Decoded(row.status).desired
    requires Decoded(edited.status).phase == Phase.Pending ==> Decoded(row.status).phase == Phase.Pending
    ensures Tidy(db, id, edited)
  {
    forall t | t in Children(db, id) ensures IsChildOf(db, t, id, edited) {
      assert IsChildOf(db, t, id, row);
    }
  }

  lemma NodesDiffer(r: Tables, id: DeploymentId, snapshot: DeploymentRow, see: Readings, keys: Keys, now: Time)
    requires Distinct(see.nodes) && |keys.children| == |see.nodes|
    requires forall i :: 0 <= i < |keys.children| ==>
               keys.children[i] in r.tasks
               && r.tasks[keys.children[i]]
                   == ChildRow(keys.parent, see.nodes[i], ChildPayload(id, snapshot, see.runtime), now)
    ensures forall t, u :: t in keys.children && u in keys.children && t != u ==>
              r.tasks[t].targetNode != r.tasks[u].targetNode
  {
    forall t, u | t in keys.children && u in keys.children && t != u
      ensures r.tasks[t].targetNode != r.tasks[u].targetNode
    {
      var i :| 0 <= i < |keys.children| && keys.children[i] == t;
      var j :| 0 <= j < |keys.children| && keys.children[j] == u;
      assert see.nodes[i] != see.nodes[j];
    }
  }

  lemma TidyAfterFanOut(
    db: Tables, r: Tables, id: DeploymentId, row: DeploymentRow, snapshot: DeploymentRow, see: Readings, keys: Keys,
    now: Time)
    requires Tidy(db, id, row) && FansOut(Decoded(row.status), see.nodes) && SameModel(snapshot, row)
    requires Distinct(see.nodes) && |keys.children| == |see.nodes|
    requires FanOutTx(db, keys.parent, keys.children, see.nodes, ParentPayload(id, snapshot, see.runtime),
                      ChildPayload(id, snapshot, see.runtime), now) == Some(r)
    ensures Tidy(r, id, row.(status := Parsed(ReconciledStatus(Decoded(row.status), see))))
  {
    FanOutRows(db, r, id, snapshot, see, keys, now);
    FanOutAddsTasks(db, r, id, snapshot, see, keys, now, id);
    DistinctCount(keys.children);
    assert Parents(db, id) == {} && Children(db, id) == {};
    forall t | t in Children(r, id) ensures IsChildOf(r, t, id, row) {
      assert t in keys.children;
    }
    NodesDiffer(r, id, snapshot, see, keys, now);
  }

  lemma OtherDeploymentKept(
    db: Database, r: Tables, listed: Listed, see: Readings, keys: Keys, now: Time, id: DeploymentId)
    requires FanOutInv(db, id) && id != listed.id && |keys.children| == |see.nodes|
    requires FanOutTx(db.tables, keys.parent, keys.children, see.nodes,
                      ParentPayload(listed.id, listed.row, see.runtime),
                      ChildPayload(listed.id, listed.row, see.runtime), now) == Some(r)
    ensures FanOutInv(db.(tables := r), id)
  {
    FanOutRows(db.tables, r, listed.id, listed.row, see, keys, now);
    FanOutAddsTasks(db.tables, r, listed.id, listed.row, see, keys, now, id);
    if id in db.deployments {
      forall t | t in Children(r, id) ensures IsChildOf(r, t, id, db.deployments[id]) {
        assert IsChildOf(db.tables, t, id, db.deployments[id]);
      }
    }
  }

  lemma ReconcileKeepsTidy(w: World, s: Step, id: DeploymentId)
    requires HeldInv(w) && FanOutInv(w.db, id) && s.Reconcile? && Enabled(w, s)
    ensures FanOutInv(Do(w, s).db, id)
  {
    var row := w.db.deployments[s.listed.id];
    var r := Do(w, s).db.tables;
    OtherPhasesAreFixed(Decoded(row.status), s.see);
    if FansOut(Decoded(row.status), s.see.nodes) {
      if id == s.listed.id {
        TidyAfterFanOut(w.db.tables, r, id, row, s.listed.row, s.see, s.keys, s.now);
      } else {
        OtherDeploymentKept(w.db, r, s.listed, s.see, s.keys, s.now, id);
      }
    } else if id == s.listed.id {
      TidyAfterEdit(w.db.tables, id, row, Do(w, s).db.deployments[id]);
    }
  }

  lemma FanOutKept(w: World, s: Step, id: DeploymentId)
    requires HeldInv(w) && FanOutInv(w.db, id) && NeverReset([s], id)
    ensures FanOutInv(Do(w, s).db, id)
  {
    if Enabled(w, s) {
      match s
      case Traffic(tables) =>
        if id in w.db.deployments {
          TidyAfterTraffic(w.db.tables, tables, id, w.db.deployments[id]);
        } else {
          TrafficKeepsTasks(w.db.tables, tables, DEPLOY_KIND, id);
          TrafficKeepsTasks(w.db.tables, tables, START_KIND, id);
        }
      case Reconcile(_, _, _, _, _) => ReconcileKeepsTidy(w, s, id);
      case Update(edit) =>
        if edit.id == id {
          assert s in [s];
          TidyAfterEdit(w.db.tables, id, w.db.deployments[id], Do(w, s).db.deployments[id]);
        }
      case _ =>
    }
  }

  lemma {:induction false} FanOutInvAlways(w: World, steps: seq<Step>, id: DeploymentId)
    requires Init(w) && NeverReset(steps, id)
    ensures HeldInv(Run(w, steps)) && FanOutInv(Run(w, steps).db, id)
  {
    if |steps| > 0 {
      var n := |steps| - 1;
      assert forall s :: s in steps[..n] ==> s in steps;
      FanOutInvAlways(w, steps[..n], id);
      HeldKept(Run(w, steps[..n]), steps[n]);
      FanOutKept(Run(w, steps[..n]), steps[n], id);
    }
  }

  /**
   If no operator puts the deployment back to Pending, it has at most one parent task ever, and as many
   children as its status desires: one per distinct node, for the deployment's model, all under that parent.
   */
  lemma FansOutOnce(w: World, steps: seq<Step>, id: DeploymentId)
    requires Init(w) && NeverReset(steps, id) && id in Run(w, steps).db.deployments
    ensures FanOuts(w, steps, id) <= 1
    ensures Tidy(Run(w, steps).db.tables, id, Run(w, steps).db.deployments[id])
  {
    FanOutInvAlways(w, steps, id);
    OneParentPerFanOut(w, steps, id);
  }

  // ---- phases ----

  /** Pending, then RollingOut, then Active or Failed; or never moved by a reconcile at all. */
  predicate Forward(a: Phase, b: Phase) {
    || a == b
    || (a == Phase.Pending && b in {RollingOut, Active, Phase.Failed})
    || (a == RollingOut && b in {Active, Phase.Failed})
  }

  /** A reconcile moves phases forward only, of its own deployment only, whatever operators did before. */
  lemma ReconcileMovesForward(w: World, s: Step, id: DeploymentId)
    requires s.Reconcile? && id in w.db.deployments
    ensures var v := Do(w, s);
            && id in v.db.deployments
            && Forward(Decoded(w.db.deployments[id].status).phase, Decoded(v.db.deployments[id].status).phase)
            && (id != s.listed.id ==> v.db.deployments[id] == w.db.deployments[id])
            && (id == s.listed.id && Decoded(w.db.deployments[id].status).phase in {Active, Phase.Failed, Paused} ==>
                  Decoded(v.db.deployments[id].status) == Decoded(w.db.deployments[id].status)
                  && v.db.tables == w.db.tables)
  {
  }

  ghost predicate PhaseInv(row: DeploymentRow) {
    && row.status.Parsed?
    && row.status.status.phase in {Phase.Pending, RollingOut, Active, Phase.Failed}
    && (row.status.status.phase != Phase.Pending ==> Agrees(row))
  }

  lemma PhaseKept(w: World, s: Step, id: DeploymentId)
    requires id in Do(w, s).db.deployments && NeverEdited([s])
    requires id in w.db.deployments ==> PhaseInv(w.db.deployments[id])
    ensures PhaseInv(Do(w, s).db.deployments[id])
    ensures id in w.db.deployments ==>
              Forward(w.db.deployments[id].status.status.phase, Do(w, s).db.deployments[id].status.status.phase)
  {
    assert s in [s];
    if Enabled(w, s) && s.Reconcile? && id == s.listed.id {
      if w.db.deployments[id].status.status.phase in {Phase.Pending, RollingOut} {
        StoredPhaseIsSound(w.db.deployments[id], s.see);
      }
    }
  }

  /**
   Without operator phase edits every stored phase past Pending is the one the rollout checker suggests
   from the stored counts, and the deployment is complete exactly when it is not rolling out.
   */
  lemma {:induction false} PhasesAreSound(w: World, steps: seq<Step>, id: DeploymentId)
    requires Init(w) && NeverEdited(steps) && id in Run(w, steps).db.deployments
    ensures PhaseInv(Run(w, steps).db.deployments[id])
  {
    if |steps| > 0 {
      var n := |steps| - 1;
      assert forall s :: s in steps[..n] ==> s in steps;
      if id in Run(w, steps[..n]).db.deployments {
        PhasesAreSound(w, steps[..n], id);
      }
      PhaseKept(Run(w, steps[..n]), steps[n], id);
    }
  }

  /** Without operator phase edits a deployment's phases only move forward, over any stretch of the run. */
  lemma {:induction false} PhasesMoveForward(w: World, steps: seq<Step>, i: nat, id: DeploymentId)
    requires Init(w) && NeverEdited(steps) && i <= |steps| && id in Run(w, steps[..i]).db.deployments
    ensures id in Run(w, steps).db.deployments
    ensures Forward(Decoded(Run(w, steps[..i]).db.deployments[id].status).phase,
                    Decoded(Run(w, steps).db.deployments[id].status).phase)
    decreases |steps|
  {
    if i == |steps| {
      assert steps[..i] == steps;
      PhasesAreSound(w, steps, id);
    } else {
      var n := |steps| - 1;
      assert steps[..n][..i] == steps[..i];
      assert forall s :: s in steps[..n] ==> s in steps;
      PhasesMoveForward(w, steps[..n], i, id);
      PhasesAreSound(w, steps[..n], id);
      PhaseKept(Run(w, steps[..n]), steps[n], id);
    }
  }

  // ---- the task protocol is such traffic ----

  /** Every step of the task protocol but a fan-out is traffic, unless a client signs a task as the controller's. */
  lemma ProtocolIsTraffic(w: TaskProtocol.World, s: TaskProtocol.Step)
    requires !s.FanOut? && (s.Create? ==> s.req.createdBy != CONTROLLER)
    ensures IsTraffic(w.db, TaskProtocol.Do(w, s).db)
  {
    TaskProtocol.TablesAdvance(w, s);
    if s.Expand? {
      assert ("gateway:" + s.push.gateway)[0] == 'g' && CONTROLLER[0] == 'c';
    } else if s.Pull? {
      if s.node != "" && IsPullAnswer(w.db.tasks, s.answer, s.node, s.gateway, s.locked, PullLimit(s.maxTasks)) {
        PullExactly(w.db, s.answer, s.gateway);
      }
    }
  }
}
