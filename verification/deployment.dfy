/**
 The deployment controller and the deployment service: their transactions as functions on the
 database's contents, and the object that runs them statement by statement. A transaction that
 fails anywhere is rolled back.
 */
module Deployment {
  import opened Wrappers
  import opened TaskTables
  import opened Rollout

  type DeploymentId = string

  const DEFAULT_RUNTIME := "llamacpp"

  datatype Database = Database(tables: Tables, deployments: map<DeploymentId, DeploymentRow>)

  datatype EdgeNode = EdgeNode(gateway: string, labels: map<string, string>, online: bool)

  /** The selector is None when its text does not decode. */
  datatype Profile = Profile(selector: Option<map<string, string>>, runtime: string)

  datatype StateKey = StateKey(node: NodeId, model: string, version: string)

  datatype RuntimeState = RuntimeState(runtime: string, status: string, metrics: string)

  type RuntimeStates = map<StateKey, RuntimeState>

  /** What a controller has read before its transaction, and inside it without a lock. */
  datatype Readings = Readings(nodes: seq<NodeId>, runtime: string, ready: nat, failed: nat)

  /** The keys the database gives to the new tasks. */
  datatype Keys = Keys(parent: TaskId, children: seq<TaskId>)

  // ---- what the controller reads ----

  /** A label that is absent compares as unknown and so never matches. */
  predicate Targeted(node: EdgeNode, gateways: seq<string>, labels: map<string, string>) {
    && node.online
    && (|gateways| > 0 ==> node.gateway in gateways)
    && (forall k :: k in labels ==> k in node.labels && node.labels[k] == labels[k])
  }

  /** The target nodes, each once; the query asks for no order. */
  ghost predicate IsNodeListing(nodes: seq<NodeId>, table: map<NodeId, EdgeNode>, target: TargetJson) {
    && target.TargetParsed?
    && Distinct(nodes)
    && (forall n :: n in nodes <==> n in table && Targeted(table[n], target.gateways, target.labels))
  }

  predicate MatchesSelector(selector: map<string, string>, model: string) {
    |selector| == 0 || ("model_name" in selector ==> selector["model_name"] == model)
  }

  /** The profile decodes, and names this model or none. */
  predicate ProfileApplies(p: Profile, model: string) {
    p.selector.Some? && ("model_name" !in p.selector.value || p.selector.value["model_name"] == model)
  }

  /** `r` is the runtime of the first profile that applies, and the default when none does. */
  predicate IsResolved(r: string, runtime: string, model: string, profiles: seq<Profile>) {
    if runtime != "auto" then r == runtime
    else if exists i :: 0 <= i < |profiles| && ProfileApplies(profiles[i], model) then
      exists i :: 0 <= i < |profiles| && ProfileApplies(profiles[i], model) && r == profiles[i].runtime
                  && forall j :: 0 <= j < i ==> !ProfileApplies(profiles[j], model)
    else r == "llamacpp"
  }

  method ResolveRuntime(runtime: string, model: string, profiles: seq<Profile>) returns (r: string)
    ensures IsResolved(r, runtime, model, profiles)
  {
    if runtime != "auto" {
      return runtime;
    }
    for i := 0 to |profiles|
      invariant forall j :: 0 <= j < i ==> !ProfileApplies(profiles[j], model)
    {
      if profiles[i].selector.Some? && MatchesSelector(profiles[i].selector.value, model) {
        return profiles[i].runtime;
      }
    }
    return DEFAULT_RUNTIME;
  }

  // ---- runtime states ----

  function StatesWith(states: RuntimeStates, model: string, version: string, status: string): set<StateKey> {
    set k | k in states && k.model == model && k.version == version && states[k].status == status
  }

  /** The counts are per model name and version, whatever deployment a node belongs to. */
  function CountStates(states: RuntimeStates, model: string, version: string): (r: (nat, nat)) {
    (|StatesWith(states, model, version, "Running")|, |StatesWith(states, model, version, "Failed")|)
  }

  function UpsertTx(states: RuntimeStates, k: StateKey, s: RuntimeState): RuntimeStates {
    states[k := s]
  }

  /** 1 when the key's row is counted under the status, else 0. */
  function Counted(states: RuntimeStates, k: StateKey, status: string): int {
    if k in states && states[k].status == status then 1 else 0
  }

  /** A report moves its own node from one count to another and no other node, model or version. */
  lemma UpsertMovesOneNode(
    states: RuntimeStates, k: StateKey, s: RuntimeState, model: string, version: string, status: string)
    ensures |StatesWith(UpsertTx(states, k, s), model, version, status)|
         == |StatesWith(states, model, version, status)|
            + if k.model == model && k.version == version then
                (if s.status == status then 1 else 0) - Counted(states, k, status)
              else 0
  {
    var before := StatesWith(states, model, version, status);
    var after := StatesWith(UpsertTx(states, k, s), model, version, status);
    OthersStayCounted(states, k, s, model, version, status);
    SizeWithout(before, k);
    SizeWithout(after, k);
  }

  lemma OthersStayCounted(
    states: RuntimeStates, k: StateKey, s: RuntimeState, model: string, version: string, status: string)
    ensures StatesWith(UpsertTx(states, k, s), model, version, status) - {k}
        == StatesWith(states, model, version, status) - {k}
    ensures k in StatesWith(states, model, version, status) <==>
              k.model == model && k.version == version && Counted(states, k, status) == 1
    ensures k in StatesWith(UpsertTx(states, k, s), model, version, status) <==>
              k.model == model && k.version == version && s.status == status
  {
  }

  lemma SizeWithout<T>(s: set<T>, x: T)
    ensures |s - {x}| == |s| - if x in s then 1 else 0
  {
  }

  // ---- transactions ----

  function ParentPayload(id: DeploymentId, snapshot: DeploymentRow, runtime: string): Payload {
    Object(map["deployment_id" := id, "model_name" := snapshot.modelName,
               "model_version" := snapshot.modelVersion, "runtime" := runtime])
  }

  function ChildPayload(id: DeploymentId, snapshot: DeploymentRow, runtime: string): Payload {
    Object(map["deployment_id" := id, "model_name" := snapshot.modelName,
               "model_version" := snapshot.modelVersion, "runtime" := runtime, "action" := "StartRuntime"])
  }

  predicate FansOut(st: DeploymentStatus, nodes: seq<NodeId>) {
    st.phase == Phase.Pending && |nodes| > 0
  }

  function Started(st: DeploymentStatus, nodes: seq<NodeId>): DeploymentStatus {
    if FansOut(st, nodes) then st.(phase := RollingOut, desired := |nodes|) else st
  }

  function Aggregated(st: DeploymentStatus, ready: nat, failed: nat): DeploymentStatus {
    if st.phase != RollingOut then st
    else
      var counted := st.(ready := ready, failed := failed);
      if ready >= counted.desired then counted.(phase := Active)
      else if failed > 0 && ready + failed >= counted.desired then counted.(phase := Phase.Failed)
      else counted
  }

  function ReconciledStatus(st: DeploymentStatus, see: Readings): DeploymentStatus {
    Aggregated(Started(st, see.nodes), see.ready, see.failed)
  }

  function PutDeployment(db: Database, id: DeploymentId, row: DeploymentRow): Database {
    db.(deployments := db.deployments[id := row])
  }

  /** `snapshot` is the row as the controller listed it, perhaps long ago; only the status is read again. */
  function ReconcileTx(
    db: Database, id: DeploymentId, snapshot: DeploymentRow, see: Readings, keys: Keys, now: Time): Option<Database>
    requires |keys.children| == |see.nodes|
  {
    if id !in db.deployments then None
    else
      var row := db.deployments[id];
      var st := Decoded(row.status);
      var stored := row.(status := Parsed(ReconciledStatus(st, see)));
      if !FansOut(st, see.nodes) then Some(PutDeployment(db, id, stored))
      else
        match FanOutTx(db.tables, keys.parent, keys.children, see.nodes,
                       ParentPayload(id, snapshot, see.runtime), ChildPayload(id, snapshot, see.runtime), now)
        case None => None
        case Some(tables) => Some(PutDeployment(db.(tables := tables), id, stored))
  }

  datatype CreateDeploymentRequest = CreateDeploymentRequest(
    modelName: string, modelVersion: string, gateways: seq<string>, labels: map<string, string>, runtime: string,
    maxUnavailable: Option<int>)

  function NewDeployment(req: CreateDeploymentRequest): DeploymentRow {
    DeploymentRow(
      req.modelName, req.modelVersion, TargetParsed(req.gateways, req.labels),
      if req.runtime == "" then "auto" else req.runtime,
      RolloutParsed(if req.maxUnavailable.Some? && req.maxUnavailable.value > 0 then req.maxUnavailable.value else 1),
      Parsed(DeploymentStatus(0, 0, 0, Phase.Pending)))
  }

  function CreateDeploymentTx(db: Database, id: DeploymentId, req: CreateDeploymentRequest): Result<Database, Failure> {
    if req.modelName == "" || req.modelVersion == "" then Err(InvalidArgument)
    else if id in db.deployments then Err(Internal)
    else Ok(PutDeployment(db, id, NewDeployment(req)))
  }

  /** `phase` is what the operator asks for; a phase edit keeps the counts. */
  datatype UpdateRequest = UpdateRequest(
    id: DeploymentId, runtime: string, maxUnavailable: Option<int>, phase: Option<Phase>)

  function Edited(row: DeploymentRow, req: UpdateRequest): DeploymentRow {
    row.(runtime := if req.runtime != "" then req.runtime else row.runtime,
         rollout := if req.maxUnavailable.Some? then RolloutParsed(req.maxUnavailable.value) else row.rollout,
         status := if req.phase.Some? then Parsed(Decoded(row.status).(phase := req.phase.value)) else row.status)
  }

  /** Same model, same target and same counts; phase, runtime and rollout may differ. */
  predicate KeepsCounts(a: DeploymentRow, b: DeploymentRow) {
    && a.modelName == b.modelName && a.modelVersion == b.modelVersion && a.target == b.target
    && Decoded(a.status).(phase := Phase.Pending) == Decoded(b.status).(phase := Phase.Pending)
  }

  function UpdateDeploymentTx(db: Database, req: UpdateRequest): Result<Database, Failure> {
    if req.id == "" then Err(InvalidArgument)
    else if req.id !in db.deployments then Err(NotFound)
    else Ok(PutDeployment(db, req.id, Edited(db.deployments[req.id], req)))
  }

  // ---- what a reconcile stores ----

  /** The tasks of a fan-out, spelled out. */
  ghost predicate IsFanOut(
    a: Tables, b: Tables, id: DeploymentId, snapshot: DeploymentRow, runtime: string, nodes: seq<NodeId>,
    payload: Payload, keys: Keys, now: Time)
    requires |keys.children| == |nodes|
  {
    && keys.parent !in a.tasks && keys.parent in b.tasks
    && b.tasks[keys.parent]
       == TaskRow(None, Region, "DeployModel", Status.Pending, None, None, payload,
                  None, Unclaimed, None, None, 3, 0, 600, "controller", now)
    && (forall i :: 0 <= i < |nodes| ==>
          && keys.children[i] !in a.tasks && keys.children[i] in b.tasks
          && b.tasks[keys.children[i]]
             == TaskRow(Some(keys.parent), Node, "StartRuntime", Status.Pending, None, Some(nodes[i]),
                        Object(map["deployment_id" := id, "model_name" := snapshot.modelName,
                                   "model_version" := snapshot.modelVersion, "runtime" := runtime,
                                   "action" := "StartRuntime"]),
                        None, Unclaimed, None, None, 3, 0, 600, "controller", now))
    && (forall t :: t in a.tasks ==> t in b.tasks && b.tasks[t] == a.tasks[t])
    && (forall t :: t in b.tasks ==> t in a.tasks || t == keys.parent || t in keys.children)
    && b.runs == a.runs && b.events == a.events
  }

  lemma FanOutInWords(
    a: Tables, b: Tables, id: DeploymentId, snapshot: DeploymentRow, runtime: string, nodes: seq<NodeId>,
    payload: Payload, keys: Keys, now: Time)
    requires |keys.children| == |nodes|
    requires FanOutTx(a, keys.parent, keys.children, nodes, payload, ChildPayload(id, snapshot, runtime), now)
        == Some(b)
    ensures IsFanOut(a, b, id, snapshot, runtime, nodes, payload, keys, now)
  {
    var d := PutTask(a, keys.parent, ParentRow(payload, now));
    AddChildrenExactly(d, keys.parent, keys.children, nodes, ChildPayload(id, snapshot, runtime), now);
  }

  /**
   The status after a reconcile, spelled out: counts and phase of a row that is or starts rolling out, else as
   before.
   */
  predicate IsReconciled(st: DeploymentStatus, after: DeploymentStatus, nodes: seq<NodeId>, ready: nat, failed: nat) {
    var starts := st.phase == Phase.Pending && |nodes| > 0;
    if starts || st.phase == RollingOut then
      && after.desired == (if starts then |nodes| else st.desired)
      && after.ready == ready && after.failed == failed
      && (after.phase == Active <==> after.desired <= ready)
      && (after.phase == Phase.Failed <==> ready < after.desired && 0 < failed && after.desired <= ready + failed)
      && after.phase in {RollingOut, Active, Phase.Failed}
    else after == st
  }

  /**
   Whatever was edited before: what a reconcile makes of a Pending or rolling-out row has a phase that its counts
   justify.
   */
  lemma StoredPhaseIsSound(row: DeploymentRow, see: Readings)
    requires Decoded(row.status).phase in {Phase.Pending, RollingOut}
    ensures var st := ReconciledStatus(Decoded(row.status), see);
            st.phase != Phase.Pending ==>
                Agrees(row.(status := Parsed(st))) && st.phase in {RollingOut, Active, Phase.Failed}
  {
  }

  /** Any other phase is a fixed point, however stale the readings. */
  lemma OtherPhasesAreFixed(st: DeploymentStatus, see: Readings)
    ensures st.phase !in {Phase.Pending, RollingOut} ==> ReconciledStatus(st, see) == st
    ensures ReconciledStatus(st, see).phase == Phase.Pending <==> st.phase == Phase.Pending && |see.nodes| == 0
  {
  }

  class DeploymentDatabase {
    var tables: Tables
    var deployments: map<DeploymentId, DeploymentRow>
    var states: RuntimeStates

    function Contents(): Database
      reads this
    {
      Database(tables, deployments)
    }

    constructor ()
      ensures Contents() == Database(EMPTY, map[]) && states == map[]
    {
      tables, deployments, states := EMPTY, map[], map[];
    }

    method InsertTask(id: TaskId, row: TaskRow, fault: bool) returns (ok: bool)
      modifies this`tables
      ensures ok <==> !fault && CanInsert(old(tables), id, row.parent)
      ensures tables == if ok then PutTask(old(tables), id, row) else old(tables)
    {
      ok := !fault && CanInsert(tables, id, row.parent);
      if ok {
        tables := PutTask(tables, id, row);
      }
    }

    /** Statement number 0 inserts the parent, statement `i + 1` the child of node `i`. */
    method CreateDeploymentTask(
      id: DeploymentId, snapshot: DeploymentRow, runtime: string, nodes: seq<NodeId>, payload: Payload,
      keys: Keys, now: Time, failAt: nat) returns (ok: bool)
      requires |keys.children| == |nodes|
      modifies this`tables
      ensures var done := FanOutTx(old(tables), keys.parent, keys.children, nodes, payload,
                                   ChildPayload(id, snapshot, runtime), now);
              && (ok <==> done.Some? && failAt > |nodes|)
              && (ok ==> tables == done.value)
      ensures ok ==> IsFanOut(old(tables), tables, id, snapshot, runtime, nodes, payload, keys, now)
    {
      ok := InsertTask(keys.parent, ParentRow(payload, now), failAt == 0);
      if !ok {
        return;
      }
      ghost var start := tables;
      var down := ChildPayload(id, snapshot, runtime);
      var i := 0;
      while i < |nodes|
        invariant 0 <= i <= |nodes| && (failAt > i)
        invariant AddChildren(start, keys.parent, keys.children[..i], nodes[..i], down, now) == Some(tables)
      {
        Prefixes(start, keys.parent, keys.children, nodes, down, now, i);
        ok := InsertTask(keys.children[i], ChildRow(keys.parent, nodes[i], down, now), failAt == i + 1);
        if !ok {
          return;
        }
        i := i + 1;
      }
      assert keys.children[..i] == keys.children && nodes[..i] == nodes;
      FanOutInWords(old(tables), tables, id, snapshot, runtime, nodes, payload, keys, now);
    }

    method UpdateDeploymentStatus(id: DeploymentId, status: StatusJson, fault: bool) returns (ok: bool)
      modifies this`deployments
      ensures ok <==> !fault && id in old(deployments)
      ensures deployments == if ok then old(deployments)[id := old(deployments)[id].(status := status)]
                             else old(deployments)
    {
      ok := !fault && id in deployments;
      if ok {
        deployments := deployments[id := deployments[id].(status := status)];
      }
    }

    /**
     One deployment's turn, from the controller's listed row to the commit. `fault` says whether a read
     before the transaction fails; in the transaction, reading the row is statement 0, the fan-out takes
     the next `|nodes| + 1`, then come the counting, the writing of the status and the commit.
     */
    method ReconcileOne(
      id: DeploymentId, snapshot: DeploymentRow, nodes: seq<NodeId>, profiles: seq<Profile>,
      ghost table: map<NodeId, EdgeNode>,
      seen: RuntimeStates, keys: Keys, now: Time, fault: bool, failAt: nat) returns (ok: bool, ghost see: Readings)
      requires snapshot.target.TargetParsed? ==> IsNodeListing(nodes, table, snapshot.target)
      requires |keys.children| == |nodes|
      modifies this`tables, this`deployments
      ensures see.nodes == nodes && IsResolved(see.runtime, snapshot.runtime, snapshot.modelName, profiles)
              && (see.ready, see.failed) == CountStates(seen, snapshot.modelName, snapshot.modelVersion)
      ensures var done := ReconcileTx(old(Contents()), id, snapshot, see, keys, now);
              && (ok ==> done.Some? && Contents() == done.value)
              && (!fault && snapshot.target.TargetParsed? && failAt > |nodes| + 4 ==> ok == done.Some?)
      ensures see.ready == |set k | k in seen && k.model == snapshot.modelName && k.version == snapshot.modelVersion
                                   && seen[k].status == "Running"|
      ensures see.failed == |set k | k in seen && k.model == snapshot.modelName && k.version == snapshot.modelVersion
                                    && seen[k].status == "Failed"|
      ensures snapshot.target.TargetParsed? ==>
                forall n :: n in nodes <==>
                  && n in table && table[n].online
                  && (snapshot.target.gateways == [] || table[n].gateway in snapshot.target.gateways)
                  && forall k :: k in snapshot.target.labels ==>
                       k in table[n].labels && table[n].labels[k] == snapshot.target.labels[k]
      ensures ok ==>
                && id in old(deployments) && id in deployments
                && deployments == old(deployments)[id := old(deployments)[id].(status := deployments[id].status)]
                && deployments[id].status.Parsed?
                && var st := Decoded(old(deployments)[id].status);
                   && IsReconciled(st, deployments[id].status.status, nodes, see.ready, see.failed)
                   && if st.phase == Phase.Pending && |nodes| > 0 then
                        IsFanOut(old(tables), tables, id, snapshot, see.runtime, nodes,
                                 Object(map["deployment_id" := id, "model_name" := snapshot.modelName,
                                            "model_version" := snapshot.modelVersion, "runtime" := see.runtime]),
                                 keys, now)
                      else tables == old(tables)
      ensures !ok ==> Contents() == old(Contents())
      ensures snapshot.target.TargetMalformed? || fault ==> !ok
    {
      var runtime := ResolveRuntime(snapshot.runtime, snapshot.modelName, profiles);
      var counts := CountStates(seen, snapshot.modelName, snapshot.modelVersion);
      see := Readings(nodes, runtime, counts.0, counts.1);
      if snapshot.target.TargetMalformed? || fault || failAt == 0 || id !in deployments {
        return false, see;
      }
      var saved := tables;
      var st := Decoded(deployments[id].status);
      if st.phase == Phase.Pending && |nodes| > 0 {
        ok := CreateDeploymentTask(id, snapshot, runtime, nodes, ParentPayload(id, snapshot, runtime), keys, now,
            failAt - 1);
        if !ok {
          tables := saved;
          return;
        }
        st := st.(phase := RollingOut, desired := |nodes|);
      }
      if st.phase == RollingOut {
        if failAt == |nodes| + 2 {
          tables := saved;
          return false, see;
        }
        st := st.(ready := counts.0, failed := counts.1);
        if counts.0 >= st.desired {
          st := st.(phase := Active);
        } else if counts.1 > 0 && counts.0 + counts.1 >= st.desired {
          st := st.(phase := Phase.Failed);
        }
      }
      var before := deployments;
      ok := UpdateDeploymentStatus(id, Parsed(st), failAt == |nodes| + 3);
      if !ok || failAt == |nodes| + 4 {
        tables, deployments, ok := saved, before, false;
      }
    }

    method CreateDeployment(req: CreateDeploymentRequest, id: DeploymentId, fault: bool)
      returns (r: Result<DeploymentRow, Failure>)
      modifies this`deployments
      ensures r.Ok? <==> !fault && CreateDeploymentTx(old(Contents()), id, req).Ok?
      ensures r == Err(InvalidArgument) <==> req.modelName == "" || req.modelVersion == ""
      ensures r.Ok? ==> CreateDeploymentTx(old(Contents()), id, req) == Ok(Contents()) && r.value == deployments[id]
      ensures r.Ok? ==> r.value.status == Parsed(DeploymentStatus(0, 0, 0, Phase.Pending)) && r.value.runtime != ""
                        && r.value.rollout.RolloutParsed? && r.value.rollout.maxUnavailable > 0
      ensures r.Ok? ==>
                && deployments == old(deployments)[id := r.value]
                && r.value.modelName == req.modelName && r.value.modelVersion == req.modelVersion
                && r.value.target == TargetParsed(req.gateways, req.labels)
                && (req.runtime == "" ==> r.value.runtime == "auto")
                && (req.runtime != "" ==> r.value.runtime == req.runtime)
                && (req.maxUnavailable.Some? && req.maxUnavailable.value > 0 ==>
                      r.value.rollout.maxUnavailable == req.maxUnavailable.value)
                && ((req.maxUnavailable.Some? && req.maxUnavailable.value > 0) || r.value.rollout.maxUnavailable == 1)
      ensures r.Err? ==> deployments == old(deployments)
    {
      if req.modelName == "" || req.modelVersion == "" {
        return Err(InvalidArgument);
      }
      if fault || id in deployments {
        return Err(Internal);
      }
      var runtime := req.runtime;
      if runtime == "" {
        runtime := "auto";
      }
      var limit := 1;
      if req.maxUnavailable.Some? && req.maxUnavailable.value > 0 {
        limit := req.maxUnavailable.value;
      }
      var row := DeploymentRow(req.modelName, req.modelVersion, TargetParsed(req.gateways, req.labels), runtime,
                               RolloutParsed(limit), Parsed(DeploymentStatus(0, 0, 0, Phase.Pending)));
      deployments := deployments[id := row];
      return Ok(row);
    }

    /** Statement 0 reads the row, 1 writes it, 2 is the commit. */
    method UpdateDeployment(req: UpdateRequest, failAt: nat) returns (r: Result<DeploymentRow, Failure>)
      modifies this`deployments
      ensures r.Ok? <==> UpdateDeploymentTx(old(Contents()), req).Ok? && failAt > 2
      ensures r.Err? && failAt > 2 ==> r.error == UpdateDeploymentTx(old(Contents()), req).error
      ensures r.Ok? ==> UpdateDeploymentTx(old(Contents()), req) == Ok(Contents()) && r.value == deployments[req.id]
      ensures r.Ok? ==> KeepsCounts(old(deployments)[req.id], r.value)
                        && (req.phase == None ==> r.value.status == old(deployments)[req.id].status)
      ensures r.Ok? ==>
                var was := old(deployments)[req.id];
                && deployments == old(deployments)[req.id := r.value]
                && (req.phase.Some? ==> r.value.status.Parsed? && r.value.status.status.phase == req.phase.value)
                && r.value.runtime == (if req.runtime == "" then was.runtime else req.runtime)
                && (req.maxUnavailable == None ==> r.value.rollout == was.rollout)
                && (req.maxUnavailable.Some? ==> r.value.rollout == RolloutParsed(req.maxUnavailable.value))
      ensures failAt > 2 ==>
                && (r == Err(InvalidArgument) <==> req.id == "")
                && (r == Err(NotFound) <==> req.id != "" && req.id !in old(deployments))
                && (r.Ok? <==> req.id != "" && req.id in old(deployments))
      ensures r.Err? ==> deployments == old(deployments)
    {
      if req.id == "" {
        return Err(InvalidArgument);
      }
      if failAt == 0 {
        return Err(Internal);
      }
      if req.id !in deployments {
        return Err(NotFound);
      }
      var row := deployments[req.id];
      if req.runtime != "" {
        row := row.(runtime := req.runtime);
      }
      if req.maxUnavailable.Some? {
        row := row.(rollout := RolloutParsed(req.maxUnavailable.value));
      }
      if req.phase.Some? {
        row := row.(status := Parsed(Decoded(row.status).(phase := req.phase.value)));
      }
      if failAt <= 2 {
        return Err(Internal);
      }
      deployments := deployments[req.id := row];
      return Ok(row);
    }

    method UpsertRuntimeState(k: StateKey, s: RuntimeState, fault: bool) returns (ok: bool)
      modifies this`states
      ensures ok == !fault
      ensures states == if ok then UpsertTx(old(states), k, s) else old(states)
      ensures ok ==> states == old(states)[k := s]
    {
      ok := !fault;
      if ok {
        states := states[k := s];
      }
    }
  }

  /** A fan-out that succeeds as a whole has succeeded up to every node on the way. */
  lemma {:induction false} Prefixes(
    db: Tables, parent: TaskId, ids: seq<TaskId>, nodes: seq<NodeId>, payload: Payload, now: Time, i: nat)
    requires |ids| == |nodes| && i < |nodes|
    ensures var before := AddChildren(db, parent, ids[..i], nodes[..i], payload, now);
            var after := AddChildren(db, parent, ids[..i + 1], nodes[..i + 1], payload, now);
            && after == (if before.Some? && CanInsert(before.value, ids[i], Some(parent)) then
                           Some(PutTask(before.value, ids[i], ChildRow(parent, nodes[i], payload, now)))
                         else None)
            && (after == None ==> AddChildren(db, parent, ids, nodes, payload, now) == None)
    decreases |nodes| - i
  {
    var m := i + 1;
    assert ids[..m][..i] == ids[..i] && nodes[..m][..i] == nodes[..i];
    if m == |nodes| {
      assert ids[..m] == ids && nodes[..m] == nodes;
    } else {
      Prefixes(db, parent, ids, nodes, payload, now, m);
    }
  }
}
