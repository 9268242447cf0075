/**
 The agent's task runner. The steps of its goroutines, of its start-up drain and of a crash are
 functions on an `Agent`; the class TaskRunner holds the fields the program mutates, and its
 methods are proved against folds of those steps.
 */
module TaskRunner {
  import opened Wrappers
  import opened TaskTables

  datatype PendingResult = PendingResult(
    taskId: TaskId, nodeId: NodeId, status: string, errorMessage: string, result: string)

  /** A pending-result file: whole, or cut short by a failed or interrupted write. */
  datatype File = Readable(pr: PendingResult) | Torn

  /** How far one `executeAndReport` has come. */
  datatype Phase =
    | Executing
    | Executed(pr: PendingResult)
    | Saved(pr: PendingResult)
    | Acknowledged(pr: PendingResult)
    | Finished

  datatype Job = Job(taskId: TaskId, phase: Phase)

  /** A draining agent still has the files of `todo` to do; `acked` is the head's result once the gateway took it. */
  datatype Mode = Down | Draining(todo: seq<TaskId>, acked: Option<PendingResult>) | Polling

  datatype Agent = Agent(
    nodeId: NodeId, mode: Mode, processed: set<TaskId>, inbox: seq<NodeTask>, jobs: seq<Job>, files: map<TaskId, File>)

  datatype SaveOutcome = Written | NotWritten | Interrupted

  datatype AgentStep =
    | Boot(listing: Option<seq<TaskId>>)
    | DrainReport(readable: bool, acked: bool)
    | DrainRemove(removed: bool)
    | DrainDone
    | Receive(tasks: seq<NodeTask>)
    | Accept
    | Execute(job: nat, result: string, error: Option<string>)
    | Save(job: nat, outcome: SaveOutcome)
    | Report(job: nat, acked: bool)
    | Remove(job: nat, removed: bool)
    | Crash

  /** An execution that fails may still have a result, and both are reported. */
  function OutcomeOf(t: TaskId, node: NodeId, result: string, error: Option<string>): PendingResult {
    match error
    case None => PendingResult(t, node, "Success", "", result)
    case Some(text) => PendingResult(t, node, "Failed", text, result)
  }

  /** A write that fails midway has already truncated the old file. */
  function AfterSave(files: map<TaskId, File>, pr: PendingResult, outcome: SaveOutcome): map<TaskId, File> {
    match outcome
    case Written => files[pr.taskId := Readable(pr)]
    case NotWritten => files
    case Interrupted => files[pr.taskId := Torn]
  }

  predicate HasJob(a: Agent, j: nat) {
    a.mode == Polling && j < |a.jobs|
  }

  function SetPhase(a: Agent, j: nat, phase: Phase): Agent
    requires j < |a.jobs|
  {
    a.(jobs := a.jobs[j := a.jobs[j].(phase := phase)])
  }

  /** The listing of a directory names each of its files once. */
  ghost predicate IsDirectoryListing(listing: seq<TaskId>, files: map<TaskId, File>) {
    Distinct(listing) && forall t :: t in listing <==> t in files
  }

  /** The head of the drain, when its file can be read. */
  function DrainHead(a: Agent): Option<PendingResult> {
    if a.mode.Draining? && a.mode.acked == None && |a.mode.todo| > 0
       && a.mode.todo[0] in a.files && a.files[a.mode.todo[0]].Readable?
    then Some(a.files[a.mode.todo[0]].pr)
    else None
  }

  /** One step; a step that is not enabled leaves the agent as it is. */
  ghost function Next(a: Agent, s: AgentStep): Agent {
    match s
    case Boot(listing) =>
      if a.mode != Down then a
      else if listing == None then a.(mode := Polling)
      else if IsDirectoryListing(listing.value, a.files) then a.(mode := Draining(listing.value, None))
      else a
    case DrainReport(readable, acked) =>
      if !(a.mode.Draining? && a.mode.acked == None && |a.mode.todo| > 0) then a
      else if readable && DrainHead(a).Some? then
        var pr := DrainHead(a).value;
        a.(processed := a.processed + {pr.taskId},
           mode := if acked then Draining(a.mode.todo, Some(pr)) else Draining(a.mode.todo[1..], None))
      else a.(mode := Draining(a.mode.todo[1..], None))
    case DrainRemove(removed) =>
      if a.mode.Draining? && a.mode.acked.Some? && |a.mode.todo| > 0 then
        a.(files := if removed then a.files - {a.mode.acked.value.taskId} else a.files,
           mode := Draining(a.mode.todo[1..], None))
      else a
    case DrainDone => if a.mode.Draining? && |a.mode.todo| == 0 then a.(mode := Polling) else a
    case Receive(tasks) => if a.mode == Polling && |a.inbox| == 0 then a.(inbox := tasks) else a
    case Accept =>
      if !(a.mode == Polling && |a.inbox| > 0) then a
      else if a.inbox[0].taskId in a.processed then a.(inbox := a.inbox[1..])
      else a.(inbox := a.inbox[1..],
              processed := a.processed + {a.inbox[0].taskId},
              jobs := a.jobs + [Job(a.inbox[0].taskId, Executing)])
    case Execute(j, result, error) =>
      if HasJob(a, j) && a.jobs[j].phase.Executing? then
        SetPhase(a, j, Executed(OutcomeOf(a.jobs[j].taskId, a.nodeId, result, error)))
      else a
    case Save(j, outcome) =>
      if !(HasJob(a, j) && a.jobs[j].phase.Executed?) then a
      else
        var pr := a.jobs[j].phase.pr;
        SetPhase(a, j, Saved(pr)).(files := AfterSave(a.files, pr, outcome))
    case Report(j, acked) =>
      if HasJob(a, j) && a.jobs[j].phase.Saved? then
        SetPhase(a, j, if acked then Acknowledged(a.jobs[j].phase.pr) else Finished)
      else a
    case Remove(j, removed) =>
      if HasJob(a, j) && a.jobs[j].phase.Acknowledged? then
        SetPhase(a, j, Finished).(files := if removed then a.files - {a.jobs[j].phase.pr.taskId} else a.files)
      else a
    case Crash => Agent(a.nodeId, Down, {}, [], [], a.files)
  }

  ghost function Run(a: Agent, steps: seq<AgentStep>): Agent {
    if |steps| == 0 then a else Next(Run(a, steps[..|steps| - 1]), steps[|steps| - 1])
  }

  // ---- one process, whatever is delivered to it ----

  /** Everything in flight is marked, and no two goroutines share a task. */
  ghost predicate Deduplicated(a: Agent) {
    && (forall j :: 0 <= j < |a.jobs| ==> a.jobs[j].taskId in a.processed)
    && (forall i, j :: 0 <= i < j < |a.jobs| ==> a.jobs[i].taskId != a.jobs[j].taskId)
    && (a.mode != Polling ==> a.jobs == [])
  }

  lemma DeduplicatedNext(a: Agent, s: AgentStep)
    requires Deduplicated(a)
    ensures Deduplicated(Next(a, s))
  {
    var b := Next(a, s);
    if s.Execute? || s.Save? || s.Report? || s.Remove? {
      assert |b.jobs| == |a.jobs| && forall j :: 0 <= j < |a.jobs| ==> b.jobs[j].taskId == a.jobs[j].taskId;
    }
  }

  /**
   Under any redelivery whatsoever, and for any interleaving with crashes, a process never starts
   the same task twice: from a fresh start its goroutines have pairwise different tasks.
   */
  lemma {:induction false} NoTaskTwiceInOneProcess(a: Agent, steps: seq<AgentStep>)
    requires a.mode == Down && a.jobs == []
    ensures var jobs := Run(a, steps).jobs;
            forall i, j :: 0 <= i < j < |jobs| ==> jobs[i].taskId != jobs[j].taskId
    ensures Deduplicated(Run(a, steps))
  {
    if |steps| > 0 {
      NoTaskTwiceInOneProcess(a, steps[..|steps| - 1]);
      DeduplicatedNext(Run(a, steps[..|steps| - 1]), steps[|steps| - 1]);
    }
  }

  /** File names and contents agree: the file of a task holds that task's result. */
  ghost predicate NamedByTask(a: Agent) {
    && (forall t :: t in a.files && a.files[t].Readable? ==> a.files[t].pr.taskId == t)
    && (forall j :: 0 <= j < |a.jobs| ==>
          match a.jobs[j].phase
          case Executed(pr) => pr.taskId == a.jobs[j].taskId
          case Saved(pr) => pr.taskId == a.jobs[j].taskId
          case Acknowledged(pr) => pr.taskId == a.jobs[j].taskId
          case _ => true)
    && (a.mode.Draining? && a.mode.acked.Some? ==> |a.mode.todo| > 0 && a.mode.acked.value.taskId == a.mode.todo[0])
  }

  /** `t` is marked, or its saved result is still to be drained; either way no goroutine runs it. */
  ghost predicate Shielded(a: Agent, t: TaskId) {
    && Deduplicated(a) && NamedByTask(a)
    && (forall j :: 0 <= j < |a.jobs| ==> a.jobs[j].taskId != t)
    && (t in a.processed || (a.mode.Draining? && t in a.mode.todo && t in a.files && a.files[t].Readable?))
    && (a.mode.Draining? && a.mode.acked.Some? ==> a.mode.acked.value.taskId in a.processed)
  }

  lemma NamedByTaskNext(a: Agent, s: AgentStep)
    requires NamedByTask(a)
    ensures NamedByTask(Next(a, s))
  {
  }

  lemma ShieldedNext(a: Agent, s: AgentStep, t: TaskId)
    requires Shielded(a, t) && s != Crash && (s.DrainReport? ==> s.readable)
    ensures Shielded(Next(a, s), t)
  {
    DeduplicatedNext(a, s);
    NamedByTaskNext(a, s);
    var b := Next(a, s);
    if a.mode.Draining? && |a.mode.todo| > 0 {
      assert a.mode.todo == [a.mode.todo[0]] + a.mode.todo[1..];
    }
  }

  /**
   A task whose result lies readable on disk when a process starts is never executed by that
   process, whatever it is sent, as long as the process can list the directory and read the files.
   */
  lemma {:induction false} SavedTaskNeverReexecuted(a: Agent, t: TaskId, listing: seq<TaskId>, steps: seq<AgentStep>)
    requires a.mode == Down && a.jobs == [] && NamedByTask(a) && IsDirectoryListing(listing, a.files)
    requires t in a.files && a.files[t].Readable?
    requires forall i :: 0 <= i < |steps| ==> steps[i] != Crash && (steps[i].DrainReport? ==> steps[i].readable)
    ensures var b := Run(Next(a, Boot(Some(listing))), steps);
            Shielded(b, t) && forall j :: 0 <= j < |b.jobs| ==> b.jobs[j].taskId != t
  {
    if |steps| > 0 {
      var n := |steps| - 1;
      SavedTaskNeverReexecuted(a, t, listing, steps[..n]);
      ShieldedNext(Run(Next(a, Boot(Some(listing))), steps[..n]), steps[n], t);
    }
  }

  // ---- the program's own loops ----

  /** The tasks of a response that a process with these marks starts: first occurrences of unmarked tasks. */
  function Fresh(tasks: seq<NodeTask>, processed: set<TaskId>): seq<NodeTask> {
    if |tasks| == 0 then []
    else if tasks[0].taskId in processed then Fresh(tasks[1..], processed)
    else [tasks[0]] + Fresh(tasks[1..], processed + {tasks[0].taskId})
  }

  function Ids(tasks: seq<NodeTask>): set<TaskId> {
    set t <- tasks :: t.taskId
  }

  lemma IdsSplit(left: seq<NodeTask>, right: seq<NodeTask>)
    ensures Ids(left + right) == Ids(left) + Ids(right)
  {
    assert forall t :: t in left + right <==> t in left || t in right;
  }

  lemma FreshExactly(tasks: seq<NodeTask>, processed: set<TaskId>)
    ensures var f := Fresh(tasks, processed);
            && IdsDiffer(f)
            && (forall t :: t in f ==> t in tasks)
            && Ids(f) == Ids(tasks) - processed
  {
    FreshDiffer(tasks, processed);
    FreshAreSent(tasks, processed);
    FreshIds(tasks, processed);
  }

  /** One turn of the poll's loop. */
  lemma FreshNext(tasks: seq<NodeTask>, i: nat, processed: set<TaskId>)
    requires i < |tasks|
    ensures Ids(tasks[..i + 1]) == Ids(tasks[..i]) + {tasks[i].taskId}
    ensures Fresh(tasks[i..], processed)
         == if tasks[i].taskId in processed then Fresh(tasks[i + 1..], processed)
            else [tasks[i]] + Fresh(tasks[i + 1..], processed + {tasks[i].taskId})
  {
    assert tasks[i..][0] == tasks[i] && tasks[i..][1..] == tasks[i + 1..];
    assert tasks[..i + 1] == tasks[..i] + [tasks[i]];
    IdsSplit(tasks[..i], [tasks[i]]);
  }

  lemma FreshInWords(tasks: seq<NodeTask>, processed: set<TaskId>)
    ensures var started := Fresh(tasks, processed);
            && IdsDiffer(started)
            && (forall t :: t in started ==> t in tasks && t.taskId !in processed)
            && (forall t :: t in tasks && t.taskId !in processed ==>
                  exists s :: s in started && s.taskId == t.taskId)
            && (forall t :: t in processed + Ids(tasks) <==> t in processed || exists s :: s in tasks && s.taskId == t)
  {
    var started := Fresh(tasks, processed);
    FreshExactly(tasks, processed);
    forall t | t in started ensures t.taskId !in processed {
      assert t.taskId in Ids(started);
    }
    forall t | t in tasks && t.taskId !in processed ensures exists s :: s in started && s.taskId == t.taskId {
      assert t.taskId in Ids(tasks);
      assert t.taskId in Ids(started);
    }
  }

  lemma {:induction false} FreshAreSent(tasks: seq<NodeTask>, processed: set<TaskId>)
    ensures forall t :: t in Fresh(tasks, processed) ==> t in tasks
  {
    if |tasks| > 0 {
      FreshAreSent(tasks[1..], if tasks[0].taskId in processed then processed else processed + {tasks[0].taskId});
    }
  }

  lemma {:induction false} FreshIds(tasks: seq<NodeTask>, processed: set<TaskId>)
    ensures Ids(Fresh(tasks, processed)) == Ids(tasks) - processed
  {
    if |tasks| > 0 {
      var head := tasks[0].taskId;
      assert tasks == [tasks[0]] + tasks[1..];
      IdsSplit([tasks[0]], tasks[1..]);
      if head in processed {
        FreshIds(tasks[1..], processed);
      } else {
        FreshIds(tasks[1..], processed + {head});
        IdsSplit([tasks[0]], Fresh(tasks[1..], processed + {head}));
      }
    }
  }

  predicate IdsDiffer(tasks: seq<NodeTask>) {
    forall i, j :: 0 <= i < j < |tasks| ==> tasks[i].taskId != tasks[j].taskId
  }

  lemma {:induction false} FreshDiffer(tasks: seq<NodeTask>, processed: set<TaskId>)
    ensures IdsDiffer(Fresh(tasks, processed))
  {
    if |tasks| > 0 {
      var head := tasks[0].taskId;
      if head in processed {
        FreshDiffer(tasks[1..], processed);
      } else {
        var rest := Fresh(tasks[1..], processed + {head});
        FreshDiffer(tasks[1..], processed + {head});
        FreshIds(tasks[1..], processed + {head});
        Prepended(tasks[0], rest);
      }
    }
  }

  lemma Prepended(t: NodeTask, rest: seq<NodeTask>)
    requires IdsDiffer(rest) && t.taskId !in Ids(rest)
    ensures IdsDiffer([t] + rest)
  {
    forall j | 0 <= j < |rest| ensures rest[j].taskId in Ids(rest) {
    }
  }

  function Steps(s: AgentStep, n: nat): seq<AgentStep> {
    seq(n, i => s)
  }

  function AsJobs(tasks: seq<NodeTask>): seq<Job> {
    seq(|tasks|, i requires 0 <= i < |tasks| => Job(tasks[i].taskId, Executing))
  }

  lemma {:induction false} RunSplit(a: Agent, left: seq<AgentStep>, right: seq<AgentStep>)
    ensures Run(a, left + right) == Run(Run(a, left), right)
  {
    if |right| > 0 {
      var n := |right| - 1;
      RunSplit(a, left, right[..n]);
      assert (left + right)[..|left + right| - 1] == left + right[..n];
    } else {
      assert left + right == left;
    }
  }

  /** Working off an inbox step by step starts exactly the fresh tasks and marks every task. */
  lemma {:induction false} AcceptsStartFresh(a: Agent)
    requires a.mode == Polling
    ensures Run(a, Steps(Accept, |a.inbox|))
         == a.(inbox := [], processed := a.processed + Ids(a.inbox),
               jobs := a.jobs + AsJobs(Fresh(a.inbox, a.processed)))
    decreases |a.inbox|
  {
    if |a.inbox| > 0 {
      var b := Next(a, Accept);
      AcceptsStartFresh(b);
      assert Steps(Accept, |a.inbox|) == [Accept] + Steps(Accept, |b.inbox|);
      RunSplit(a, [Accept], Steps(Accept, |b.inbox|));
      assert Run(a, [Accept]) == b by {
        assert [Accept][..0] == [];
      }
      AcceptOne(a);
    } else {
      assert a.jobs + AsJobs([]) == a.jobs;
      assert a.processed + Ids(a.inbox) == a.processed;
    }
  }

  lemma AcceptOne(a: Agent)
    requires a.mode == Polling && |a.inbox| > 0
    ensures var b := Next(a, Accept);
            && b == a.(inbox := a.inbox[1..], processed := b.processed, jobs := b.jobs)
            && b.processed + Ids(b.inbox) == a.processed + Ids(a.inbox)
            && b.jobs + AsJobs(Fresh(b.inbox, b.processed)) == a.jobs + AsJobs(Fresh(a.inbox, a.processed))
  {
    var head := a.inbox[0];
    assert a.inbox == [head] + a.inbox[1..];
    IdsSplit([head], a.inbox[1..]);
    if head.taskId in a.processed {
      assert a.processed + {head.taskId} == a.processed;
    } else {
      var rest := Fresh(a.inbox[1..], a.processed + {head.taskId});
      assert AsJobs([head] + rest) == [Job(head.taskId, Executing)] + AsJobs(rest);
    }
  }

  /** What the environment decides for one file of a drain. */
  datatype DrainFate = DrainFate(readable: bool, acked: bool, removed: bool)

  function DrainSteps(fates: seq<DrainFate>): seq<AgentStep> {
    if |fates| == 0 then []
    else
      var f := fates[|fates| - 1];
      DrainSteps(fates[..|fates| - 1]) + [DrainReport(f.readable, f.acked), DrainRemove(f.removed)]
  }

  lemma RunTwo(a: Agent, steps: seq<AgentStep>, s: AgentStep, t: AgentStep)
    ensures Run(a, steps + [s, t]) == Next(Next(Run(a, steps), s), t)
  {
    assert (steps + [s, t])[..|steps| + 1] == steps + [s];
    assert (steps + [s])[..|steps|] == steps;
  }

  lemma RunFour(a: Agent, s: AgentStep, t: AgentStep, u: AgentStep, v: AgentStep)
    ensures Run(a, [s, t, u, v]) == Next(Next(Next(Next(a, s), t), u), v)
  {
    assert [s, t, u, v] == [s, t] + [u, v];
    assert [s, t] == [] + [s, t];
    RunTwo(a, [], s, t);
    RunTwo(a, [s, t], u, v);
  }

  lemma ExecuteThenSave(a: Agent, t: TaskId, result: string, error: Option<string>, outcome: SaveOutcome)
    requires a.mode == Polling && a.jobs == [Job(t, Executing)]
    ensures var pr := OutcomeOf(t, a.nodeId, result, error);
            && Next(Next(a, Execute(0, result, error)), Save(0, outcome))
            == a.(jobs := [Job(t, Saved(pr))], files := AfterSave(a.files, pr, outcome))
  {
    var executed := Next(a, Execute(0, result, error));
    assert executed.jobs == [Job(t, Executed(OutcomeOf(t, a.nodeId, result, error)))];
  }

  lemma ReportThenRemove(a: Agent, t: TaskId, pr: PendingResult, acked: bool, removed: bool)
    requires a.mode == Polling && a.jobs == [Job(t, Saved(pr))]
    ensures Next(Next(a, Report(0, acked)), Remove(0, removed))
         == a.(jobs := [Job(t, Finished)], files := if acked && removed then a.files - {pr.taskId} else a.files)
  {
    var reported := Next(a, Report(0, acked));
    assert reported.jobs == [Job(t, if acked then Acknowledged(pr) else Finished)];
  }

  class TaskRunner {
    const nodeId: NodeId
    var processed: set<TaskId>
    var files: map<TaskId, File>

    /** A new process: nothing is marked, and the disk is as the last process left it. */
    constructor (nodeId: NodeId, files: map<TaskId, File>)
      ensures this.nodeId == nodeId && this.processed == {} && this.files == files
    {
      this.nodeId, this.processed, this.files := nodeId, {}, files;
    }

    function AsAgent(mode: Mode, inbox: seq<NodeTask>, jobs: seq<Job>): Agent
      reads this
    {
      Agent(nodeId, mode, processed, inbox, jobs, files)
    }

    /** `response` is None when the pull failed. Returns the tasks it started a goroutine for. */
    method Poll(response: Option<seq<NodeTask>>) returns (started: seq<NodeTask>)
      modifies this`processed
      ensures response == None ==> started == [] && processed == old(processed)
      ensures response.Some? ==> started == Fresh(response.value, old(processed))
                                 && processed == old(processed) + Ids(response.value)
      ensures forall i, j :: 0 <= i < j < |started| ==> started[i].taskId != started[j].taskId
      ensures response.Some? ==>
                && (forall t :: t in started ==> t in response.value && t.taskId !in old(processed))
                && (forall t :: t in response.value && t.taskId !in old(processed) ==>
                      exists s :: s in started && s.taskId == t.taskId)
                && (forall t :: t in processed <==>
                      t in old(processed) || exists s :: s in response.value && s.taskId == t)
    {
      started := [];
      if response == None {
        return;
      }
      var tasks := response.value;
      var i := 0;
      while i < |tasks|
        invariant 0 <= i <= |tasks|
        invariant processed == old(processed) + Ids(tasks[..i])
        invariant started + Fresh(tasks[i..], processed) == Fresh(tasks, old(processed))
      {
        var t := tasks[i];
        FreshNext(tasks, i, processed);
        if t.taskId !in processed {
          processed := processed + {t.taskId};
          started := started + [t];
        }
        i := i + 1;
      }
      assert tasks[..i] == tasks && tasks[i..] == [];
      assert started == Fresh(tasks, old(processed));
      FreshInWords(tasks, old(processed));
    }

    /** One goroutine's life without a crash: execute, save, report, and remove the file once acknowledged. */
    method ExecuteAndReport(
      t: TaskId, result: string, error: Option<string>, outcome: SaveOutcome, acked: bool, removed: bool)
      returns (sent: PendingResult)
      modifies this`files
      ensures AsAgent(Polling, [], [Job(t, Finished)])
           == Run(old(AsAgent(Polling, [], [Job(t, Executing)])),
                  [Execute(0, result, error), Save(0, outcome), Report(0, acked), Remove(0, removed)])
      ensures sent.taskId == t && sent.nodeId == nodeId && sent.result == result
      ensures error.Some? ==> sent.status == "Failed" && sent.errorMessage == error.value
      ensures error.None? ==> sent.status == "Success" && sent.errorMessage == ""
      ensures acked && removed ==> t !in files
      ensures !(acked && removed) && outcome == Written ==> t in files && files[t] == Readable(sent)
      ensures !(acked && removed) && outcome == Interrupted ==> t in files && files[t] == Torn
      ensures !(acked && removed) && outcome == NotWritten ==> files == old(files)
      ensures forall k :: k != t ==> (k in files <==> k in old(files)) && (k in files ==> files[k] == old(files)[k])
    {
      ghost var start := AsAgent(Polling, [], [Job(t, Executing)]);
      RunFour(start, Execute(0, result, error), Save(0, outcome), Report(0, acked), Remove(0, removed));
      ExecuteThenSave(start, t, result, error, outcome);
      sent := PendingResult(t, nodeId, "Success", "", result);
      if error.Some? {
        sent := sent.(status := "Failed", errorMessage := error.value);
      }
      SavePendingResult(sent, outcome);
      ReportThenRemove(AsAgent(Polling, [], [Job(t, Saved(sent))]), t, sent, acked, removed);
      if acked && removed {
        files := files - {t};
      }
    }

    method SavePendingResult(pr: PendingResult, outcome: SaveOutcome)
      modifies this`files
      ensures files == AfterSave(old(files), pr, outcome)
    {
      match outcome {
        case Written => files := files[pr.taskId := Readable(pr)];
        case NotWritten =>
        case Interrupted => files := files[pr.taskId := Torn];
      }
    }

    /**
     The start-up drain. It sends and marks what it can read, in the order of the listing, and removes a file
     only after the gateway took its result.
     */
    method DrainPendingResults(listing: seq<TaskId>, fates: seq<DrainFate>) returns (sent: seq<PendingResult>)
      requires IsDirectoryListing(listing, files) && |fates| == |listing|
      modifies this
      ensures AsAgent(Draining([], None), [], [])
           == Run(old(AsAgent(Draining(listing, None), [], [])), DrainSteps(fates))
      ensures (forall t :: t in old(files) && old(files)[t].Readable? ==> old(files)[t].pr.taskId == t) ==>
                && (forall p :: p in sent <==>
                      exists i :: 0 <= i < |listing| && fates[i].readable && old(files)[listing[i]] == Readable(p))
                && processed == old(processed)
                     + (set i | 0 <= i < |listing| && fates[i].readable
                         && old(files)[listing[i]].Readable? :: listing[i])
                && files == old(files)
                     - (set i | 0 <= i < |listing| && fates[i].readable && old(files)[listing[i]].Readable?
                                && fates[i].acked && fates[i].removed :: listing[i])
    {
      ghost var start := DrainState(files, processed, []);
      sent := [];
      var i := 0;
      while i < |listing|
        invariant 0 <= i <= |listing|
        invariant DrainState(files, processed, sent) == Drained(start, listing[..i], fates[..i])
      {
        var name := listing[i];
        assert fates[..i + 1][..i] == fates[..i] && listing[..i + 1][..i] == listing[..i];
        if fates[i].readable && name in files && files[name].Readable? {
          var pr := files[name].pr;
          sent := sent + [pr];
          processed := processed + {pr.taskId};
          if fates[i].acked && fates[i].removed {
            files := files - {pr.taskId};
          }
        }
        i := i + 1;
      }
      assert fates[..|listing|] == fates && listing[..|listing|] == listing && listing[|listing|..] == [];
      DrainedIsRun(old(AsAgent(Draining(listing, None), [], [])), start, listing, fates, |listing|);
      DrainSpelledOut(start, listing, fates);
    }
  }

  lemma DrainSpelledOut(d: DrainState, listing: seq<TaskId>, fates: seq<DrainFate>)
    requires |listing| == |fates| && IsDirectoryListing(listing, d.files) && d.sent == []
    ensures (forall t :: t in d.files && d.files[t].Readable? ==> d.files[t].pr.taskId == t) ==>
              var after := Drained(d, listing, fates);
              && (forall p :: p in after.sent <==>
                    exists i :: 0 <= i < |listing| && fates[i].readable && d.files[listing[i]] == Readable(p))
              && after.processed == d.processed
                   + (set i | 0 <= i < |listing| && fates[i].readable && d.files[listing[i]].Readable? :: listing[i])
              && after.files == d.files
                   - (set i | 0 <= i < |listing| && fates[i].readable && d.files[listing[i]].Readable?
                              && fates[i].acked && fates[i].removed :: listing[i])
  {
    if forall t :: t in d.files && d.files[t].Readable? ==> d.files[t].pr.taskId == t {
      assert fates[..|listing|] == fates && listing[..|listing|] == listing;
      DrainedInWords(d, listing, fates, |listing|);
      SentExactly(d.files, listing, fates, |listing|);
    }
  }

  datatype DrainState = DrainState(files: map<TaskId, File>, processed: set<TaskId>, sent: seq<PendingResult>)

  function DrainedFile(d: DrainState, name: TaskId, fate: DrainFate): DrainState {
    if fate.readable && name in d.files && d.files[name].Readable? then
      var pr := d.files[name].pr;
      DrainState(if fate.acked && fate.removed then d.files - {pr.taskId} else d.files,
                 d.processed + {pr.taskId}, d.sent + [pr])
    else d
  }

  function Drained(d: DrainState, listing: seq<TaskId>, fates: seq<DrainFate>): DrainState
    requires |fates| == |listing|
  {
    if |listing| == 0 then d
    else
      var n := |listing| - 1;
      DrainedFile(Drained(d, listing[..n], fates[..n]), listing[n], fates[n])
  }

  /** The loop is the fold of the drain's steps. */
  lemma {:induction false} DrainedIsRun(
    a: Agent, d: DrainState, listing: seq<TaskId>, fates: seq<DrainFate>, n: nat)
    requires n <= |listing| == |fates|
    requires a == Agent(a.nodeId, Draining(listing, None), d.processed, [], [], d.files)
    ensures var after := Drained(d, listing[..n], fates[..n]);
            Run(a, DrainSteps(fates[..n]))
              == Agent(a.nodeId, Draining(listing[n..], None), after.processed, [], [], after.files)
  {
    if n > 0 {
      var m := n - 1;
      DrainedIsRun(a, d, listing, fates, m);
      assert fates[..n][..m] == fates[..m] && listing[..n][..m] == listing[..m];
      RunTwo(a, DrainSteps(fates[..m]), DrainReport(fates[m].readable, fates[m].acked), DrainRemove(fates[m].removed));
      assert listing[m..][0] == listing[m] && listing[m..][1..] == listing[n..];
    } else {
      assert listing[0..] == listing;
    }
  }

  lemma DrainedNext(
    files: map<TaskId, File>, marked: set<TaskId>, sent: seq<PendingResult>, listing: seq<TaskId>,
    fates: seq<DrainFate>, i: nat)
    requires i < |listing| == |fates| && IsDirectoryListing(listing, files)
    requires forall t :: t in files && files[t].Readable? ==> files[t].pr.taskId == t
    ensures var before := DrainState(files - GoneFiles(files, listing, fates, i),
                                     marked + ReadFiles(files, listing, fates, i), sent);
            var said := if fates[i].readable && files[listing[i]].Readable? then [files[listing[i]].pr] else [];
            DrainedFile(before, listing[i], fates[i])
              == DrainState(files - GoneFiles(files, listing, fates, i + 1),
                            marked + ReadFiles(files, listing, fates, i + 1), sent + said)
  {
    NextFile(files, listing, fates, i);
    var name := listing[i];
    var left := files - GoneFiles(files, listing, fates, i);
    assert name in left && left[name] == files[name];
    assert left - {name} == files - (GoneFiles(files, listing, fates, i) + {name});
    if !(fates[i].readable && files[name].Readable?) {
      assert sent + [] == sent;
    }
  }

  /** Where files are named by their tasks: what is sent, marked and removed. */
  lemma {:induction false} DrainedInWords(d: DrainState, listing: seq<TaskId>, fates: seq<DrainFate>, n: nat)
    requires n <= |listing| == |fates| && IsDirectoryListing(listing, d.files) && d.sent == []
    requires forall t :: t in d.files && d.files[t].Readable? ==> d.files[t].pr.taskId == t
    ensures Drained(d, listing[..n], fates[..n])
         == DrainState(d.files - GoneFiles(d.files, listing, fates, n),
                       d.processed + ReadFiles(d.files, listing, fates, n), Sent(d.files, listing[..n], fates[..n]))
  {
    if n > 0 {
      var m := n - 1;
      DrainedInWords(d, listing, fates, m);
      DrainedNext(d.files, d.processed, Sent(d.files, listing[..m], fates[..m]), listing, fates, m);
      assert fates[..n][..m] == fates[..m] && listing[..n][..m] == listing[..m];
    } else {
      assert d.files - GoneFiles(d.files, listing, fates, 0) == d.files;
    }
  }

  /** What a drain sends: the content of each file it can read, in order. */
  function Sent(files: map<TaskId, File>, listing: seq<TaskId>, fates: seq<DrainFate>): seq<PendingResult>
    requires |fates| == |listing| && forall i :: 0 <= i < |listing| ==> listing[i] in files
  {
    if |listing| == 0 then []
    else
      var n := |listing| - 1;
      Sent(files, listing[..n], fates[..n])
      + if fates[n].readable && files[listing[n]].Readable? then [files[listing[n]].pr] else []
  }

  lemma {:induction false} SentExactly(files: map<TaskId, File>, listing: seq<TaskId>, fates: seq<DrainFate>, n: nat)
    requires n <= |listing| == |fates| && forall i :: 0 <= i < |listing| ==> listing[i] in files
    ensures forall p :: p in Sent(files, listing[..n], fates[..n]) <==>
              exists i :: 0 <= i < n && fates[i].readable && files[listing[i]] == Readable(p)
  {
    if n > 0 {
      var m := n - 1;
      SentExactly(files, listing, fates, m);
      assert fates[..n][..m] == fates[..m] && listing[..n][..m] == listing[..m];
    }
  }

  /** The names among the first `n` whose files can be read. */
  function ReadFiles(files: map<TaskId, File>, listing: seq<TaskId>, fates: seq<DrainFate>, n: nat): set<TaskId>
    requires n <= |listing| == |fates| && forall i :: 0 <= i < |listing| ==> listing[i] in files
  {
    set i | 0 <= i < n && fates[i].readable && files[listing[i]].Readable? :: listing[i]
  }

  /** Those of them that are acknowledged and removed. */
  function GoneFiles(files: map<TaskId, File>, listing: seq<TaskId>, fates: seq<DrainFate>, n: nat): set<TaskId>
    requires n <= |listing| == |fates| && forall i :: 0 <= i < |listing| ==> listing[i] in files
  {
    set i | 0 <= i < n && fates[i].readable && files[listing[i]].Readable? && fates[i].acked && fates[i].removed
      :: listing[i]
  }

  lemma NextFile(files: map<TaskId, File>, listing: seq<TaskId>, fates: seq<DrainFate>, i: nat)
    requires i < |listing| == |fates| && Distinct(listing)
    requires forall k :: 0 <= k < |listing| ==> listing[k] in files
    ensures var read := fates[i].readable && files[listing[i]].Readable?;
            && ReadFiles(files, listing, fates, i + 1)
                 == ReadFiles(files, listing, fates, i) + (if read then {listing[i]} else {})
            && GoneFiles(files, listing, fates, i + 1)
                 == GoneFiles(files, listing, fates, i)
                    + (if read && fates[i].acked && fates[i].removed then {listing[i]} else {})
            && listing[i] !in GoneFiles(files, listing, fates, i)
  {
  }
}
