/**
 What an agent is told to do and what it says came of it: the tasks in its inbox are the rows they were pulled
 from, and a result that is saved, reported or committed is the outcome of that task's one execution.
 */
module TaskOutcomes {
  import opened Wrappers
  import opened TaskTables
  import opened TaskInvariants
  import opened TaskStore
  import Runner = TaskRunner
  import opened TaskProtocol

  // ---- what an agent is told to do ----

  /** Kind, payload and timeout of a delivered task are those of its row. */
  predicate IsRowsTask(db: Tables, t: NodeTask) {
    && t.taskId in db.tasks && t.kind == db.tasks[t.taskId].kind && t.payload == db.tasks[t.taskId].payload
    && t.timeoutSeconds == db.tasks[t.taskId].timeoutSeconds
  }

  ghost predicate InboxesShowRows(db: Tables, f: Fleet) {
    forall n, t :: n in f.agents && t in f.agents[n].inbox ==> IsRowsTask(db, t)
  }

  lemma NextInbox(a: Runner.Agent, s: Runner.AgentStep, t: NodeTask)
    requires t in Runner.Next(a, s).inbox
    ensures t in a.inbox || (s.Receive? && t in s.tasks)
  {
  }

  /** A step adds nothing to an inbox but the answer of a pull. */
  lemma InboxStep(w: World, s: Step, n: NodeId)
    requires n in Do(w, s).fleet.agents
    ensures n in w.fleet.agents
    ensures forall t :: t in Do(w, s).fleet.agents[n].inbox ==>
              || t in w.fleet.agents[n].inbox
              || (s.Pull? && s.node == n
                  && IsPullAnswer(w.db.tasks, s.answer, s.node, s.gateway, s.locked, PullLimit(s.maxTasks))
                  && t in NodeTasks(w.db.tasks, s.answer))
  {
    OneAgentSteps(w, s);
    if AgentStepOf(w, s).Some? && AgentStepOf(w, s).value.0 == n {
      forall t | t in Do(w, s).fleet.agents[n].inbox
        ensures t in w.fleet.agents[n].inbox
                || (AgentStepOf(w, s).value.1.Receive? && t in AgentStepOf(w, s).value.1.tasks)
      {
        NextInbox(w.fleet.agents[n], AgentStepOf(w, s).value.1, t);
      }
    }
  }

  lemma RowsTaskStays(a: Tables, b: Tables, t: NodeTask)
    requires Advances(a, b) && IsRowsTask(a, t)
    ensures IsRowsTask(b, t)
  {
    assert t.taskId in b.tasks && SameOrigin(a.tasks[t.taskId], b.tasks[t.taskId]);
  }

  lemma InboxesKept(w: World, s: Step)
    requires InboxesShowRows(w.db, w.fleet)
    ensures InboxesShowRows(Do(w, s).db, Do(w, s).fleet)
  {
    var v := Do(w, s);
    TablesAdvance(w, s);
    forall n, t | n in v.fleet.agents && t in v.fleet.agents[n].inbox ensures IsRowsTask(v.db, t) {
      InboxStep(w, s, n);
      if t !in w.fleet.agents[n].inbox {
        var i :| 0 <= i < |s.answer| && t == NodeTasks(w.db.tasks, s.answer)[i];
        assert IsRowsTask(w.db, t);
      }
      RowsTaskStays(w.db, v.db, t);
    }
  }

  /** In every state of every run, each task in an agent's inbox has the kind, payload and timeout of its row. */
  lemma {:induction false} InboxesAlwaysShowRows(w: World, steps: seq<Step>)
    requires Init(w)
    ensures InboxesShowRows(Run(w, steps).db, Run(w, steps).fleet)
  {
    if |steps| > 0 {
      InboxesAlwaysShowRows(w, steps[..|steps| - 1]);
      InboxesKept(Run(w, steps[..|steps| - 1]), steps[|steps| - 1]);
    }
  }

  // ---- what came of it ----

  /** One execution: the node, the task, and the result and error the executor returned. */
  datatype Execution = Execution(node: NodeId, taskId: TaskId, result: string, error: Option<string>)

  predicate IsExecution(w: World, s: Step) {
    && s.Local? && s.step.Execute? && s.node in w.fleet.agents
    && Runner.HasJob(w.fleet.agents[s.node], s.step.job)
    && w.fleet.agents[s.node].jobs[s.step.job].phase.Executing?
  }

  ghost function NewExecution(w: World, s: Step): seq<Execution> {
    if IsExecution(w, s) then
      [Execution(s.node, w.fleet.agents[s.node].jobs[s.step.job].taskId, s.step.result, s.step.error)]
    else []
  }

  /** The executions of a run, in order. */
  ghost function Executions(w: World, steps: seq<Step>): seq<Execution> {
    if |steps| == 0 then []
    else
      Executions(w, steps[..|steps| - 1]) + NewExecution(Run(w, steps[..|steps| - 1]), steps[|steps| - 1])
  }

  /** `pr` says of the execution what happened: Failed with the error's text exactly when there was an error. */
  predicate Tells(pr: Runner.PendingResult, e: Execution) {
    && pr.taskId == e.taskId && pr.nodeId == e.node && pr.result == e.result
    && (e.error.Some? ==> pr.status == "Failed" && pr.errorMessage == e.error.value)
    && (e.error.None? ==> pr.status == "Success" && pr.errorMessage == "")
  }

  ghost predicate IsTold(pr: Runner.PendingResult, es: seq<Execution>) {
    exists e :: e in es && Tells(pr, e)
  }

  function ResultIn(p: Runner.Phase): Option<Runner.PendingResult> {
    match p
    case Executed(pr) => Some(pr)
    case Saved(pr) => Some(pr)
    case Acknowledged(pr) => Some(pr)
    case _ => None
  }

  ghost predicate JobTold(job: Runner.Job, es: seq<Execution>) {
    && (ResultIn(job.phase).Some? ==> IsTold(ResultIn(job.phase).value, es))
    && (job.phase.Executing? ==> forall e :: e in es ==> e.taskId != job.taskId)
  }

  /** Every result in the system tells of an execution, and nothing was executed that was not started, or twice. */
  ghost predicate OutcomeInv(f: Fleet, es: seq<Execution>) {
    && (forall n, job :: n in f.agents && job in f.agents[n].jobs ==> JobTold(job, es))
    && (forall t :: t in f.saved ==> IsTold(f.saved[t], es))
    && (forall e :: e in es ==> Handout(e.taskId, e.node) in f.executions)
    && (forall i, j :: 0 <= i < j < |es| ==> es[i].taskId != es[j].taskId)
  }

  // ---- one agent's step ----

  /** A job after a step goes on from one before it, or is the one executed, or the one started. */
  ghost predicate ComesFrom(a: Runner.Agent, s: Runner.AgentStep, job: Runner.Job) {
    || (exists was :: was in a.jobs && GoesOn(was, job))
    || (ExecutesJob(a, s) && job.taskId == a.jobs[s.job].taskId && job.phase.Executed?
        && Tells(job.phase.pr, Execution(a.nodeId, job.taskId, s.result, s.error)))
    || (s.Accept? && StartsTask(a) && job == Runner.Job(a.inbox[0].taskId, Runner.Executing))
  }

  predicate GoesOn(was: Runner.Job, job: Runner.Job) {
    && job.taskId == was.taskId
    && (ResultIn(job.phase).Some? ==> ResultIn(job.phase) == ResultIn(was.phase))
    && (job.phase.Executing? ==> was.phase.Executing?)
  }

  predicate ExecutesJob(a: Runner.Agent, s: Runner.AgentStep) {
    s.Execute? && Runner.HasJob(a, s.job) && a.jobs[s.job].phase.Executing?
  }

  lemma JobComesFrom(a: Runner.Agent, s: Runner.AgentStep, job: Runner.Job)
    requires job in Runner.Next(a, s).jobs
    ensures ComesFrom(a, s, job)
  {
    var b := Runner.Next(a, s);
    var k :| 0 <= k < |b.jobs| && b.jobs[k] == job;
    if k < |a.jobs| {
      assert a.jobs[k] in a.jobs;
      if !(ExecutesJob(a, s) && k == s.job) {
        assert GoesOn(a.jobs[k], job);
      }
    }
  }

  /** After an execution no goroutine of the agent is still executing that task. */
  lemma ExecutedOnce(a: Runner.Agent, s: Runner.AgentStep, job: Runner.Job)
    requires Runner.Deduplicated(a) && ExecutesJob(a, s) && job in Runner.Next(a, s).jobs && job.phase.Executing?
    ensures job.taskId != a.jobs[s.job].taskId
  {
    var b := Runner.Next(a, s);
    var k :| 0 <= k < |b.jobs| && b.jobs[k] == job;
    assert k != s.job && a.jobs[k].taskId != a.jobs[s.job].taskId;
  }

  lemma JobStaysTold(was: Runner.Job, job: Runner.Job, es: seq<Execution>, more: seq<Execution>)
    requires JobTold(was, es) && GoesOn(was, job) && es <= more
    requires job.phase.Executing? ==> forall e :: e in more && e !in es ==> e.taskId != job.taskId
    ensures JobTold(job, more)
  {
    if ResultIn(job.phase).Some? {
      StillTold(ResultIn(job.phase).value, es, more);
    }
  }

  lemma StillTold(pr: Runner.PendingResult, es: seq<Execution>, more: seq<Execution>)
    requires IsTold(pr, es) && es <= more
    ensures IsTold(pr, more)
  {
    var e :| e in es && Tells(pr, e);
    var i :| 0 <= i < |es| && es[i] == e;
    assert more[i] == e;
  }

  // ---- a step of the system ----

  /** What a step does to one agent, if it moves one. */
  ghost function AgentStepOf(w: World, s: Step): Option<(NodeId, Runner.AgentStep)> {
    match s
    case Local(n, step) => if n in w.fleet.agents && IsLocal(step) then Some((n, step)) else None
    case Pull(gateway, node, maxTasks, locked, answer, arrives) =>
      if node != "" && IsPullAnswer(w.db.tasks, answer, node, gateway, locked, PullLimit(maxTasks)) && arrives
         && node in w.fleet.agents
      then Some((node, Runner.Receive(NodeTasks(w.db.tasks, answer)))) else None
    case JobReport(n, j, reaches, replied) =>
      if n in w.fleet.agents && Runner.HasJob(w.fleet.agents[n], j) && w.fleet.agents[n].jobs[j].phase.Saved? then
        Some((n, Runner.Report(j, Acked(w.db, w.fleet.agents[n].jobs[j].phase.pr, reaches, replied))))
      else None
    case DrainAttempt(n, readable, reaches, replied) =>
      if n !in w.fleet.agents then None
      else if readable && Runner.DrainHead(w.fleet.agents[n]).Some? then
        Some((n, Runner.DrainReport(true, Acked(w.db, Runner.DrainHead(w.fleet.agents[n]).value, reaches, replied))))
      else Some((n, Runner.DrainReport(false, false)))
    case _ => None
  }

  lemma OneAgentSteps(w: World, s: Step)
    ensures var f, g := w.fleet, Do(w, s).fleet;
            match AgentStepOf(w, s)
            case None => g.agents == f.agents && g.executions == f.executions && g.saved == f.saved
            case Some(p) =>
              && p.0 in f.agents && g.agents == f.agents[p.0 := Runner.Next(f.agents[p.0], p.1)]
              && g.executions == f.executions
                   + (if p.1.Accept? && StartsTask(f.agents[p.0]) then [Handout(f.agents[p.0].inbox[0].taskId, p.0)]
                       else [])
              && g.saved == (if WritesResult(f.agents[p.0], p.1) then
                               var pr := f.agents[p.0].jobs[p.1.job].phase.pr;
                               f.saved[pr.taskId := pr]
                             else f.saved)
    ensures IsExecution(w, s) <==>
              AgentStepOf(w, s).Some?
              && ExecutesJob(w.fleet.agents[AgentStepOf(w, s).value.0], AgentStepOf(w, s).value.1)
    ensures IsExecution(w, s) ==> AgentStepOf(w, s) == Some((s.node, s.step))
  {
  }

  /** What the fleet's invariant says of starts: one per task, by the holder of the job. */
  ghost predicate Starts(f: Fleet) {
    && (forall n, job :: n in f.agents && job in f.agents[n].jobs ==> Handout(job.taskId, n) in f.executions)
    && (forall x, y :: x in f.executions && y in f.executions && x.taskId == y.taskId ==> x == y)
    && (forall n :: n in f.agents ==> f.agents[n].nodeId == n && Runner.Deduplicated(f.agents[n]))
    && (forall n, x :: n in f.agents && StartsTask(f.agents[n]) && x in f.executions ==>
          x.taskId != f.agents[n].inbox[0].taskId)
  }

  lemma FleetStarts(db: Tables, f: Fleet)
    requires FleetInv(db, f)
    ensures Starts(f)
  {
    forall n, job | n in f.agents && job in f.agents[n].jobs ensures Handout(job.taskId, n) in f.executions {
      assert AgentInv(db, f, f.agents[n], n);
    }
    OneStartPerTask(db, f);
    forall n | n in f.agents ensures f.agents[n].nodeId == n && Runner.Deduplicated(f.agents[n]) {
      assert AgentInv(db, f, f.agents[n], n);
    }
    forall n, x | n in f.agents && StartsTask(f.agents[n]) && x in f.executions
      ensures x.taskId != f.agents[n].inbox[0].taskId
    {
      HeadOfInbox(db, f, n);
      assert x in f.handouts;
    }
  }

  lemma OneStartPerTask(db: Tables, f: Fleet)
    requires HandoutInv(db, f)
    ensures forall x, y :: x in f.executions && y in f.executions && x.taskId == y.taskId ==> x == y
  {
    forall x, y | x in f.executions && y in f.executions && x.taskId == y.taskId ensures x == y {
      assert x in f.handouts && y in f.handouts;
    }
  }

  ghost function After(f: Fleet, n: NodeId, s: Runner.AgentStep, es: seq<Execution>): seq<Execution>
    requires n in f.agents
  {
    es + if ExecutesJob(f.agents[n], s) then [Execution(n, f.agents[n].jobs[s.job].taskId, s.result, s.error)] else []
  }

  lemma JobsStayTold(f: Fleet, n: NodeId, s: Runner.AgentStep, es: seq<Execution>, job: Runner.Job)
    requires Starts(f) && OutcomeInv(f, es) && n in f.agents && job in Runner.Next(f.agents[n], s).jobs
    ensures JobTold(job, After(f, n, s, es))
  {
    var a := f.agents[n];
    var more := After(f, n, s, es);
    JobComesFrom(a, s, job);
    if was :| was in a.jobs && GoesOn(was, job) {
      assert JobTold(was, es);
      if ExecutesJob(a, s) && job.phase.Executing? {
        ExecutedOnce(a, s, job);
      }
      JobStaysTold(was, job, es, more);
    } else if ExecutesJob(a, s) {
      assert more[|es|] in more;
    } else {
      forall e | e in more ensures e.taskId != job.taskId {
        assert Handout(e.taskId, e.node) in f.executions;
      }
    }
  }

  /** The jobs of other agents are of other tasks. */
  lemma OtherJobsStayTold(f: Fleet, n: NodeId, s: Runner.AgentStep, es: seq<Execution>, m: NodeId, job: Runner.Job)
    requires Starts(f) && OutcomeInv(f, es) && n in f.agents && m in f.agents && m != n && job in f.agents[m].jobs
    ensures JobTold(job, After(f, n, s, es))
  {
    assert JobTold(job, es);
    if ExecutesJob(f.agents[n], s) {
      assert f.agents[n].jobs[s.job] in f.agents[n].jobs;
      assert Handout(job.taskId, m) in f.executions;
      assert Handout(f.agents[n].jobs[s.job].taskId, n) in f.executions;
    }
    JobStaysTold(job, job, es, After(f, n, s, es));
  }

  /** What is executed was started before, and never executed. */
  lemma ExecutionIsNew(f: Fleet, n: NodeId, s: Runner.AgentStep, es: seq<Execution>)
    requires Starts(f) && OutcomeInv(f, es) && n in f.agents
    ensures var more := After(f, n, s, es);
            && (forall e :: e in more ==> Handout(e.taskId, e.node) in f.executions)
            && (forall i, j :: 0 <= i < j < |more| ==> more[i].taskId != more[j].taskId)
  {
    if ExecutesJob(f.agents[n], s) {
      var job := f.agents[n].jobs[s.job];
      assert job in f.agents[n].jobs && JobTold(job, es);
      assert forall i :: 0 <= i < |es| ==> es[i] in es;
    }
  }

  lemma OutcomesKept(f: Fleet, g: Fleet, n: NodeId, s: Runner.AgentStep, es: seq<Execution>)
    requires Starts(f) && OutcomeInv(f, es) && n in f.agents
    requires g.agents == f.agents[n := Runner.Next(f.agents[n], s)] && f.executions <= g.executions
    requires g.saved == if WritesResult(f.agents[n], s) then
                          f.saved[f.agents[n].jobs[s.job].phase.pr.taskId := f.agents[n].jobs[s.job].phase.pr]
                        else f.saved
    ensures OutcomeInv(g, After(f, n, s, es))
  {
    var more := After(f, n, s, es);
    forall m, job | m in g.agents && job in g.agents[m].jobs ensures JobTold(job, more) {
      if m == n {
        JobsStayTold(f, n, s, es, job);
      } else {
        OtherJobsStayTold(f, n, s, es, m, job);
      }
    }
    SavedStayTold(f, n, s, es);
    ExecutionIsNew(f, n, s, es);
    assert forall x :: x in f.executions ==> x in g.executions;
  }

  lemma SavedStayTold(f: Fleet, n: NodeId, s: Runner.AgentStep, es: seq<Execution>)
    requires OutcomeInv(f, es) && n in f.agents
    ensures forall t :: t in f.saved ==> IsTold(f.saved[t], After(f, n, s, es))
    ensures WritesResult(f.agents[n], s) ==> IsTold(f.agents[n].jobs[s.job].phase.pr, After(f, n, s, es))
  {
    forall t | t in f.saved ensures IsTold(f.saved[t], After(f, n, s, es)) {
      StillTold(f.saved[t], es, After(f, n, s, es));
    }
    if WritesResult(f.agents[n], s) {
      assert f.agents[n].jobs[s.job] in f.agents[n].jobs && JobTold(f.agents[n].jobs[s.job], es);
      StillTold(f.agents[n].jobs[s.job].phase.pr, es, After(f, n, s, es));
    }
  }

  lemma OutcomeStep(w: World, s: Step, es: seq<Execution>)
    requires Starts(w.fleet) && OutcomeInv(w.fleet, es)
    ensures OutcomeInv(Do(w, s).fleet, es + NewExecution(w, s))
  {
    OneAgentSteps(w, s);
    match AgentStepOf(w, s)
    case None => assert es + NewExecution(w, s) == es;
    case Some((n, step)) =>
      OutcomesKept(w.fleet, Do(w, s).fleet, n, step, es);
      assert After(w.fleet, n, step, es) == es + NewExecution(w, s);
  }

  lemma {:induction false} OutcomesAlwaysKept(w: World, steps: seq<Step>)
    requires Init(w)
    ensures OutcomeInv(Run(w, steps).fleet, Executions(w, steps))
  {
    if |steps| > 0 {
      var before := Run(w, steps[..|steps| - 1]);
      OutcomesAlwaysKept(w, steps[..|steps| - 1]);
      InvAlways(w, steps[..|steps| - 1]);
      FleetStarts(before.db, before.fleet);
      OutcomeStep(before, steps[|steps| - 1], Executions(w, steps[..|steps| - 1]));
    }
  }

  // ---- the theorem ----

  /** The result, and every committed run with it, is Failed exactly when the execution returned an error. */
  ghost predicate IsOutcomeOf(db: Tables, pr: Runner.PendingResult, e: Execution) {
    && pr.taskId == e.taskId && pr.nodeId == e.node && pr.result == e.result
    && (pr.status == "Failed" <==> e.error.Some?) && (pr.status == "Success" <==> e.error.None?)
    && (e.error.Some? ==> pr.errorMessage == e.error.value)
    && forall run :: run in db.runs && IsRunOf(run, pr) ==> run.status == if e.error.Some? then Failed else Success
  }

  lemma ToldIsOutcome(db: Tables, pr: Runner.PendingResult, e: Execution)
    requires Tells(pr, e)
    ensures IsOutcomeOf(db, pr, e)
  {
    AgentWordsNormalize("", "Failed", "");
    AgentWordsNormalize("", "Success", "");
    assert "" + "Failed" + "" == "Failed" && "" + "Success" + "" == "Success";
    if e.error.Some? {
      assert pr.status[0] == 'F' && "Success"[0] == 'S';
    } else {
      assert pr.status[0] == 'S' && "Failed"[0] == 'F';
    }
  }

  /**
   In every state of every run: no task has been executed twice, and the result that was saved for a task, and
   every committed run with that result, is Failed with the error's text exactly when its execution returned an
   error, and otherwise Success, with the result the execution returned.
   */
  lemma SavedResultsAreOutcomes(w: World, steps: seq<Step>, t: TaskId)
    requires Init(w) && t in Run(w, steps).fleet.saved
    ensures var v := Run(w, steps);
            var es := Executions(w, steps);
            && (forall i, j :: 0 <= i < j < |es| ==> es[i].taskId != es[j].taskId)
            && v.fleet.saved[t].taskId == t
            && exists e :: e in es && IsOutcomeOf(v.db, v.fleet.saved[t], e)
  {
    var v := Run(w, steps);
    OutcomesAlwaysKept(w, steps);
    SavedUnderName(w, steps, t);
    var e :| e in Executions(w, steps) && Tells(v.fleet.saved[t], e);
    ToldIsOutcome(v.db, v.fleet.saved[t], e);
  }

  lemma SavedUnderName(w: World, steps: seq<Step>, t: TaskId)
    requires Init(w) && t in Run(w, steps).fleet.saved
    ensures Run(w, steps).fleet.saved[t].taskId == t
  {
    InvAlways(w, steps);
    assert ResultKept(Run(w, steps).db, Run(w, steps).fleet, t);
  }
}
