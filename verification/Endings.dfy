// On what evidence a resource ends, and that a stale call that has nothing to
// say leaves the stored status alone.
module Endings {
  import opened Wrappers
  import opened Names
  import opened Controller
  import opened Outcomes
  import opened Prefilter
  import opened Cluster
  import opened ClusterSafety
  import opened FreshRuns

  // ---- stale calls ----

  // A call that computes what it read changes no stored resource, however old
  // the version it read is.
  lemma NothingToSay(c: State, step: Step, d: Detector)
    requires Enabled(c, step, d) && step.Reconcile? && Computed(c, step).status == step.view.status
    ensures Next(c, step).stored == c.stored
  {
    hide ReconcileStep;
    hide MergePatch;
    hide Observed;
    NothingToPatch(step.view.status, c.stored[step.name].status);
  }

  // Nor does a call that fails, although it may have changed its copy.
  lemma FailedCallChangesNothing(c: State, step: Step, d: Detector)
    requires Enabled(c, step, d) && step.Reconcile? && Computed(c, step).reply == Error
    ensures Next(c, step).stored == c.stored && Next(c, step).versions == c.versions && Next(c, step).jobs == c.jobs
  {
    Creations(step.name, step.view, c.jobs, c.pods, step.faults);
    hide ReconcileStep;
    hide Observed;
  }

  // So a late poll for approval cannot take back what has happened since.
  lemma LatePollChangesNothing(c: State, step: Step, d: Detector)
    requires Enabled(c, step, d) && step.Reconcile?
    requires step.view.status.phase == PendingValidation && !step.view.spec.approved
    ensures Next(c, step).stored == c.stored && Next(c, step).jobs == c.jobs
  {
    ApprovalOutcome(step.name, step.view, c.jobs, c.pods, step.faults);
    hide ReconcileStep;
    NothingToSay(c, step, d);
  }

  // ---- the evidence for an end ----

  // The call reads from the Job of the attempt the pull request that is recorded.
  ghost predicate Opens(c: State, step: Step, name: string, e: Execution) {
    step.Reconcile? && step.name == name && step.view.status.phase in {Ready, Executing} &&
    e.attempt == Current(step.view.status) && e.jobName == FixJobName(name, e.attempt) && e.jobName in c.jobs &&
    Reports(name, c.jobs[e.jobName], c.pods, step.faults, FixResult(e.prURL, e.prNumber, e.branch))
  }

  // The call sees the Job of the attempt over and without a pull request, and
  // the resource it reads allows no further attempt.
  ghost predicate UsesUp(c: State, step: Step, name: string) {
    step.Reconcile? && step.name == name && step.view.status.phase in {Ready, Executing} &&
    var f := FixJobName(name, Current(step.view.status));
    f in c.jobs && Over(c.jobs[f]) && (forall r :: !Reports(name, c.jobs[f], c.pods, step.faults, r)) &&
    Current(step.view.status) >= Limit(step.view.spec)
  }

  // The call sees the triage Job failed, or succeeded without a result.
  ghost predicate TriageBreaks(c: State, step: Step, name: string) {
    step.Reconcile? && step.name == name && step.view.status.phase in {Unset, Triage} && TriageJobName(name) in c.jobs &&
    var job := c.jobs[TriageJobName(name)];
    var read := TriageRead(name, job, c.pods, step.faults);
    if job.succeeded > 0 then read.None? || read.value.parseError else job.failed > 0
  }

  lemma FixCallEnds(c: State, step: Step, name: string)
    requires step.Reconcile? && step.name == name && step.view.status.phase in {Ready, Executing}
    ensures var o := Computed(c, step);
      o.reply != Error ==>
        o.status.phase in {Ready, Executing, PROpen, Failed} &&
        (o.status.phase == PROpen ==> Opens(c, step, name, o.status.execution)) &&
        (o.status.phase == Failed ==> UsesUp(c, step, name))
  {
    hide ReadFix;
    hide FixJobName;
    if step.faults.getJob {
      LookUpFails(name, step.view, c.jobs, c.pods, step.faults);
    } else if FixJobName(name, Current(step.view.status)) in c.jobs {
      FixResults(name, step.view, c.jobs, c.pods, step.faults);
      FixRecords(name, step.view, c.jobs, c.pods, step.faults);
    } else {
      FixJobMissing(name, step.view, c.jobs, c.pods, step.faults);
    }
    hide ReconcileStep;
  }

  lemma OtherCallEnds(c: State, step: Step, name: string)
    requires step.Reconcile? && step.name == name && step.view.status.phase !in {Ready, Executing}
    ensures var o := Computed(c, step);
      o.reply != Error && o.status.phase != step.view.status.phase ==>
        o.status.phase !in {PROpen, Done} && (o.status.phase == Failed ==> TriageBreaks(c, step, name))
    ensures var o := Computed(c, step); step.view.status.phase == PROpen ==> o.status == step.view.status
  {
    hide ReadTriage;
    hide TriageJobName;
    var phase := step.view.status.phase;
    if phase == PendingValidation {
      ApprovalOutcome(name, step.view, c.jobs, c.pods, step.faults);
    } else if phase !in {Unset, Triage} {
      OtherOutcome(name, step.view, c.jobs, c.pods, step.faults);
    } else if step.faults.getJob {
      LookUpFails(name, step.view, c.jobs, c.pods, step.faults);
    } else if TriageJobName(name) in c.jobs {
      TriageResults(name, step.view, c.jobs, c.pods, step.faults);
    } else {
      TriageJobMissing(name, step.view, c.jobs, c.pods, step.faults);
    }
    hide ReconcileStep;
  }

  // How a step of a fresh run takes a stored status p to q.
  ghost predicate Moves(c: State, step: Step, name: string, p: Status, q: Status) {
    p == q ||
    if p.phase in {Ready, Executing} then
      q.phase in {Ready, Executing, PROpen, Failed} &&
      (q.phase == PROpen ==> Opens(c, step, name, q.execution)) && (q.phase == Failed ==> UsesUp(c, step, name))
    else
      p.phase != PROpen && q.phase != PROpen && (p.phase != Failed && q.phase == Failed ==> TriageBreaks(c, step, name))
  }

  lemma StepEnds(c: State, step: Step, d: Detector, name: string)
    requires Enabled(c, step, d) && name in c.stored && name in c.versions
    requires step.Reconcile? && step.name == name ==> step.view == c.stored[name]
    ensures name in Next(c, step).stored && Moves(c, step, name, c.stored[name].status, Next(c, step).stored[name].status)
  {
    hide Opens;
    hide UsesUp;
    hide TriageBreaks;
    if step.Reconcile? && step.name == name {
      var o := Computed(c, step);
      FreshPatch(step.view.status, o.status);
      if step.view.status.phase in {Ready, Executing} {
        FixCallEnds(c, step, name);
      } else {
        OtherCallEnds(c, step, name);
      }
    }
    hide ReconcileStep;
    hide MergePatch;
    hide Observed;
    hide EndsLikeWorker;
  }

  lemma StepMoves(states: seq<State>, steps: seq<Step>, d: Detector, name: string, t: nat)
    requires IsRun(states, steps, d) && Fresh(states, steps, name) && t < |steps| && name in states[t].stored
    ensures name in states[t + 1].stored
    ensures Moves(states[t], steps[t], name, states[t].stored[name].status, states[t + 1].stored[name].status)
  {
    hide Moves;
    hide Next;
    hide Enabled;
    hide Inv;
    RunStep(states, steps, d, t);
    RunKeeps(states, steps, d, t);
    StoredIsVersioned(states[t], name, d);
    StepEnds(states[t], steps[t], d, name);
  }

  lemma StepBack(states: seq<State>, steps: seq<Step>, d: Detector, name: string, i: nat)
    requires IsRun(states, steps, d) && i < |states| && name in states[i].stored && states[i].stored[name].status.phase != Unset
    ensures i > 0 && name in states[i - 1].stored
  {
    if i > 0 {
      RunStep(states, steps, d, i - 1);
      RunKeeps(states, steps, d, i - 1);
      StaysKnown(states[i - 1], steps[i - 1], d, name);
    }
  }

  // A recorded pull request was read from the Job of the recorded attempt.
  lemma {:induction false} PullRequestWasRead(states: seq<State>, steps: seq<Step>, d: Detector, name: string, i: nat)
      returns (t: nat)
    requires IsRun(states, steps, d) && Fresh(states, steps, name) && i < |states|
    requires name in states[i].stored && states[i].stored[name].status.phase == PROpen
    ensures t < i && Opens(states[t], steps[t], name, states[i].stored[name].status.execution)
  {
    hide Opens;
    hide UsesUp;
    hide TriageBreaks;
    t := i - 1;
    StepBack(states, steps, d, name, i);
    StepMoves(states, steps, d, name, t);
    if states[t].stored[name].status.phase == PROpen {
      t := PullRequestWasRead(states, steps, d, name, t);
    }
  }

  // A status that is not new was there before.
  lemma StaysKnown(c: State, step: Step, d: Detector, name: string)
    requires Inv(c, d) && Enabled(c, step, d) && name in Next(c, step).stored
    requires Next(c, step).stored[name].status.phase != Unset
    ensures name in c.stored && name in c.versions
  {
    hide LogOk;
    hide JobOk;
    hide PodOk;
    hide StatusOk;
    hide LimitOk;
    hide ReconcileStep;
    hide MergePatch;
    hide Observed;
    hide EndsLikeWorker;
  }

  lemma Length(states: seq<State>, steps: seq<Step>, d: Detector)
    requires IsRun(states, steps, d)
    ensures |states| == |steps| + 1
  {
  }

  // A resource that fails after it was approved has used up the attempts that
  // the version read then allows.
  lemma {:induction false} LimitWasUsedUp(states: seq<State>, steps: seq<Step>, d: Detector, name: string, u: nat, i: nat)
      returns (t: nat)
    requires IsRun(states, steps, d) && Fresh(states, steps, name) && u <= i < |states|
    requires name in states[u].stored && states[u].stored[name].status.phase in {Ready, Executing}
    requires name in states[i].stored && states[i].stored[name].status.phase == Failed
    ensures u <= t < i && UsesUp(states[t], steps[t], name)
    decreases i - u
  {
    hide Opens;
    hide UsesUp;
    hide TriageBreaks;
    hide IsRun;
    Length(states, steps, d);
    StepMoves(states, steps, d, name, u);
    var phase := states[u + 1].stored[name].status.phase;
    if phase == Failed {
      t := u;
    } else {
      if phase == PROpen { OpenStaysOpen(states, steps, d, name, u + 1, i); }
      t := LimitWasUsedUp(states, steps, d, name, u + 1, i);
    }
  }

  lemma StoredIsVersioned(c: State, name: string, d: Detector)
    requires Inv(c, d) && name in c.stored
    ensures name in c.versions
  {
    hide LogOk;
    hide JobOk;
    hide PodOk;
    hide StatusOk;
    hide LimitOk;
  }

  lemma {:induction false} OpenStaysOpen(states: seq<State>, steps: seq<Step>, d: Detector, name: string, u: nat, i: nat)
    requires IsRun(states, steps, d) && Fresh(states, steps, name) && u <= i < |states|
    requires name in states[u].stored && states[u].stored[name].status.phase == PROpen
    ensures name in states[i].stored && states[i].stored[name].status.phase == PROpen
    decreases i - u
  {
    hide Opens;
    hide UsesUp;
    hide TriageBreaks;
    if u < i {
      StepMoves(states, steps, d, name, u);
      OpenStaysOpen(states, steps, d, name, u + 1, i);
    }
  }

  // Every failure was seen by a call: the attempts were used up, or triage
  // brought no result.
  lemma {:induction false} FailureWasSeen(states: seq<State>, steps: seq<Step>, d: Detector, name: string, i: nat) returns (t: nat)
    requires IsRun(states, steps, d) && Fresh(states, steps, name) && i < |states|
    requires name in states[i].stored && states[i].stored[name].status.phase == Failed
    ensures t < i && (UsesUp(states[t], steps[t], name) || TriageBreaks(states[t], steps[t], name))
  {
    hide Opens;
    hide UsesUp;
    hide TriageBreaks;
    t := i - 1;
    StepBack(states, steps, d, name, i);
    StepMoves(states, steps, d, name, t);
    if states[t].stored[name].status.phase == Failed {
      t := FailureWasSeen(states, steps, d, name, t);
    }
  }
}
