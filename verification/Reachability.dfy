// Runs that exist: an approved issue whose text passes the prefilter can come to
// a fix Job, and from there to the same attempt twice.
module Reachability {
  import opened Wrappers
  import opened Names
  import opened Controller
  import opened Prefilter
  import opened TriageWorker
  import opened Cluster
  import opened ClusterSafety
  import opened FreshRuns
  import opened Repeats

  ghost predicate Passes(title: string, body: string, d: Detector) { !Suspicious(title, TruncateRunes(body, MAX_BODY_RUNES), d) }

  // What the triage pod of the run reports.
  const PLAN := TriageResult(true, false, false, "plan")
  const PLAN_LABELS := {LABEL_EXECUTED, LABEL_NOT_SUSPICIOUS, LABEL_IN_SCOPE, LABEL_PENDING}

  // A resource in this phase, before any attempt.
  ghost predicate InPhase(c: State, name: string, spec: Spec, phase: Phase) {
    name in c.stored && name in c.versions && c.stored[name] in c.versions[name] &&
    c.stored[name].spec == spec && c.stored[name].status.phase == phase &&
    c.stored[name].status.execution == NEW_STATUS.execution
  }

  ghost predicate TriageJobIs(c: State, name: string, spec: Spec, uid: nat, succeeded: nat) {
    TriageJobName(name) in c.jobs && c.jobs[TriageJobName(name)] == Job(TriageJob(name, spec.title, spec.body), uid, succeeded, 0)
  }

  // Should the step create a triage Job for the resource, it is for this text.
  ghost predicate TriagesOnly(c: State, step: Step, name: string, title: string, body: string) {
    forall x, y :: CreatesTriage(c, step, name, x, y) ==> x == title && y == body
  }

  lemma MadeNew(name: string, spec: Spec, d: Detector)
    ensures var step := NewResource(name, spec);
      Enabled(START, step, d) && TriagesOnly(START, step, name, spec.title, spec.body) &&
      InPhase(Next(START, step), name, spec, Unset) && Next(START, step).jobs == map[] && Next(START, step).pods == []
  {
  }

  lemma CreatesTriageJob(c: State, name: string, spec: Spec, d: Detector)
    requires InPhase(c, name, spec, Unset) && c.jobs == map[]
    ensures var step := Call(name, c.stored[name], false);
      Enabled(c, step, d) && TriagesOnly(c, step, name, spec.title, spec.body) &&
      var s := Next(c, step);
      InPhase(s, name, spec, Triage) && TriageJobIs(s, name, spec, c.nextUid, 0) && s.jobs.Keys == {TriageJobName(name)} &&
      s.pods == c.pods && TriageCreated(name, c.nextUid, spec.title, spec.body) in s.log
  {
    hide ReadTriage;
    hide FixStep;
    hide TriageJobName;
    var o := ReconcileStep(name, c.stored[name], c.jobs, c.pods, NO_FAULTS);
    FreshPatch(c.stored[name].status, o.status);
    hide MergePatch;
  }

  lemma PodReports(c: State, name: string, spec: Spec, uid: nat, d: Detector)
    requires TriageCreated(name, uid, spec.title, spec.body) in c.log && Passes(spec.title, spec.body, d)
    ensures var pod := Pod(PodLabels(name, TriageRole, uid), [Terminated(0, TriageMessage(PLAN))]);
      var step := TriagePodEnds(pod, 0, TriageMessage(PLAN), PLAN_LABELS);
      Enabled(c, step, d) && TriagesOnly(c, step, name, spec.title, spec.body) && Next(c, step).pods == c.pods + [pod] &&
      Next(c, step).stored == c.stored && Next(c, step).versions == c.versions && Next(c, step).jobs == c.jobs
  {
    PlanVouched(spec.title, spec.body, d);
    hide Vouched;
  }

  lemma PlanVouched(title: string, body: string, d: Detector)
    requires Passes(title, body, d)
    ensures Vouched(title, body, d, PLAN, PLAN_LABELS)
  {
    hide Suspicious;
  }

  lemma JobSucceeds(c: State, name: string, spec: Spec, uid: nat, d: Detector)
    requires TriageJobIs(c, name, spec, uid, 0)
    ensures var step := JobProgress(TriageJobName(name), 1, 0);
      Enabled(c, step, d) && TriagesOnly(c, step, name, spec.title, spec.body) &&
      TriageJobIs(Next(c, step), name, spec, uid, 1) && Next(c, step).jobs.Keys == c.jobs.Keys &&
      Next(c, step).stored == c.stored && Next(c, step).versions == c.versions && Next(c, step).pods == c.pods
  {
    hide TriageJobName;
  }

  lemma PlanRead(name: string, uid: nat)
    ensures ReadTriage([Pod(PodLabels(name, TriageRole, uid), [Terminated(0, TriageMessage(PLAN))])], name, uid) == Some(PLAN)
  {
    var c := Terminated(0, TriageMessage(PLAN));
    var pod := Pod(PodLabels(name, TriageRole, uid), [c]);
    assert [c][1..] == [] && [pod][1..] == [];
    assert TrustedIn([c]) == [TriageMessage(PLAN)];
    assert TrustedMessages([pod], PodLabels(name, TriageRole, uid)) == [TriageMessage(PLAN)];
  }

  lemma ReadsThePlan(c: State, name: string, spec: Spec, uid: nat, d: Detector)
    requires InPhase(c, name, spec, Triage) && TriageJobIs(c, name, spec, uid, 1) && ReadTriage(c.pods, name, uid) == Some(PLAN)
    ensures var step := Call(name, c.stored[name], false);
      Enabled(c, step, d) && TriagesOnly(c, step, name, spec.title, spec.body) &&
      InPhase(Next(c, step), name, spec, PendingValidation) && Next(c, step).jobs == c.jobs
  {
    hide ReadTriage;
    hide FixStep;
    hide TriageJobName;
    var o := ReconcileStep(name, c.stored[name], c.jobs, c.pods, NO_FAULTS);
    FreshPatch(c.stored[name].status, o.status);
    hide MergePatch;
  }

  lemma ReadsTheApproval(c: State, name: string, spec: Spec, d: Detector)
    requires InPhase(c, name, spec, PendingValidation) && spec.approved
    ensures var step := Call(name, c.stored[name], false);
      Enabled(c, step, d) && TriagesOnly(c, step, name, spec.title, spec.body) &&
      InPhase(Next(c, step), name, spec, Ready) && Next(c, step).jobs == c.jobs
  {
    hide TriageStep;
    hide FixStep;
    var o := ReconcileStep(name, c.stored[name], c.jobs, c.pods, NO_FAULTS);
    FreshPatch(c.stored[name].status, o.status);
    hide MergePatch;
  }

  lemma ReadyCreates(c: State, name: string, spec: Spec)
    requires InPhase(c, name, spec, Ready) && c.jobs.Keys == {TriageJobName(name)}
    ensures Creates(c, name)
  {
    RolesApart(name, 1, name);
    hide FixJobName;
    hide TriageJobName;
    assert FixJobName(name, 1) !in c.jobs.Keys;
  }

  // Every triage Job of the resource was created for this text.
  ghost predicate OnlyText(states: seq<State>, steps: seq<Step>, name: string, title: string, body: string) {
    |states| == |steps| + 1 &&
    forall t :: 0 <= t < |steps| ==> TriagesOnly(states[t], steps[t], name, title, body)
  }

  // A run so far: it reads the resource fresh, loses no patch and creates
  // triage Jobs for this text only.
  ghost predicate Undisturbed(states: seq<State>, steps: seq<Step>, d: Detector, name: string, title: string, body: string) {
    IsRun(states, steps, d) && Fresh(states, steps, name) && OnlyText(states, steps, name, title, body) &&
    forall i :: 0 <= i < |steps| && steps[i].Reconcile? ==> !steps[i].patchLost
  }

  lemma GoOn(states: seq<State>, steps: seq<Step>, step: Step, d: Detector, name: string, title: string, body: string)
      returns (more: seq<State>, further: seq<Step>)
    requires Undisturbed(states, steps, d, name, title, body) && Enabled(states[|steps|], step, d)
    requires step.Reconcile? ==> step.name == name && !step.patchLost && step.view == states[|steps|].stored[name]
    requires TriagesOnly(states[|steps|], step, name, title, body)
    ensures Undisturbed(more, further, d, name, title, body) && states <= more && steps <= further
    ensures |further| == |steps| + 1 && more[|further|] == Next(states[|steps|], step) && further[|steps|] == step
  {
    more, further := Append(states, steps, step, d, name);
    hide IsRun;
    hide Next;
    hide Enabled;
    hide TriagesOnly;
    hide Fresh;
    Lengthened(states, Next(states[|steps|], step));
    Lengthened(steps, step);
  }

  // For every approved issue whose text passes the prefilter there is a run
  // whose next call creates its first fix Job.
  lemma FirstCreation(name: string, spec: Spec, d: Detector) returns (states: seq<State>, steps: seq<Step>)
    requires spec.approved && Passes(spec.title, spec.body, d)
    ensures Undisturbed(states, steps, d, name, spec.title, spec.body) && Creates(states[|steps|], name)
  {
    hide Creates;
    hide Next;
    hide Enabled;
    hide TriagesOnly;
    hide TriageJobIs;
    hide ReadTriage;
    var title, body := spec.title, spec.body;
    states, steps := Triaged(name, spec, d);
    var uid :| AtPlan(states[|steps|], name, spec, uid);
    ReadsThePlan(states[|steps|], name, spec, uid, d);
    states, steps := GoOn(states, steps, Call(name, states[|steps|].stored[name], false), d, name, title, body);
    ReadsTheApproval(states[|steps|], name, spec, d);
    states, steps := GoOn(states, steps, Call(name, states[|steps|].stored[name], false), d, name, title, body);
    ReadyCreates(states[|steps|], name, spec);
  }

  // The triage Job has succeeded and its plan can be read.
  ghost predicate AtPlan(c: State, name: string, spec: Spec, uid: nat) {
    InPhase(c, name, spec, Triage) && TriageJobIs(c, name, spec, uid, 1) && c.jobs.Keys == {TriageJobName(name)} &&
    ReadTriage(c.pods, name, uid) == Some(PLAN)
  }

  lemma Triaged(name: string, spec: Spec, d: Detector) returns (states: seq<State>, steps: seq<Step>)
    requires Passes(spec.title, spec.body, d)
    ensures Undisturbed(states, steps, d, name, spec.title, spec.body)
    ensures exists uid :: AtPlan(states[|steps|], name, spec, uid)
  {
    hide Passes;
    hide Creates;
    hide Next;
    hide Enabled;
    hide TriagesOnly;
    hide ReadTriage;
    var title, body := spec.title, spec.body;
    states, steps := [START], [];
    MadeNew(name, spec, d);
    states, steps := GoOn(states, steps, NewResource(name, spec), d, name, title, body);
    var c := states[|steps|];
    var uid := c.nextUid;
    CreatesTriageJob(c, name, spec, d);
    states, steps := GoOn(states, steps, Call(name, c.stored[name], false), d, name, title, body);
    PodReports(states[|steps|], name, spec, uid, d);
    var pod := Pod(PodLabels(name, TriageRole, uid), [Terminated(0, TriageMessage(PLAN))]);
    states, steps := GoOn(states, steps, TriagePodEnds(pod, 0, TriageMessage(PLAN), PLAN_LABELS), d, name, title, body);
    JobSucceeds(states[|steps|], name, spec, uid, d);
    states, steps := GoOn(states, steps, JobProgress(TriageJobName(name), 1, 0), d, name, title, body);
    assert states[|steps|].pods == [pod];
    PlanRead(name, uid);
    assert AtPlan(states[|steps|], name, spec, uid);
  }

  // ---- what the gate lets through ----

  ghost predicate CreatesSomeFix(states: seq<State>, steps: seq<Step>, name: string) {
    |states| == |steps| + 1 && exists s, a: nat :: 0 <= s < |steps| && CreatesFix(states[s], steps[s], name, a)
  }

  // A resource can come to a fix Job from this text exactly when the text
  // passes the prefilter.
  lemma PrefilterIff(name: string, title: string, body: string, d: Detector)
    ensures (exists states: seq<State>, steps: seq<Step> ::
      IsRun(states, steps, d) && OnlyText(states, steps, name, title, body) && CreatesSomeFix(states, steps, name)) <==>
      Passes(title, body, d)
  {
    if Passes(title, body, d) {
      var states, steps := SomeCreation(name, Spec(1, title, body, true, None), d);
    }
    if states: seq<State>, steps: seq<Step> :|
      IsRun(states, steps, d) && OnlyText(states, steps, name, title, body) && CreatesSomeFix(states, steps, name)
    {
      TextDecides(states, steps, d, name, title, body);
    }
  }

  lemma SomeCreation(name: string, spec: Spec, d: Detector) returns (states: seq<State>, steps: seq<Step>)
    requires spec.approved && Passes(spec.title, spec.body, d)
    ensures IsRun(states, steps, d) && OnlyText(states, steps, name, spec.title, spec.body) && CreatesSomeFix(states, steps, name)
  {
    states, steps := FirstCreation(name, spec, d);
    var c, n := states[|steps|], |steps|;
    var call := Call(name, c.stored[name], false);
    CallCreates(c, name, c.stored[name], false, d);
    CreatesNoTriage(c, call, name, EffectiveAttempt(c.stored[name].status), spec.title, spec.body);
    var a := EffectiveAttempt(c.stored[name].status);
    hide Creates;
    hide CreatesFix;
    hide Next;
    hide Enabled;
    hide TriagesOnly;
    var before := states;
    states, steps := GoOn(states, steps, call, d, name, spec.title, spec.body);
    assert states[n] == before[n] && CreatesFix(states[n], steps[n], name, a);
  }

  lemma CreatesNoTriage(c: State, step: Step, name: string, a: nat, title: string, body: string)
    requires CreatesFix(c, step, name, a)
    ensures TriagesOnly(c, step, name, title, body)
  {
    hide ReconcileStep;
  }

  lemma TextDecides(states: seq<State>, steps: seq<Step>, d: Detector, name: string, title: string, body: string)
    requires IsRun(states, steps, d) && OnlyText(states, steps, name, title, body) && CreatesSomeFix(states, steps, name)
    ensures Passes(title, body, d)
  {
    hide CreatesFix;
    hide CreatesTriage;
    hide Suspicious;
    if !Passes(title, body, d) {
      forall t, x, y | 0 <= t < |steps| && CreatesTriage(states[t], steps[t], name, x, y)
        ensures Suspicious(x, TruncateRunes(y, MAX_BODY_RUNES), d)
      {
        assert TriagesOnly(states[t], steps[t], name, title, body);
      }
      PrefilterHolds(states, steps, d, name);
    }
  }

  // ---- the same attempt twice ----

  // With fresh reads, and one lost patch.
  lemma LostPatchRun(name: string, spec: Spec, d: Detector) returns (states: seq<State>, steps: seq<Step>)
    requires spec.approved && Passes(spec.title, spec.body, d)
    ensures IsRun(states, steps, d) && Fresh(states, steps, name) && CreatedTwice(states, steps, name)
  {
    var some, first := FirstCreation(name, spec, d);
    hide Creates;
    hide CreatesFix;
    states, steps := LostRun(some, first, d, name);
  }

  // With no patch lost, and one stale read.
  lemma StaleReadRun(name: string, spec: Spec, d: Detector) returns (states: seq<State>, steps: seq<Step>)
    requires spec.approved && Passes(spec.title, spec.body, d)
    ensures IsRun(states, steps, d) && CreationsKept(states, steps, name, 0) && CreatedTwice(states, steps, name)
  {
    var some, first := FirstCreation(name, spec, d);
    NothingLost(some, first, d, name, spec.title, spec.body);
    hide Creates;
    hide CreatesFix;
    states, steps := StaleRun(some, first, d, name);
  }

  lemma NothingLost(states: seq<State>, steps: seq<Step>, d: Detector, name: string, title: string, body: string)
    requires Undisturbed(states, steps, d, name, title, body)
    ensures CreationsKept(states, steps, name, 0)
  {
    hide CreatesFix;
  }
}
