// The one dead end: an Executing resource whose recorded Job is gone. It stays
// as it is for good, and every other resource can still be finished.
module DeadEnds {
  import opened Wrappers
  import opened Names
  import opened Controller
  import opened Prefilter
  import opened Cluster
  import opened ClusterSafety
  import opened FreshRuns

  ghost predicate Stuck(c: State, name: string) {
    name in c.stored &&
    var st := c.stored[name].status;
    st.phase == Executing && st.execution.jobName != "" && FixJobName(name, EffectiveAttempt(st)) !in c.jobs
  }

  // ---- stuck for good ----

  lemma StuckCall(name: string, view: Resource, jobs: map<string, Job>, pods: seq<Pod>, faults: Faults)
    requires view.status.phase == Executing && view.status.execution.jobName != ""
    requires FixJobName(name, EffectiveAttempt(view.status)) !in jobs
    ensures var o := ReconcileStep(name, view, jobs, pods, faults); o.status == view.status && o.created.None?
  {
    hide FixJobName;
  }

  lemma ForeignCreation(c: State, step: Step, name: string, a: nat)
    requires step.Reconcile? && step.name != name && Computed(c, step).created.Some?
    ensures JobName(Computed(c, step).created.value) != FixJobName(name, a)
  {
    Creations(step.name, step.view, c.jobs, c.pods, step.faults);
    hide ReconcileStep;
    match Computed(c, step).created.value
    case TriageJob(issue, _, _) => RolesApart(name, a, issue);
    case FixJob(issue, attempt, _) => if FixJobName(issue, attempt) == FixJobName(name, a) { FixJobNamesInjective(issue, attempt, name, a); }
  }

  lemma StepKeepsStuck(c: State, step: Step, d: Detector, name: string)
    requires Enabled(c, step, d) && Stuck(c, name) && name in c.versions
    requires step.Reconcile? && step.name == name ==> step.view == c.stored[name]
    ensures Stuck(Next(c, step), name) && Next(c, step).stored[name].status == c.stored[name].status
  {
    hide ReconcileStep;
    hide MergePatch;
    hide Observed;
    hide EndsLikeWorker;
    hide FixJobName;
    if step.Reconcile? {
      if step.name == name {
        StuckCall(name, step.view, c.jobs, c.pods, step.faults);
        FreshPatch(step.view.status, step.view.status);
      } else if Computed(c, step).created.Some? {
        ForeignCreation(c, step, name, EffectiveAttempt(c.stored[name].status));
      }
    }
  }

  lemma {:induction false} StuckForGood(states: seq<State>, steps: seq<Step>, d: Detector, name: string, i: nat, j: nat)
    requires IsRun(states, steps, d) && Fresh(states, steps, name) && i <= j < |states| && Stuck(states[i], name)
    ensures Stuck(states[j], name) && states[j].stored[name].status == states[i].stored[name].status
    decreases j - i
  {
    hide FixJobName;
    hide Next;
    hide Enabled;
    hide Inv;
    if i < j {
      RunStep(states, steps, d, j - 1);
      RunKeeps(states, steps, d, j - 1);
      StuckForGood(states, steps, d, name, i, j - 1);
      StoredHasVersions(states[j - 1], name, d);
      StepKeepsStuck(states[j - 1], steps[j - 1], d, name);
    }
  }

  lemma StoredHasVersions(c: State, name: string, d: Detector)
    requires Inv(c, d) && name in c.stored
    ensures name in c.versions && c.stored[name] in c.versions[name]
  {
    hide LogOk;
    hide JobOk;
    hide PodOk;
    hide StatusOk;
    hide LimitOk;
  }

  // ---- everything else can be finished ----

  // A call that reads what is stored, succeeds, and whose patch arrives.
  ghost predicate Lands(c: State, name: string, faults: Faults, o: Outcome) {
    name in c.stored && name in c.versions && c.stored[name] in c.versions[name] &&
    o == ReconcileStep(name, c.stored[name], c.jobs, c.pods, faults) && o.reply != Error
  }

  lemma Landed(c: State, name: string, faults: Faults, o: Outcome, d: Detector)
    requires Lands(c, name, faults, o)
    ensures var step := Reconcile(name, c.stored[name], faults, false);
      Enabled(c, step, d) &&
      var s := Next(c, step);
      name in s.stored && s.stored[name] == c.stored[name].(status := o.status) &&
      (o.created.None? ==> s.jobs == c.jobs) && (o.created.Some? ==> JobName(o.created.value) in s.jobs)
  {
    hide ReconcileStep;
    hide Observed;
    FreshPatch(c.stored[name].status, o.status);
    hide MergePatch;
  }

  const LISTING_FAILS := Faults(false, true, false)

  // A finished Job whose pods cannot be listed counts as failed.
  lemma TriageFails(name: string, view: Resource, jobs: map<string, Job>, pods: seq<Pod>)
    requires view.status.phase in {Unset, Triage} && TriageJobName(name) in jobs
    requires jobs[TriageJobName(name)].succeeded > 0 || jobs[TriageJobName(name)].failed > 0
    ensures var o := ReconcileStep(name, view, jobs, pods, LISTING_FAILS); o.reply != Error && o.status.phase == Failed
  {
    hide ReadTriage;
    hide FixStep;
    hide TriageJobName;
  }

  lemma FixFails(name: string, view: Resource, jobs: map<string, Job>, pods: seq<Pod>)
    requires view.status.phase in {Ready, Executing} && MaxAttempts(view.spec) == 1
    requires var f := FixJobName(name, EffectiveAttempt(view.status)); f in jobs && (jobs[f].succeeded > 0 || jobs[f].failed > 0)
    ensures var o := ReconcileStep(name, view, jobs, pods, LISTING_FAILS); o.reply != Error && o.status.phase == Failed
  {
    hide ReadFix;
    hide TriageStep;
    hide FixJobName;
  }

  lemma TriageCreates(name: string, view: Resource, jobs: map<string, Job>, pods: seq<Pod>)
    requires view.status.phase in {Unset, Triage} && TriageJobName(name) !in jobs
    ensures var o := ReconcileStep(name, view, jobs, pods, NO_FAULTS);
      o.reply != Error && o.status.phase == Triage &&
      o.created == Some(TriageJob(name, view.spec.title, view.spec.body))
  {
    hide FixStep;
    hide TriageJobName;
  }

  lemma FixCreates(name: string, view: Resource, jobs: map<string, Job>, pods: seq<Pod>)
    requires view.status.phase == Ready || (view.status.phase == Executing && view.status.execution.jobName == "")
    requires FixJobName(name, EffectiveAttempt(view.status)) !in jobs
    ensures var o := ReconcileStep(name, view, jobs, pods, NO_FAULTS); var a := EffectiveAttempt(view.status);
      o.reply != Error && o.status.phase == Executing && EffectiveAttempt(o.status) == a &&
      exists b :: o.created == Some(FixJob(name, a, b))
  {
    hide TriageStep;
    hide FixJobName;
    hide FixBranchName;
  }

  lemma ApprovedLeaves(name: string, view: Resource, jobs: map<string, Job>, pods: seq<Pod>)
    requires view.status.phase == PendingValidation && view.spec.approved
    ensures var o := ReconcileStep(name, view, jobs, pods, NO_FAULTS); o.reply != Error && o.created.None? && o.status.phase == Ready
  {
  }

  ghost predicate Ends(states: seq<State>, steps: seq<Step>, more: seq<State>, further: seq<Step>, d: Detector, name: string) {
    Continues(states, steps, more, further, d, name) &&
    name in more[|further|].stored && Terminal(more[|further|].stored[name].status)
  }


  lemma EndsLater(
    states: seq<State>, steps: seq<Step>, more: seq<State>, further: seq<Step>, most: seq<State>, furthest: seq<Step>,
    d: Detector, name: string)
    requires Continues(states, steps, more, further, d, name) && Ends(more, further, most, furthest, d, name)
    ensures Ends(states, steps, most, furthest, d, name)
  {
    ContinuesOn(states, steps, more, further, most, furthest, d, name);
  }

  // One call more.
  lemma AfterCall(states: seq<State>, steps: seq<Step>, d: Detector, name: string, faults: Faults, o: Outcome)
      returns (more: seq<State>, further: seq<Step>)
    requires IsRun(states, steps, d) && Fresh(states, steps, name) && name in states[|steps|].stored
    requires var c := states[|steps|]; o == ReconcileStep(name, c.stored[name], c.jobs, c.pods, faults) && o.reply != Error
    ensures Continues(states, steps, more, further, d, name)
    ensures var c, s := states[|steps|], more[|further|];
      name in s.stored && s.stored[name] == c.stored[name].(status := o.status) &&
      (o.created.None? ==> s.jobs == c.jobs) && (o.created.Some? ==> JobName(o.created.value) in s.jobs)
  {
    hide ReconcileStep;
    hide Inv;
    var c := states[|steps|];
    RunKeeps(states, steps, d, |steps|);
    StoredHasVersions(c, name, d);
    Landed(c, name, faults, o, d);
    more, further := Append(states, steps, Reconcile(name, c.stored[name], faults, false), d, name);
  }

  // One edit more.
  lemma AfterEdit(states: seq<State>, steps: seq<Step>, d: Detector, name: string, spec: Spec)
      returns (more: seq<State>, further: seq<Step>)
    requires IsRun(states, steps, d) && Fresh(states, steps, name) && name in states[|steps|].stored
    ensures Continues(states, steps, more, further, d, name)
    ensures var c, s := states[|steps|], more[|further|];
      name in s.stored && s.stored[name] == c.stored[name].(spec := spec) && s.jobs == c.jobs
  {
    hide Inv;
    RunKeeps(states, steps, d, |steps|);
    StoredHasVersions(states[|steps|], name, d);
    more, further := Append(states, steps, EditSpec(name, spec), d, name);
  }

  // The Job has ended, if need be by failing.
  lemma AfterJob(states: seq<State>, steps: seq<Step>, d: Detector, name: string, f: string)
      returns (more: seq<State>, further: seq<Step>)
    requires IsRun(states, steps, d) && Fresh(states, steps, name) && name in states[|steps|].stored && f in states[|steps|].jobs
    ensures Continues(states, steps, more, further, d, name)
    ensures var c, s := states[|steps|], more[|further|];
      s.stored == c.stored && f in s.jobs && (s.jobs[f].succeeded > 0 || s.jobs[f].failed > 0)
  {
    var job := states[|steps|].jobs[f];
    if job.succeeded > 0 || job.failed > 0 {
      more, further := states, steps;
    } else {
      more, further := Append(states, steps, JobProgress(f, 0, 1), d, name);
    }
  }

  lemma TriageEnds(states: seq<State>, steps: seq<Step>, d: Detector, name: string)
      returns (more: seq<State>, further: seq<Step>)
    requires IsRun(states, steps, d) && Fresh(states, steps, name) && name in states[|steps|].stored
    requires states[|steps|].stored[name].status.phase in {Unset, Triage}
    ensures Ends(states, steps, more, further, d, name)
  {
    hide ReconcileStep;
    hide IsRun;
    var c, f := states[|steps|], TriageJobName(name);
    more, further := states, steps;
    if f !in c.jobs {
      TriageCreates(name, c.stored[name], c.jobs, c.pods);
      more, further := AfterCall(states, steps, d, name, NO_FAULTS, ReconcileStep(name, c.stored[name], c.jobs, c.pods, NO_FAULTS));
    }
    var m, g := AfterJob(more, further, d, name, f);
    var s := m[|g|];
    TriageFails(name, s.stored[name], s.jobs, s.pods);
    var most, furthest := AfterCall(m, g, d, name, LISTING_FAILS, ReconcileStep(name, s.stored[name], s.jobs, s.pods, LISTING_FAILS));
    EndsLater(more, further, m, g, most, furthest, d, name);
    EndsLater(states, steps, more, further, most, furthest, d, name);
    more, further := most, furthest;
  }

  // The Job of the attempt is there: without another attempt, the work is over
  // when it fails.
  lemma FixEnds(states: seq<State>, steps: seq<Step>, d: Detector, name: string)
      returns (more: seq<State>, further: seq<Step>)
    requires IsRun(states, steps, d) && Fresh(states, steps, name) && name in states[|steps|].stored
    requires states[|steps|].stored[name].status.phase in {Ready, Executing}
    requires FixJobName(name, EffectiveAttempt(states[|steps|].stored[name].status)) in states[|steps|].jobs
    ensures Ends(states, steps, more, further, d, name)
  {
    hide ReconcileStep;
    hide FixJobName;
    hide IsRun;
    var c := states[|steps|];
    var f := FixJobName(name, EffectiveAttempt(c.stored[name].status));
    more, further := AfterEdit(states, steps, d, name, c.stored[name].spec.(maxFixAttempts := Some(1)));
    var m, g := AfterJob(more, further, d, name, f);
    var s := m[|g|];
    FixFails(name, s.stored[name], s.jobs, s.pods);
    var most, furthest := AfterCall(m, g, d, name, LISTING_FAILS, ReconcileStep(name, s.stored[name], s.jobs, s.pods, LISTING_FAILS));
    EndsLater(more, further, m, g, most, furthest, d, name);
    EndsLater(states, steps, more, further, most, furthest, d, name);
    more, further := most, furthest;
  }

  lemma ReadyEnds(states: seq<State>, steps: seq<Step>, d: Detector, name: string)
      returns (more: seq<State>, further: seq<Step>)
    requires IsRun(states, steps, d) && Fresh(states, steps, name) && name in states[|steps|].stored
    requires states[|steps|].stored[name].status.phase in {Ready, Executing} && !Stuck(states[|steps|], name)
    ensures Ends(states, steps, more, further, d, name)
  {
    hide ReconcileStep;
    hide FixJobName;
    hide IsRun;
    var c := states[|steps|];
    if FixJobName(name, EffectiveAttempt(c.stored[name].status)) in c.jobs {
      more, further := FixEnds(states, steps, d, name);
    } else {
      FixCreates(name, c.stored[name], c.jobs, c.pods);
      var m, g := AfterCall(states, steps, d, name, NO_FAULTS, ReconcileStep(name, c.stored[name], c.jobs, c.pods, NO_FAULTS));
      more, further := FixEnds(m, g, d, name);
      EndsLater(states, steps, m, g, more, further, d, name);
    }
  }

  lemma PendingEnds(states: seq<State>, steps: seq<Step>, d: Detector, name: string)
      returns (more: seq<State>, further: seq<Step>)
    requires IsRun(states, steps, d) && Fresh(states, steps, name) && name in states[|steps|].stored
    requires states[|steps|].stored[name].status.phase == PendingValidation
    ensures Ends(states, steps, more, further, d, name)
  {
    hide ReconcileStep;
    hide FixJobName;
    hide IsRun;
    var c := states[|steps|];
    var m, g := AfterEdit(states, steps, d, name, c.stored[name].spec.(approved := true));
    var s := m[|g|];
    ApprovedLeaves(name, s.stored[name], s.jobs, s.pods);
    var n, h := AfterCall(m, g, d, name, NO_FAULTS, ReconcileStep(name, s.stored[name], s.jobs, s.pods, NO_FAULTS));
    more, further := ReadyEnds(n, h, d, name);
    EndsLater(m, g, n, h, more, further, d, name);
    EndsLater(states, steps, m, g, more, further, d, name);
  }

  lemma Finishes(states: seq<State>, steps: seq<Step>, d: Detector, name: string)
      returns (more: seq<State>, further: seq<Step>)
    requires IsRun(states, steps, d) && Fresh(states, steps, name) && name in states[|steps|].stored
    requires !Stuck(states[|steps|], name)
    ensures Ends(states, steps, more, further, d, name)
  {
    FreshRunCoherent(states, steps, d, |steps|, name);
    hide IsRun;
    var phase := states[|steps|].stored[name].status.phase;
    if phase in {Unset, Triage} {
      more, further := TriageEnds(states, steps, d, name);
    } else if phase == PendingValidation {
      more, further := PendingEnds(states, steps, d, name);
    } else if phase in {Ready, Executing} {
      more, further := ReadyEnds(states, steps, d, name);
    } else {
      more, further := states, steps;
    }
  }

  // From a state of a run that reads the resource fresh: some continuation
  // finishes it exactly when it is not stuck.
  lemma FinishesIff(states: seq<State>, steps: seq<Step>, d: Detector, name: string)
    requires IsRun(states, steps, d) && Fresh(states, steps, name) && name in states[|steps|].stored
    ensures (exists more: seq<State>, further: seq<Step> :: Ends(states, steps, more, further, d, name)) <==>
      !Stuck(states[|steps|], name)
  {
    if !Stuck(states[|steps|], name) {
      var more, further := Finishes(states, steps, d, name);
    }
    if more: seq<State>, further: seq<Step> :| Ends(states, steps, more, further, d, name) {
      if Stuck(states[|steps|], name) {
        StaysStuck(states, steps, more, further, d, name);
      }
    }
  }

  lemma StaysStuck(states: seq<State>, steps: seq<Step>, more: seq<State>, further: seq<Step>, d: Detector, name: string)
    requires |states| == |steps| + 1 && Continues(states, steps, more, further, d, name) && Stuck(states[|steps|], name)
    ensures name in more[|further|].stored && !Terminal(more[|further|].stored[name].status)
  {
    assert more[|steps|] == states[|steps|];
    StuckForGood(more, further, d, name, |steps|, |further|);
  }
}
