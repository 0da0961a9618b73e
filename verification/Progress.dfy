// How long a resource can be worked on, and when it waits.
module Progress {
  import opened Wrappers
  import opened Names
  import opened Controller
  import opened Prefilter
  import opened Cluster
  import opened ClusterSafety
  import opened FreshRuns

  // ---- termination ----

  // What counts as a change: of the phase or of the attempt that is next.
  function Stage(st: Status): (Phase, nat) { (st.phase, EffectiveAttempt(st)) }

  // How many changes are left at most, when no attempt exceeds the limit.
  function Measure(st: Status, limit: nat): int {
    match st.phase
    case Unset => 2 * limit + 3
    case Triage => 2 * limit + 2
    case PendingValidation => 2 * limit + 1
    case Ready => 2 * (limit - EffectiveAttempt(st)) + 2
    case Executing => 2 * (limit - EffectiveAttempt(st)) + 1
    case _ => 0
  }

  // An attempt is only ever recorded from Ready on.
  ghost predicate Staged(st: Status, limit: nat) {
    EffectiveAttempt(st) <= limit && !st.phase.Unknown? && st.phase != Done
  }

  lemma FixDecreases(name: string, spec: Spec, st: Status, jobs: map<string, Job>, pods: seq<Pod>, faults: Faults, limit: nat)
    requires Staged(st, limit) && MaxAttempts(spec) <= limit && st.phase in {Ready, Executing, PROpen}
    ensures var o := FixStep(name, spec, st, jobs, pods, faults);
      Stage(o.status) == Stage(st) || Measure(o.status, limit) < Measure(st, limit)
  {
    hide ReadFix;
    hide FixJobName;
  }

  // Every reconcile that changes the stage decreases the measure.
  lemma ReconcileDecreases(name: string, view: Resource, jobs: map<string, Job>, pods: seq<Pod>, faults: Faults, limit: nat)
    requires Staged(view.status, limit) && MaxAttempts(view.spec) <= limit
    ensures var o := ReconcileStep(name, view, jobs, pods, faults);
      Stage(o.status) == Stage(view.status) || Measure(o.status, limit) < Measure(view.status, limit)
    ensures Measure(view.status, limit) >= 0
  {
    hide ReadTriage;
    hide FixStep;
    if view.status.phase in {Ready, Executing, PROpen} {
      FixDecreases(name, view.spec, view.status, jobs, pods, faults, limit);
    }
  }

  // The largest number of attempts any version allows.
  ghost predicate Limited(c: State, limit: nat) {
    limit >= 1 && forall n, v :: n in c.versions && v in c.versions[n] ==> MaxAttempts(v.spec) <= limit
  }

  lemma StoredIsStaged(c: State, name: string, limit: nat, d: Detector)
    requires Inv(c, d) && Limited(c, limit) && name in c.stored
    ensures Staged(c.stored[name].status, limit) && MaxAttempts(c.stored[name].spec) <= limit
  {
    hide LogOk;
    hide JobOk;
    hide PodOk;
    var st := c.stored[name].status;
    assert StatusOk(c.log, name, st);
    if st.execution.attempt >= 2 {
      var v :| v in c.versions[name] && st.execution.attempt - 1 < MaxAttempts(v.spec);
    }
  }

  function Changed(a: State, b: State, name: string): nat {
    if name in a.stored && name in b.stored && Stage(a.stored[name].status) != Stage(b.stored[name].status) then 1 else 0
  }

  // The changes of stage among the first i steps.
  function Changes(states: seq<State>, name: string, i: nat): nat
    requires i < |states|
  {
    if i == 0 then 0 else Changes(states, name, i - 1) + Changed(states[i - 1], states[i], name)
  }

  lemma FreshStepDecreases(c: State, step: Step, d: Detector, name: string, limit: nat)
    requires Inv(c, d) && Limited(c, limit) && Enabled(c, step, d) && name in c.stored
    requires step.Reconcile? && step.name == name ==> step.view == c.stored[name]
    ensures var s := Next(c, step);
      name in s.stored && Measure(c.stored[name].status, limit) >= 0 &&
      Measure(s.stored[name].status, limit) + Changed(c, s, name) <= Measure(c.stored[name].status, limit)
  {
    hide Inv;
    hide Limited;
    hide Measure;
    hide Staged;
    hide MergePatch;
    hide ReconcileStep;
    hide Observed;
    hide EndsLikeWorker;
    StoredIsStaged(c, name, limit, d);
    MeasureNatural(c, name, limit, d);
    if step.Reconcile? && step.name == name {
      var o := ReconcileStep(name, step.view, c.jobs, c.pods, step.faults);
      ReconcileDecreases(name, step.view, c.jobs, c.pods, step.faults, limit);
      FreshPatch(step.view.status, o.status);
      if Stage(step.view.status) == Stage(o.status) { SameStageSameMeasure(step.view.status, o.status, limit); }
    }
  }

  lemma SameStageSameMeasure(a: Status, b: Status, limit: nat)
    requires Stage(a) == Stage(b)
    ensures Measure(a, limit) == Measure(b, limit)
  {
  }

  lemma {:induction false} ChangesBounded(states: seq<State>, steps: seq<Step>, d: Detector, i: nat, name: string, limit: nat)
    requires IsRun(states, steps, d) && Fresh(states, steps, name) && i < |states|
    requires forall k :: 0 <= k < |states| ==> Limited(states[k], limit)
    ensures name !in states[i].stored ==> Changes(states, name, i) == 0
    ensures name in states[i].stored ==>
      Changes(states, name, i) + Measure(states[i].stored[name].status, limit) <= 2 * limit + 3 &&
      Measure(states[i].stored[name].status, limit) >= 0
  {
    hide Measure;
    hide Limited;
    hide Next;
    hide Enabled;
    hide Inv;
    if i > 0 {
      var c, step := states[i - 1], steps[i - 1];
      RunStep(states, steps, d, i - 1);
      ChangesBounded(states, steps, d, i - 1, name, limit);
      RunKeeps(states, steps, d, i - 1);
      RunKeeps(states, steps, d, i);
      if name in c.stored {
        FreshStepDecreases(c, step, d, name, limit);
      } else {
        StillAbsent(c, step, d, name, limit);
      }
      if name in states[i].stored { MeasureNatural(states[i], name, limit, d); }
    }
  }

  lemma MeasureNatural(c: State, name: string, limit: nat, d: Detector)
    requires Inv(c, d) && Limited(c, limit) && name in c.stored
    ensures Measure(c.stored[name].status, limit) >= 0
  {
    StoredIsStaged(c, name, limit, d);
  }

  lemma StillAbsent(c: State, step: Step, d: Detector, name: string, limit: nat)
    requires Enabled(c, step, d) && name !in c.stored
    ensures name in Next(c, step).stored ==> Measure(Next(c, step).stored[name].status, limit) == 2 * limit + 3
  {
    hide ReconcileStep;
    hide Observed;
    hide EndsLikeWorker;
  }

  // A resource changes its stage at most 2 * limit + 3 times in any run,
  // however the limit is edited below that: 23 times within the schema.
  lemma StagesBounded(states: seq<State>, steps: seq<Step>, d: Detector, name: string, limit: nat)
    requires IsRun(states, steps, d) && Fresh(states, steps, name)
    requires forall k :: 0 <= k < |states| ==> Limited(states[k], limit)
    ensures Changes(states, name, |states| - 1) <= 2 * limit + 3
  {
    ChangesBounded(states, steps, d, |states| - 1, name, limit);
  }

  // ---- terminal phases ----

  lemma TerminalStays(name: string, view: Resource, jobs: map<string, Job>, pods: seq<Pod>, faults: Faults)
    requires Terminal(view.status)
    ensures ReconcileStep(name, view, jobs, pods, faults) == Outcome(view.status, None, NoRequeue)
  {
  }

  lemma StepKeepsTerminal(c: State, step: Step, d: Detector, name: string)
    requires Enabled(c, step, d) && name in c.stored && Terminal(c.stored[name].status)
    requires step.Reconcile? && step.name == name ==> step.view == c.stored[name]
    ensures var s := Next(c, step); name in s.stored && s.stored[name].status == c.stored[name].status
  {
    hide ReconcileStep;
    hide MergePatch;
    hide Observed;
    hide EndsLikeWorker;
    if step.Reconcile? && step.name == name {
      TerminalStays(name, step.view, c.jobs, c.pods, step.faults);
      FreshPatch(step.view.status, step.view.status);
    }
  }

  // PROpen, Rejected and Failed are for good: the status is never written again.
  lemma {:induction false} TerminalForGood(states: seq<State>, steps: seq<Step>, d: Detector, name: string, i: nat, j: nat)
    requires IsRun(states, steps, d) && Fresh(states, steps, name) && i <= j < |states|
    requires name in states[i].stored && Terminal(states[i].stored[name].status)
    ensures name in states[j].stored && states[j].stored[name].status == states[i].stored[name].status
    decreases j - i
  {
    hide Next;
    hide Enabled;
    hide Terminal;
    if i < j {
      RunStep(states, steps, d, j - 1);
      TerminalForGood(states, steps, d, name, i, j - 1);
      StepKeepsTerminal(states[j - 1], steps[j - 1], d, name);
    }
  }

  // ---- waiting and waking up ----

  predicate Finished(job: Job) { job.succeeded > 0 || job.failed > 0 }

  // The controller asks for no further call only when the work is over or the
  // recorded fix Job has disappeared.
  lemma NoLostWakeUp(name: string, view: Resource, jobs: map<string, Job>, pods: seq<Pod>, faults: Faults)
    requires !view.status.phase.Unknown?
    ensures var o := ReconcileStep(name, view, jobs, pods, faults);
      o.reply == NoRequeue <==>
        Terminal(o.status) ||
        (view.status.phase == Executing && view.status.execution.jobName != "" && !faults.getJob &&
         FixJobName(name, EffectiveAttempt(view.status)) !in jobs)
  {
    hide ReadFix;
    hide ReadTriage;
    hide FixJobName;
    hide TriageJobName;
  }

  // What a resource waits for in each phase.
  predicate Due(name: string, view: Resource, jobs: map<string, Job>) {
    match view.status.phase
    case Unset => true
    case Triage => TriageJobName(name) in jobs && Finished(jobs[TriageJobName(name)])
    case PendingValidation => view.spec.approved
    case Ready => true
    case Executing =>
      FixJobName(name, EffectiveAttempt(view.status)) in jobs &&
      Finished(jobs[FixJobName(name, EffectiveAttempt(view.status))])
    case _ => false
  }

  // A call that does not fail changes the stage exactly when something is due.
  lemma ProgressIffDue(name: string, view: Resource, jobs: map<string, Job>, pods: seq<Pod>, faults: Faults)
    requires !view.status.phase.Unknown?
    requires ReconcileStep(name, view, jobs, pods, faults).reply != Error
    ensures Stage(ReconcileStep(name, view, jobs, pods, faults).status) != Stage(view.status) <==> Due(name, view, jobs)
  {
    hide ReadFix;
    hide ReadTriage;
    hide FixJobName;
    hide TriageJobName;
  }

  // A successful call for the resource while something is due.
  ghost predicate Serves(c: State, step: Step, name: string) {
    step.Reconcile? && step.name == name && !step.patchLost &&
    ReconcileStep(name, step.view, c.jobs, c.pods, step.faults).reply != Error && Due(name, step.view, c.jobs)
  }

  lemma ServedStepChanges(c: State, step: Step, d: Detector, name: string)
    requires Enabled(c, step, d) && Serves(c, step, name)
    requires step.view == c.stored[step.name] && !step.view.status.phase.Unknown?
    ensures Changed(c, Next(c, step), name) == 1
  {
    hide ReconcileStep;
    hide MergePatch;
    hide Observed;
    hide Due;
    ProgressIffDue(name, step.view, c.jobs, c.pods, step.faults);
    FreshPatch(step.view.status, ReconcileStep(name, step.view, c.jobs, c.pods, step.faults).status);
  }

  // The resource is finished, or some step from lo on and before hi serves it.
  ghost predicate Attended(states: seq<State>, steps: seq<Step>, name: string, lo: nat, hi: nat)
    requires lo <= hi <= |steps| < |states|
  {
    (name in states[lo].stored && Terminal(states[lo].stored[name].status)) ||
    exists t :: lo <= t < hi && Serves(states[t], steps[t], name)
  }

  // Along a stretch of a run the measure never grows.
  lemma {:induction false} MeasureFalls(states: seq<State>, steps: seq<Step>, d: Detector, name: string, limit: nat, lo: nat, hi: nat)
    requires IsRun(states, steps, d) && Fresh(states, steps, name) && lo <= hi < |states|
    requires forall k :: 0 <= k < |states| ==> Limited(states[k], limit)
    requires name in states[lo].stored
    ensures name in states[hi].stored
    ensures Measure(states[hi].stored[name].status, limit) <= Measure(states[lo].stored[name].status, limit)
    decreases hi - lo
  {
    hide Measure;
    hide Limited;
    hide Inv;
    hide Next;
    hide Enabled;
    if lo < hi {
      MeasureFalls(states, steps, d, name, limit, lo, hi - 1);
      RunKeeps(states, steps, d, hi - 1);
      RunStep(states, steps, d, hi - 1);
      FreshStepDecreases(states[hi - 1], steps[hi - 1], d, name, limit);
    }
  }

  lemma ServedStepDecreases(states: seq<State>, steps: seq<Step>, d: Detector, name: string, limit: nat, t: nat)
    requires IsRun(states, steps, d) && Fresh(states, steps, name) && t < |steps|
    requires forall k :: 0 <= k < |states| ==> Limited(states[k], limit)
    requires name in states[t].stored && Serves(states[t], steps[t], name)
    ensures name in states[t + 1].stored
    ensures Measure(states[t + 1].stored[name].status, limit) < Measure(states[t].stored[name].status, limit)
  {
    hide Measure;
    hide Limited;
    hide Inv;
    hide Serves;
    hide Next;
    hide Enabled;
    var c, step := states[t], steps[t];
    RunStep(states, steps, d, t);
    RunKeeps(states, steps, d, t);
    FreshStepDecreases(c, step, d, name, limit);
    FreshRunCoherent(states, steps, d, t, name);
    ServedIsOwn(c, step, name);
    ServedStepChanges(c, step, d, name);
  }

  lemma ServedIsOwn(c: State, step: Step, name: string)
    requires Serves(c, step, name)
    ensures step.Reconcile? && step.name == name
  {
  }

  // A round in which the resource is attended brings it closer to its end.
  lemma RoundMoves(states: seq<State>, steps: seq<Step>, d: Detector, name: string, limit: nat, lo: nat, hi: nat)
    requires IsRun(states, steps, d) && Fresh(states, steps, name) && lo <= hi < |states|
    requires forall k :: 0 <= k < |states| ==> Limited(states[k], limit)
    requires name in states[lo].stored && Attended(states, steps, name, lo, hi)
    ensures name in states[hi].stored
    ensures Terminal(states[hi].stored[name].status) ||
      Measure(states[hi].stored[name].status, limit) < Measure(states[lo].stored[name].status, limit)
  {
    hide Measure;
    hide Limited;
    hide Serves;
    if Terminal(states[lo].stored[name].status) {
      TerminalForGood(states, steps, d, name, lo, hi);
    } else {
      var t :| lo <= t < hi && Serves(states[t], steps[t], name);
      MeasureFalls(states, steps, d, name, limit, lo, t);
      ServedStepDecreases(states, steps, d, name, limit, t);
      MeasureFalls(states, steps, d, name, limit, t + 1, hi);
    }
  }

  // cut[0] <= cut[1] <= ... are points of the run; between each two of them
  // the resource is attended.
  ghost predicate Rounds(states: seq<State>, steps: seq<Step>, name: string, cut: seq<nat>) {
    |states| == |steps| + 1 && cut != [] &&
    (forall k :: 0 <= k < |cut| ==> cut[k] <= |steps|) &&
    (forall k :: 0 <= k < |cut| - 1 ==> cut[k] <= cut[k + 1]) &&
    forall k :: 0 <= k < |cut| - 1 ==> Attended(states, steps, name, cut[k], cut[k + 1])
  }

  lemma {:induction false} RoundsMove(states: seq<State>, steps: seq<Step>, d: Detector, name: string, limit: nat, cut: seq<nat>, k: nat)
    requires IsRun(states, steps, d) && Fresh(states, steps, name) && Rounds(states, steps, name, cut) && k < |cut|
    requires forall k :: 0 <= k < |states| ==> Limited(states[k], limit)
    requires name in states[cut[0]].stored
    ensures name in states[cut[k]].stored
    ensures Terminal(states[cut[k]].stored[name].status) ||
      Measure(states[cut[k]].stored[name].status, limit) <= Measure(states[cut[0]].stored[name].status, limit) - k
  {
    hide Measure;
    hide Limited;
    hide Attended;
    hide IsRun;
    hide Fresh;
    if k > 0 {
      RoundsMove(states, steps, d, name, limit, cut, k - 1);
      assert Attended(states, steps, name, cut[k - 1], cut[k - 1 + 1]);
      RoundMoves(states, steps, d, name, limit, cut[k - 1], cut[k]);
      if Terminal(states[cut[k - 1]].stored[name].status) {
        TerminalForGood(states, steps, d, name, cut[k - 1], cut[k]);
      }
    }
  }

  // A resource that is attended in as many rounds as its measure says, at most
  // 2 * limit + 3, has ended: in PROpen, Rejected or Failed.
  lemma RoundsEnough(states: seq<State>, steps: seq<Step>, d: Detector, name: string, limit: nat, cut: seq<nat>)
    requires IsRun(states, steps, d) && Fresh(states, steps, name) && Rounds(states, steps, name, cut)
    requires forall k :: 0 <= k < |states| ==> Limited(states[k], limit)
    requires name in states[cut[0]].stored
    requires |cut| > Measure(states[cut[0]].stored[name].status, limit) || |cut| > 2 * limit + 3
    ensures var last := cut[|cut| - 1];
      name in states[last].stored && states[last].stored[name].status.phase in {PROpen, Rejected, Failed}
  {
    hide Inv;
    var last := cut[|cut| - 1];
    RoundsMove(states, steps, d, name, limit, cut, |cut| - 1);
    ChangesBounded(states, steps, d, cut[0], name, limit);
    RunKeeps(states, steps, d, last);
    StoredIsStaged(states[last], name, limit, d);
    NothingLeftToDo(states[last].stored[name].status, limit);
  }

  lemma NothingLeftToDo(st: Status, limit: nat)
    requires Staged(st, limit) && (Terminal(st) || Measure(st, limit) <= 0)
    ensures st.phase in {PROpen, Rejected, Failed}
  {
  }

  // Every triage result that is read for the resource is in scope and not
  // suspicious.
  ghost predicate InScope(states: seq<State>, steps: seq<Step>, name: string) {
    |states| == |steps| + 1 &&
    forall t, r :: 0 <= t < |steps| && ReadsResult(states[t], steps[t], name, r) ==> Accepts(r)
  }

  ghost predicate ReadsResult(c: State, step: Step, name: string, r: TriageResult) {
    step.Reconcile? && step.name == name && TriageJobName(name) in c.jobs &&
    ReadTriage(c.pods, name, c.jobs[TriageJobName(name)].uid) == Some(r)
  }

  lemma RejectedWasRead(c: State, step: Step, d: Detector, name: string) returns (r: TriageResult)
    requires Enabled(c, step, d) && step.Reconcile? && step.name == name
    requires step.view.status.phase != Rejected
    requires ReconcileStep(name, step.view, c.jobs, c.pods, step.faults).status.phase == Rejected
    ensures ReadsResult(c, step, name, r) && !Accepts(r)
  {
    hide ReadTriage;
    hide FixStep;
    hide EndsLikeWorker;
    var o := ReconcileStep(name, step.view, c.jobs, c.pods, step.faults);
    RejectsFromTriage(name, step.view, c.jobs, c.pods, step.faults);
    DecisionWasRead(name, step.view, c.jobs, c.pods, step.faults);
    r := Reported(o.status);
  }

  lemma RejectsFromTriage(name: string, view: Resource, jobs: map<string, Job>, pods: seq<Pod>, faults: Faults)
    requires view.status.phase != Rejected && ReconcileStep(name, view, jobs, pods, faults).status.phase == Rejected
    ensures view.status.phase in {Unset, Triage}
  {
    hide ReadTriage;
    hide ReadFix;
    hide FixJobName;
  }

  lemma {:induction false} NeverRejected(states: seq<State>, steps: seq<Step>, d: Detector, name: string, i: nat)
    requires IsRun(states, steps, d) && Fresh(states, steps, name) && InScope(states, steps, name) && i < |states|
    ensures name in states[i].stored ==> states[i].stored[name].status.phase != Rejected
  {
    hide ReadsResult;
    hide Next;
    hide Enabled;
    if i > 0 {
      RunStep(states, steps, d, i - 1);
      NeverRejected(states, steps, d, name, i - 1);
      StepNotRejected(states[i - 1], steps[i - 1], d, name);
    }
  }

  lemma StepNotRejected(c: State, step: Step, d: Detector, name: string)
    requires Enabled(c, step, d) && (name in c.stored ==> c.stored[name].status.phase != Rejected)
    requires step.Reconcile? && step.name == name ==> step.view == c.stored[name]
    requires forall r :: ReadsResult(c, step, name, r) ==> Accepts(r)
    ensures name in Next(c, step).stored ==> Next(c, step).stored[name].status.phase != Rejected
  {
    hide ReconcileStep;
    hide MergePatch;
    hide Observed;
    hide EndsLikeWorker;
    if step.Reconcile? && step.name == name {
      var o := ReconcileStep(name, step.view, c.jobs, c.pods, step.faults);
      FreshPatch(step.view.status, o.status);
      if o.status.phase == Rejected {
        var r := RejectedWasRead(c, step, d, name);
      }
    }
  }

  // If each Job finishes and is seen before it expires, approval is given and
  // triage finds the issue in scope, the work ends in PROpen or Failed, after
  // at most `limit` attempts.
  lemma InScopeEnds(states: seq<State>, steps: seq<Step>, d: Detector, name: string, limit: nat, cut: seq<nat>)
    requires IsRun(states, steps, d) && Fresh(states, steps, name) && Rounds(states, steps, name, cut)
    requires forall k :: 0 <= k < |states| ==> Limited(states[k], limit)
    requires name in states[cut[0]].stored && InScope(states, steps, name)
    requires |cut| > Measure(states[cut[0]].stored[name].status, limit) || |cut| > 2 * limit + 3
    ensures var last := cut[|cut| - 1];
      name in states[last].stored && states[last].stored[name].status.phase in {PROpen, Failed}
    ensures var last := cut[|cut| - 1];
      forall a: nat :: CreatedBy(states, steps, last, name, a) ==> 1 <= a <= limit
  {
    var last := cut[|cut| - 1];
    RoundsEnough(states, steps, d, name, limit, cut);
    NeverRejected(states, steps, d, name, last);
    var k := AttemptsAreBounded(states, steps, d, last, name);
    if k >= 1 {
      var v :| v in states[last].versions[name] && k <= Allowed(v.spec);
      assert MaxAttempts(v.spec) <= limit;
    }
  }
}
