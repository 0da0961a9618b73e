// What holds in addition when calls for a resource read its latest version,
// and when no patch behind the creation of a fix Job gets lost.
module FreshRuns {
  import opened Wrappers
  import opened Names
  import opened Controller
  import opened Prefilter
  import opened Cluster
  import opened ClusterSafety

  // The calls for this resource read what is stored. Other resources may be
  // read stale.
  ghost predicate Fresh(states: seq<State>, steps: seq<Step>, name: string) {
    |states| == |steps| + 1 &&
    forall i :: 0 <= i < |steps| && steps[i].Reconcile? && steps[i].name == name ==>
      name in states[i].stored && steps[i].view == states[i].stored[name]
  }

  predicate Terminal(st: Status) { st.phase in {PROpen, Done, Rejected, Failed} }

  // ---- phase and conditions ----

  predicate IsTrue(st: Status, c: ConditionType) { c in st.conditions && st.conditions[c] }

  // Phase, conditions and pull request URL tell the same story.
  ghost predicate Coherent(st: Status) {
    (st.phase == Failed <==> IsTrue(st, FailedCondition)) &&
    (st.phase == PendingValidation <==> IsTrue(st, AwaitingApproval)) &&
    (st.phase == PROpen <==> IsTrue(st, PROpenCondition)) &&
    (st.phase == PROpen <==> st.execution.prURL != "") &&
    ReadyCondition !in st.conditions && st.phase != Done && !st.phase.Unknown?
  }

  lemma TriageCoherent(name: string, spec: Spec, st: Status, jobs: map<string, Job>, pods: seq<Pod>, faults: Faults)
    requires Coherent(st) && st.phase == Triage
    ensures Coherent(TriageStep(name, spec, st, jobs, pods, faults).status)
  {
    hide ReadTriage;
  }

  lemma FailureCoherent(st: Status, attempt: nat, maxAttempts: nat)
    requires Coherent(st) && st.phase in {Ready, Executing}
    ensures Coherent(FixFailure(st, attempt, maxAttempts).status)
  {
  }

  lemma FixCoherent(name: string, spec: Spec, st: Status, jobs: map<string, Job>, pods: seq<Pod>, faults: Faults)
    requires Coherent(st) && st.phase in {Ready, Executing, PROpen}
    ensures Coherent(FixStep(name, spec, st, jobs, pods, faults).status)
  {
    hide ReadFix;
    hide FixFailure;
    if st.phase != PROpen { FailureCoherent(st, EffectiveAttempt(st), MaxAttempts(spec)); }
  }

  lemma ReconcileCoherent(name: string, view: Resource, jobs: map<string, Job>, pods: seq<Pod>, faults: Faults)
    requires Coherent(view.status)
    ensures Coherent(ReconcileStep(name, view, jobs, pods, faults).status)
  {
    hide TriageStep;
    hide FixStep;
    var st := if view.status.phase == Unset then view.status.(phase := Triage) else view.status;
    if st.phase == Triage { TriageCoherent(name, view.spec, st, jobs, pods, faults); }
    if st.phase in {Ready, Executing, PROpen} { FixCoherent(name, view.spec, st, jobs, pods, faults); }
  }

  ghost predicate CoherentAt(c: State, name: string) {
    name in c.stored ==> Coherent(c.stored[name].status)
  }

  lemma FreshStepCoherent(c: State, step: Step, d: Detector, name: string)
    requires CoherentAt(c, name) && Enabled(c, step, d)
    requires step.Reconcile? && step.name == name ==> step.view == c.stored[name]
    ensures CoherentAt(Next(c, step), name)
  {
    hide Observed;
    hide EndsLikeWorker;
    if step.Reconcile? && step.name == name {
      ReconcileCoherent(step.name, step.view, c.jobs, c.pods, step.faults);
      var o := ReconcileStep(step.name, step.view, c.jobs, c.pods, step.faults);
      FreshPatch(step.view.status, o.status);
    }
    hide ReconcileStep;
    hide Coherent;
    hide MergePatch;
  }

  lemma {:induction false} FreshRunCoherent(states: seq<State>, steps: seq<Step>, d: Detector, i: nat, name: string)
    requires IsRun(states, steps, d) && Fresh(states, steps, name) && i < |states|
    ensures CoherentAt(states[i], name)
  {
    hide Coherent;
    hide Next;
    hide Enabled;
    if i > 0 {
      RunStep(states, steps, d, i - 1);
      FreshRunCoherent(states, steps, d, i - 1, name);
      FreshStepCoherent(states[i - 1], steps[i - 1], d, name);
    }
  }

  // ---- each attempt once ----

  // The attempts fix Jobs were created for, in order.
  function Attempts(log: seq<Event>, name: string): seq<nat> {
    if log == [] then []
    else
      Attempts(log[..|log| - 1], name) +
      (match log[|log| - 1]
       case FixCreated(issue, attempt, _) => if issue == name then [attempt] else []
       case _ => [])
  }

  function UpTo(k: nat): seq<nat> { seq(k, i requires 0 <= i < k => i + 1) }

  lemma AttemptsAppend(log: seq<Event>, more: seq<Event>, name: string)
    requires |more| <= 1
    ensures Attempts(log + more, name) == Attempts(log, name) +
      (if more != [] && more[0].FixCreated? && more[0].issue == name then [more[0].attempt] else [])
  {
    if more == [] {
      assert log + more == log;
    } else {
      assert (log + more)[..|log + more| - 1] == log;
    }
  }

  lemma {:induction false} AttemptsHas(log: seq<Event>, name: string, attempt: nat, uid: nat)
    requires FixCreated(name, attempt, uid) in log
    ensures attempt in Attempts(log, name)
  {
    var front, e := log[..|log| - 1], log[|log| - 1];
    assert log == front + [e];
    if FixCreated(name, attempt, uid) in front {
      AttemptsHas(front, name, attempt, uid);
    }
  }

  // What a status says about the attempts made.
  ghost predicate Tallied(log: seq<Event>, name: string, st: Status) {
    var e, made := st.execution, Attempts(log, name);
    match st.phase
    case Ready =>
      (e.attempt == 0 && e.jobName == "" && made == []) ||
      (e.attempt >= 2 && e.jobName == FixJobName(name, e.attempt - 1) && made == UpTo(e.attempt - 1))
    case Executing => e.attempt >= 1 && e.jobName == FixJobName(name, e.attempt) && made == UpTo(e.attempt)
    case PROpen => e.attempt >= 1 && e.jobName == FixJobName(name, e.attempt) && made == UpTo(e.attempt)
    case Failed => exists k: nat :: made == UpTo(k)
    case _ => e.attempt == 0 && e.jobName == "" && made == []
  }

  // The branch of an Executing resource is that of its attempt, for the issue
  // number of some version.
  ghost predicate Branched(versions: set<Resource>, st: Status) {
    st.phase == Executing ==>
      exists v :: v in versions && st.execution.branch == FixBranchName(v.spec.issueNumber, st.execution.attempt)
  }

  ghost predicate TalliedAt(c: State, name: string) {
    name in c.stored && name in c.versions ==>
      Tallied(c.log, name, c.stored[name].status) && Branched(c.versions[name], c.stored[name].status)
  }

  lemma UpToFacts(k: nat)
    ensures |UpTo(k)| == k && UpTo(k) + [k + 1] == UpTo(k + 1)
    ensures forall a: nat :: a in UpTo(k) <==> 1 <= a <= k
  {
    forall a: nat ensures a in UpTo(k) <==> 1 <= a <= k {
      if 1 <= a <= k { assert UpTo(k)[a - 1] == a; }
    }
  }

  lemma JobNamesNotEmpty(name: string, attempt: nat)
    ensures FixJobName(name, attempt) != ""
  {
  }

  // Every fix Job that exists was counted.
  ghost predicate Counted(log: seq<Event>, name: string, jobs: map<string, Job>) {
    forall a: nat :: FixJobName(name, a) in jobs ==> a in Attempts(log, name)
  }

  // In Ready the next attempt has no Job yet, so it is created.
  lemma ReadyTally(log: seq<Event>, name: string, spec: Spec, st: Status, jobs: map<string, Job>, pods: seq<Pod>, faults: Faults, uid: nat)
    requires Tallied(log, name, st) && st.phase == Ready && Counted(log, name, jobs)
    ensures var o := FixStep(name, spec, st, jobs, pods, faults); var now := EffectiveAttempt(st);
      o.reply != Error ==>
        o.created == Some(FixJob(name, now, FixBranchName(spec.issueNumber, now))) &&
        o.status.execution.branch == FixBranchName(spec.issueNumber, o.status.execution.attempt) &&
        Tallied(log + [FixCreated(name, now, uid)], name, o.status)
  {
    hide FixJobName;
    hide FixBranchName;
    var now := EffectiveAttempt(st);
    UpToFacts(now - 1);
    assert FixJobName(name, now) !in jobs;
    AttemptsAppend(log, [FixCreated(name, now, uid)], name);
  }

  // In Executing the Job is known by name, so it is never created again.
  lemma ExecutingTally(log: seq<Event>, name: string, spec: Spec, st: Status, jobs: map<string, Job>, pods: seq<Pod>, faults: Faults)
    requires Tallied(log, name, st) && st.phase in {Executing, PROpen}
    ensures var o := FixStep(name, spec, st, jobs, pods, faults);
      o.created.None? && Tallied(log, name, o.status) &&
      (o.status.phase == Executing ==> st.phase == Executing && o.status.execution == st.execution)
  {
    hide ReadFix;
    hide FixJobName;
    hide FixBranchName;
    hide Attempts;
    JobNamesNotEmpty(name, st.execution.attempt);
    UpToFacts(st.execution.attempt);
  }

  lemma OtherTally(log: seq<Event>, name: string, view: Resource, jobs: map<string, Job>, pods: seq<Pod>, faults: Faults)
    requires Tallied(log, name, view.status) && view.status.phase !in {Ready, Executing, PROpen}
    ensures var o := ReconcileStep(name, view, jobs, pods, faults);
      (o.created.Some? ==> o.created.value.TriageJob?) && Tallied(log, name, o.status) && o.status.phase != Executing
  {
    hide ReadTriage;
    hide Attempts;
    hide FixStep;
    UpToFacts(0);
    if view.status.phase != Failed { assert Attempts(log, name) == UpTo(0); }
  }

  lemma ReconcileTally(log: seq<Event>, name: string, view: Resource, jobs: map<string, Job>, pods: seq<Pod>, faults: Faults, uid: nat)
    requires Tallied(log, name, view.status) && Counted(log, name, jobs)
    ensures var o := ReconcileStep(name, view, jobs, pods, faults);
      var seen := log + Observed(name, view, o, jobs, uid);
      if o.reply == Error then seen == log
      else
        Tallied(seen, name, o.status) &&
        (o.status.phase == Executing ==>
           (view.status.phase == Executing && o.status.execution == view.status.execution) ||
           o.status.execution.branch == FixBranchName(view.spec.issueNumber, o.status.execution.attempt))
  {
    hide Tallied;
    hide FixStep;
    hide TriageStep;
    hide FixBranchName;
    var o := ReconcileStep(name, view, jobs, pods, faults);
    var more := Observed(name, view, o, jobs, uid);
    var phase := view.status.phase;
    if phase == Ready {
      ReadyTally(log, name, view.spec, view.status, jobs, pods, faults, uid);
    } else if phase in {Executing, PROpen} {
      ExecutingTally(log, name, view.spec, view.status, jobs, pods, faults);
      SameTally(log, more, name, o.status);
    } else {
      OtherTally(log, name, view, jobs, pods, faults);
      SameTally(log, more, name, o.status);
    }
  }

  lemma SameTally(log: seq<Event>, more: seq<Event>, name: string, st: Status)
    requires |more| <= 1 && forall e :: e in more ==> !(e.FixCreated? && e.issue == name)
    ensures Attempts(log + more, name) == Attempts(log, name)
    ensures Tallied(log + more, name, st) <==> Tallied(log, name, st)
  {
    if more != [] { assert more[0] in more; }
    AttemptsAppend(log, more, name);
  }

  lemma JobsCounted(c: State, name: string, d: Detector)
    requires Inv(c, d)
    ensures Counted(c.log, name, c.jobs)
  {
    forall a: nat | FixJobName(name, a) in c.jobs ensures a in Attempts(c.log, name) {
      FixJobAt(c.log, c.nextUid, name, a, c.jobs[FixJobName(name, a)]);
      AttemptsHas(c.log, name, a, c.jobs[FixJobName(name, a)].uid);
    }
  }

  // A fix Job was created and the patch behind it got lost: its creation is
  // nowhere recorded.
  ghost predicate LosesCreation(c: State, step: Step, name: string) {
    step.Reconcile? && step.patchLost && exists a :: CreatesFix(c, step, name, a)
  }

  // No such loss from step `from` on. Lost patches of polls, of triage, of an
  // approval and of other resources do not matter.
  ghost predicate CreationsKept(states: seq<State>, steps: seq<Step>, name: string, from: nat) {
    |states| == |steps| + 1 && forall i :: from <= i < |steps| ==> !LosesCreation(states[i], steps[i], name)
  }

  lemma CreationIsLost(c: State, step: Step, name: string)
    requires step.Reconcile? && step.name == name && step.patchLost && !LosesCreation(c, step, name)
    ensures forall e :: e in Added(c, step) ==> !(e.FixCreated? && e.issue == name)
  {
    hide CreatesFix;
    forall e | e in Added(c, step) && e.FixCreated? && e.issue == name ensures false {
      CreationStep(c, step, name, e.attempt, e.uid);
    }
  }

  // A call for the resource itself.
  lemma OwnCallTally(c: State, step: Step, d: Detector, name: string)
    requires Inv(c, d) && TalliedAt(c, name) && Enabled(c, step, d)
    requires step.Reconcile? && step.name == name && step.view == c.stored[name] && !LosesCreation(c, step, name)
    ensures TalliedAt(Next(c, step), name)
  {
    hide LosesCreation;
    hide Inv;
    hide Tallied;
    hide ReconcileStep;
    hide Observed;
    hide FixBranchName;
    var o := ReconcileStep(name, step.view, c.jobs, c.pods, step.faults);
    var more := Observed(name, step.view, o, c.jobs, c.nextUid);
    JobsCounted(c, name, d);
    ReconcileTally(c.log, name, step.view, c.jobs, c.pods, step.faults, c.nextUid);
    EventsAreOwn(name, step.view, c.jobs, c.pods, step.faults, c.nextUid);
    FreshPatch(step.view.status, o.status);
    hide MergePatch;
    if step.patchLost {
      CreationIsLost(c, step, name);
      SameTally(c.log, more, name, step.view.status);
    }
  }

  // A step that is no call for the resource and does not make it.
  ghost predicate Foreign(step: Step, name: string) {
    !(step.Reconcile? && step.name == name) && !(step.NewResource? && step.name == name)
  }

  lemma ForeignStep(c: State, step: Step, d: Detector, name: string)
    requires Enabled(c, step, d) && Foreign(step, name)
    ensures var s := Next(c, step);
      (name in s.stored <==> name in c.stored) &&
      (name in c.stored ==> s.stored[name].status == c.stored[name].status) &&
      (name in c.versions ==> name in s.versions && c.versions[name] <= s.versions[name]) &&
      (name in s.versions ==> name in c.versions)
  {
    hide ReconcileStep;
    hide MergePatch;
    hide EndsLikeWorker;
    hide Observed;
  }

  lemma ForeignEvent(c: State, step: Step, d: Detector, name: string)
    requires Enabled(c, step, d) && Foreign(step, name)
    ensures forall e :: e in Added(c, step) ==> !(e.FixCreated? && e.issue == name)
  {
    hide ReconcileStep;
    hide EndsLikeWorker;
    if step.Reconcile? { EventsAreOwn(step.name, step.view, c.jobs, c.pods, step.faults, c.nextUid); }
  }

  lemma StepTally(c: State, step: Step, d: Detector, name: string)
    requires Inv(c, d) && Known(c) && TalliedAt(c, name) && Enabled(c, step, d)
    requires step.Reconcile? && step.name == name ==> step.view == c.stored[name]
    requires !LosesCreation(c, step, name)
    ensures TalliedAt(Next(c, step), name)
  {
    if Foreign(step, name) {
      ForeignStep(c, step, d, name);
      ForeignEvent(c, step, d, name);
      StepAdds(c, step, d);
      hide Inv;
      hide Next;
      hide Enabled;
      hide Added;
      hide Tallied;
      if name in c.stored { SameTally(c.log, Added(c, step), name, c.stored[name].status); }
    } else if step.Reconcile? {
      hide Next;
      hide TalliedAt;
      hide Inv;
      OwnCallTally(c, step, d, name);
    } else {
      NewTally(c, name, d);
    }
  }

  lemma {:induction false} NothingAttempted(log: seq<Event>, name: string)
    requires forall e :: e in log && e.FixCreated? ==> e.issue != name
    ensures Attempts(log, name) == []
  {
    if log != [] {
      assert log == log[..|log| - 1] + [log[|log| - 1]];
      NothingAttempted(log[..|log| - 1], name);
    }
  }

  lemma NewTally(c: State, name: string, d: Detector)
    requires Known(c) && name !in c.versions
    ensures Tallied(c.log, name, NEW_STATUS)
  {
    NothingAttempted(c.log, name);
  }

  lemma {:induction false} RunTallied(states: seq<State>, steps: seq<Step>, d: Detector, i: nat, name: string)
    requires IsRun(states, steps, d) && Fresh(states, steps, name) && CreationsKept(states, steps, name, 0) && i < |states|
    ensures TalliedAt(states[i], name)
  {
    hide TalliedAt;
    hide Next;
    hide Enabled;
    hide Inv;
    if i > 0 {
      RunStep(states, steps, d, i - 1);
      RunTallied(states, steps, d, i - 1, name);
      RunKeeps(states, steps, d, i - 1);
      RunKnown(states, steps, d, i - 1);
      StepTally(states[i - 1], steps[i - 1], d, name);
    } else {
      StartTallied(name);
    }
  }

  lemma StartTallied(name: string)
    ensures TalliedAt(START, name)
  {
  }

  // The fix Jobs of a resource are created once each, in the order
  // 1, 2, ..., k, although expired Jobs disappear; the recorded Job name and
  // branch are those of the attempt.
  lemma EachAttemptOnce(states: seq<State>, steps: seq<Step>, d: Detector, i: nat, name: string)
    requires IsRun(states, steps, d) && Fresh(states, steps, name) && CreationsKept(states, steps, name, 0) && i < |states|
    ensures exists k: nat :: Attempts(states[i].log, name) == UpTo(k)
    ensures TalliedAt(states[i], name)
  {
    RunTallied(states, steps, d, i, name);
    RunKeeps(states, steps, d, i);
    RunKnown(states, steps, d, i);
    UpToFacts(0);
    if name in states[i].stored {
      SomeTally(states[i].log, name, states[i].stored[name].status);
    } else {
      NothingAttempted(states[i].log, name);
      assert Attempts(states[i].log, name) == UpTo(0);
    }
  }

  lemma SomeTally(log: seq<Event>, name: string, st: Status)
    requires Tallied(log, name, st)
    ensures exists k: nat :: Attempts(log, name) == UpTo(k)
  {
    UpToFacts(0);
    assert Attempts(log, name) == [] ==> Attempts(log, name) == UpTo(0);
  }

  // In terms of the steps: no two of them create the same attempt.
  lemma CreatedOnce(states: seq<State>, steps: seq<Step>, d: Detector, name: string, s: nat, t: nat, a: nat)
    requires IsRun(states, steps, d) && Fresh(states, steps, name) && CreationsKept(states, steps, name, 0)
    requires s < t < |steps| && CreatesFix(states[s], steps[s], name, a)
    ensures !CreatesFix(states[t], steps[t], name, a)
  {
    hide CreatesFix;
    if CreatesFix(states[t], steps[t], name, a) {
      assert CreatedBy(states, steps, t, name, a);
      CreatedIff(states, steps, d, t, name, a);
      EachAttemptOnce(states, steps, d, t, name);
      EachAttemptOnce(states, steps, d, t + 1, name);
      CreationRecorded(states[t], steps[t], name, a);
      RunStep(states, steps, d, t);
      StepAdds(states[t], steps[t], d);
      hide Next;
      hide Enabled;
      hide Added;
      CountedTwice(states[t].log, name, a, states[t].nextUid);
    }
  }

  lemma CountedTwice(log: seq<Event>, name: string, a: nat, uid: nat)
    requires Created(log, name, a) && exists k: nat :: Attempts(log, name) == UpTo(k)
    ensures !exists k: nat :: Attempts(log + [FixCreated(name, a, uid)], name) == UpTo(k)
  {
    var first :| FixCreated(name, a, first) in log;
    AttemptsHas(log, name, a, first);
    AttemptsAppend(log, [FixCreated(name, a, uid)], name);
    var k: nat :| Attempts(log, name) == UpTo(k);
    UpToFacts(k);
    UpToFacts(k + 1);
    assert UpTo(k + 1)[k] == k + 1 && (UpTo(k) + [a])[k] == a;
  }

  // ---- longer runs ----

  // A run that goes on from another one.
  ghost predicate Continues(states: seq<State>, steps: seq<Step>, more: seq<State>, further: seq<Step>, d: Detector, name: string) {
    IsRun(more, further, d) && Fresh(more, further, name) && states <= more && steps <= further
  }

  lemma ContinuesOn(
    states: seq<State>, steps: seq<Step>, more: seq<State>, further: seq<Step>, most: seq<State>, furthest: seq<Step>,
    d: Detector, name: string)
    requires Continues(states, steps, more, further, d, name) && Continues(more, further, most, furthest, d, name)
    ensures Continues(states, steps, most, furthest, d, name)
  {
    hide IsRun;
    hide Fresh;
  }

  lemma Append(states: seq<State>, steps: seq<Step>, step: Step, d: Detector, name: string)
      returns (more: seq<State>, further: seq<Step>)
    requires IsRun(states, steps, d) && Fresh(states, steps, name) && Enabled(states[|steps|], step, d)
    requires step.Reconcile? && step.name == name ==> step.view == states[|steps|].stored[name]
    ensures Continues(states, steps, more, further, d, name) && further == steps + [step]
    ensures more == states + [Next(states[|steps|], step)]
  {
    var s := Next(states[|steps|], step);
    more, further := states + [s], steps + [step];
    forall i | 0 <= i < |further|
      ensures Enabled(more[i], further[i], d) && more[i + 1] == Next(more[i], further[i])
    {
      if i < |steps| { RunStep(states, steps, d, i); }
    }
    Lengthened(states, s);
    Lengthened(steps, step);
  }

  lemma Lengthened<T>(xs: seq<T>, x: T)
    ensures xs <= xs + [x] && (xs + [x])[|xs|] == x && forall i :: 0 <= i < |xs| ==> (xs + [x])[i] == xs[i]
  {
  }
}
