// What holds in every run of the cluster, with any interleaving, lost status
// patches, expiring Jobs and stale reads.
module ClusterSafety {
  import opened Wrappers
  import opened Names
  import opened Controller
  import opened Prefilter
  import opened TriageWorker
  import opened Cluster

  // ---- when events happened ----

  // The event a step adds to the log, if any.
  function Added(c: State, step: Step): seq<Event> {
    match step
    case Reconcile(name, view, faults, _) =>
      Observed(name, view, ReconcileStep(name, view, c.jobs, c.pods, faults), c.jobs, c.nextUid)
    case TriagePodEnds(pod, exitCode, message, labels) => PodEvents(pod, exitCode, message, labels)
    case _ => []
  }

  lemma StepAdds(c: State, step: Step, d: Detector)
    requires Enabled(c, step, d)
    ensures Next(c, step).log == c.log + Added(c, step) && |Added(c, step)| <= 1
  {
    hide ReconcileStep;
    hide EndsLikeWorker;
    if step.Reconcile? {
      var o := ReconcileStep(step.name, step.view, c.jobs, c.pods, step.faults);
      AtMostOneEvent(step.name, step.view, o, c.jobs, c.nextUid);
    }
    hide Observed;
  }

  lemma AddedJustified(c: State, step: Step, e: Event, d: Detector)
    requires Inv(c, d) && Enabled(c, step, d) && e in Added(c, step)
    ensures Justified(c.log, e, d)
  {
    hide Inv;
    hide ReconcileStep;
    hide Observed;
    hide Justified;
    hide EndsLikeWorker;
    match step
    case Reconcile(name, view, faults, _) => ObservedJustified(c, name, view, faults, d);
    case TriagePodEnds(pod, exitCode, message, labels) => PodVouches(c, pod, exitCode, message, labels, d);
    case NewResource(_, _) =>
    case EditSpec(_, _) =>
    case JobProgress(_, _, _) =>
    case JobExpires(_) =>
    case OtherPod(_) =>
    case PodsChange(_) =>
  }

  // Whatever is in the log was added by an earlier step, on the evidence of
  // the log that step saw.
  lemma {:induction false} Happened(states: seq<State>, steps: seq<Step>, d: Detector, i: nat, e: Event) returns (t: nat)
    requires IsRun(states, steps, d) && i < |states| && e in states[i].log
    ensures t < i && e in Added(states[t], steps[t]) && Justified(states[t].log, e, d)
  {
    hide Added;
    hide Justified;
    t := i - 1;
    var c, step := states[t], steps[t];
    RunStep(states, steps, d, t);
    hide Next;
    hide Enabled;
    StepAdds(c, step, d);
    if e in c.log {
      t := Happened(states, steps, d, t, e);
    } else {
      RunKeeps(states, steps, d, t);
      AddedJustified(c, step, e, d);
    }
  }

  lemma {:induction false} LogGrows(states: seq<State>, steps: seq<Step>, d: Detector, i: nat, j: nat)
    requires IsRun(states, steps, d) && i <= j < |states|
    ensures states[i].log <= states[j].log
    decreases j - i
  {
    hide Added;
    hide Next;
    hide Enabled;
    if i < j {
      RunStep(states, steps, d, j - 1);
      StepAdds(states[j - 1], steps[j - 1], d);
      LogGrows(states, steps, d, i, j - 1);
    }
  }

  lemma PrefixHas(a: seq<Event>, b: seq<Event>, e: Event)
    requires a <= b && e in a
    ensures e in b
  {
    var i :| 0 <= i < |a| && a[i] == e;
    assert b[i] == e;
  }

  // ---- what a call sees and does ----

  function Computed(c: State, step: Step): Outcome
    requires step.Reconcile?
  {
    ReconcileStep(step.name, step.view, c.jobs, c.pods, step.faults)
  }

  ghost predicate CreatesTriage(c: State, step: Step, name: string, title: string, body: string) {
    step.Reconcile? && step.name == name && Computed(c, step).created == Some(TriageJob(name, title, body))
  }

  ghost predicate CreatesFix(c: State, step: Step, name: string, attempt: nat) {
    step.Reconcile? && step.name == name &&
    exists branch :: Computed(c, step).created == Some(FixJob(name, attempt, branch))
  }

  // The call reads a result that is in scope and not suspicious.
  ghost predicate ReadsPlan(c: State, step: Step, name: string, uid: nat, r: TriageResult) {
    step.Reconcile? && step.name == name && step.view.status.phase in {Unset, Triage} &&
    TriageJobName(name) in c.jobs && c.jobs[TriageJobName(name)].uid == uid &&
    ReadTriage(c.pods, name, uid) == Some(r) && r.inScope && !r.suspicious
  }

  // The call reads the approval of a plan.
  ghost predicate ReadsApproval(step: Step, name: string) {
    step.Reconcile? && step.name == name && step.view.status.phase == PendingValidation && step.view.spec.approved
  }

  // The call sees the Job of the attempt failed, or succeeded without a pull
  // request URL that can be read.
  ghost predicate SeesNoPullRequest(c: State, step: Step, name: string, attempt: nat) {
    step.Reconcile? && step.name == name && FixJobName(name, attempt) in c.jobs &&
    var job := c.jobs[FixJobName(name, attempt)];
    if job.succeeded > 0 then
      step.faults.listPods || ReadFix(c.pods, name, job.uid).None? || ReadFix(c.pods, name, job.uid).value.prURL == ""
    else job.failed > 0
  }

  lemma CreationRecorded(c: State, step: Step, name: string, attempt: nat)
    requires CreatesFix(c, step, name, attempt)
    ensures Added(c, step) == [FixCreated(name, attempt, c.nextUid)]
  {
    Creations(name, step.view, c.jobs, c.pods, step.faults);
    hide ReconcileStep;
  }

  lemma CreationStep(c: State, step: Step, name: string, attempt: nat, uid: nat)
    requires FixCreated(name, attempt, uid) in Added(c, step)
    ensures CreatesFix(c, step, name, attempt)
  {
    hide ReconcileStep;
    if step.Reconcile? { Creations(step.name, step.view, c.jobs, c.pods, step.faults); }
  }

  lemma TriageStepOf(c: State, step: Step, name: string, uid: nat, title: string, body: string)
    requires TriageCreated(name, uid, title, body) in Added(c, step)
    ensures CreatesTriage(c, step, name, title, body)
  {
    hide ReconcileStep;
    if step.Reconcile? { Creations(step.name, step.view, c.jobs, c.pods, step.faults); }
  }

  lemma PlanStep(c: State, step: Step, name: string, uid: nat, r: TriageResult)
    requires Accepted(name, uid, r) in Added(c, step)
    ensures ReadsPlan(c, step, name, uid, r)
  {
    hide ReconcileStep;
    hide ReadTriage;
    if step.Reconcile? { Transitions(step.name, step.view, c.jobs, c.pods, step.faults); }
  }

  lemma ApprovalStep(c: State, step: Step, name: string)
    requires Approved(name) in Added(c, step)
    ensures ReadsApproval(step, name)
  {
    hide ReadFix;
    hide ReadTriage;
  }

  lemma LossStep(c: State, step: Step, name: string, attempt: nat)
    requires AttemptLost(name, attempt) in Added(c, step)
    ensures SeesNoPullRequest(c, step, name, attempt)
  {
    hide ReadFix;
    hide ReadTriage;
  }

  // ---- fix attempts ----

  ghost predicate Created(log: seq<Event>, name: string, attempt: nat) {
    exists uid :: FixCreated(name, attempt, uid) in log
  }

  // Some of the first i steps creates the fix Job of this attempt.
  ghost predicate CreatedBy(states: seq<State>, steps: seq<Step>, i: nat, name: string, attempt: nat)
    requires i <= |steps| < |states|
  {
    exists s :: 0 <= s < i && CreatesFix(states[s], steps[s], name, attempt)
  }

  lemma CreatedIff(states: seq<State>, steps: seq<Step>, d: Detector, i: nat, name: string, attempt: nat)
    requires IsRun(states, steps, d) && i < |states|
    ensures CreatedBy(states, steps, i, name, attempt) <==> Created(states[i].log, name, attempt)
  {
    hide Added;
    hide CreatesFix;
    hide Next;
    hide Enabled;
    if s :| 0 <= s < i && CreatesFix(states[s], steps[s], name, attempt) {
      var c := states[s];
      CreationRecorded(c, steps[s], name, attempt);
      RunStep(states, steps, d, s);
      StepAdds(c, steps[s], d);
      LogGrows(states, steps, d, s + 1, i);
      var e := FixCreated(name, attempt, c.nextUid);
      assert e in Added(c, steps[s]);
      PrefixHas(states[s + 1].log, states[i].log, e);
    }
    if Created(states[i].log, name, attempt) {
      var uid :| FixCreated(name, attempt, uid) in states[i].log;
      var s := Happened(states, steps, d, i, FixCreated(name, attempt, uid));
      CreationStep(states[s], steps[s], name, attempt, uid);
    }
  }

  lemma CreationEvidence(past: seq<Event>, name: string, a: nat, uid: nat, d: Detector)
    requires Justified(past, FixCreated(name, a, uid), d)
    ensures a >= 1 && Approved(name) in past && (a >= 2 ==> AttemptLost(name, a - 1) in past)
  {
  }

  lemma LossEvidence(past: seq<Event>, name: string, a: nat, d: Detector)
    requires Justified(past, AttemptLost(name, a), d)
    ensures Created(past, name, a)
  {
  }

  // Attempt a + 1 is created only after a call saw the Job of attempt a end
  // without a pull request, and that only after attempt a was created.
  lemma AttemptsInOrder(states: seq<State>, steps: seq<Step>, d: Detector, s: nat, name: string, a: nat)
      returns (first: nat, seen: nat)
    requires IsRun(states, steps, d) && s < |steps| && a >= 1 && CreatesFix(states[s], steps[s], name, a + 1)
    ensures first < seen < s
    ensures CreatesFix(states[first], steps[first], name, a) && SeesNoPullRequest(states[seen], steps[seen], name, a)
  {
    hide Added;
    hide CreatesFix;
    hide SeesNoPullRequest;
    hide Justified;
    var creation := FixCreated(name, a + 1, states[s].nextUid);
    CreationRecorded(states[s], steps[s], name, a + 1);
    RunKeeps(states, steps, d, s);
    AddedJustified(states[s], steps[s], creation, d);
    CreationEvidence(states[s].log, name, a + 1, states[s].nextUid, d);
    seen := Happened(states, steps, d, s, AttemptLost(name, a));
    LossStep(states[seen], steps[seen], name, a);
    LossEvidence(states[seen].log, name, a, d);
    var uid :| FixCreated(name, a, uid) in states[seen].log;
    first := Happened(states, steps, d, seen, FixCreated(name, a, uid));
    CreationStep(states[first], steps[first], name, a, uid);
  }

  // What is in the log is justified by a part of the log in front of it.
  lemma WasJustified(log: seq<Event>, e: Event, d: Detector) returns (past: seq<Event>)
    requires LogOk(log, d) && e in log
    ensures past <= log && Justified(past, e, d)
  {
    hide Justified;
    var i :| 0 <= i < |log| && log[i] == e;
    past := log[..i];
    assert Justified(log[..i], log[i], d);
  }

  lemma CreationNeeds(log: seq<Event>, name: string, a: nat, d: Detector)
    requires LogOk(log, d) && Created(log, name, a)
    ensures a >= 1 && (a >= 2 ==> AttemptLost(name, a - 1) in log)
  {
    hide LogOk;
    hide Justified;
    var uid :| FixCreated(name, a, uid) in log;
    var past := WasJustified(log, FixCreated(name, a, uid), d);
    CreationEvidence(past, name, a, uid, d);
    if a >= 2 { PrefixHas(past, log, AttemptLost(name, a - 1)); }
  }

  lemma LossNeeds(log: seq<Event>, name: string, a: nat, d: Detector)
    requires LogOk(log, d) && AttemptLost(name, a) in log
    ensures Created(log, name, a)
  {
    hide LogOk;
    hide Justified;
    var past := WasJustified(log, AttemptLost(name, a), d);
    LossEvidence(past, name, a, d);
    var uid :| FixCreated(name, a, uid) in past;
    PrefixHas(past, log, FixCreated(name, a, uid));
  }

  lemma {:induction false} EarlierAttempts(log: seq<Event>, name: string, a: nat, b: nat, d: Detector)
    requires LogOk(log, d) && Created(log, name, a) && 1 <= b <= a
    ensures Created(log, name, b)
    decreases a
  {
    hide LogOk;
    if b < a {
      CreationNeeds(log, name, a, d);
      LossNeeds(log, name, a - 1, d);
      EarlierAttempts(log, name, a - 1, b, d);
    }
  }

  // The highest attempt of a resource.
  function Highest(log: seq<Event>, name: string): nat {
    if log == [] then 0
    else
      var rest := Highest(log[..|log| - 1], name);
      match log[|log| - 1]
      case FixCreated(issue, attempt, _) => if issue == name && attempt > rest then attempt else rest
      case _ => rest
  }

  lemma {:induction false} HighestIsHighest(log: seq<Event>, name: string)
    ensures forall a: nat :: Created(log, name, a) ==> a <= Highest(log, name)
    ensures Highest(log, name) > 0 ==> Created(log, name, Highest(log, name))
  {
    if log != [] {
      var front, e := log[..|log| - 1], log[|log| - 1];
      HighestIsHighest(front, name);
      assert log == front + [e];
      forall a: nat | Created(log, name, a) ensures a <= Highest(log, name) {
        var uid :| FixCreated(name, a, uid) in log;
        if FixCreated(name, a, uid) in front { assert Created(front, name, a); }
      }
      if Highest(front, name) > 0 {
        var uid :| FixCreated(name, Highest(front, name), uid) in front;
        assert FixCreated(name, Highest(front, name), uid) in log;
      }
      if e.FixCreated? { assert FixCreated(e.issue, e.attempt, e.uid) in log; }
    }
  }

  // Fix Jobs are only created for resources that exist.
  ghost predicate Known(c: State) {
    forall e :: e in c.log && e.FixCreated? ==> e.issue in c.versions
  }

  lemma EventsAreOwn(name: string, view: Resource, jobs: map<string, Job>, pods: seq<Pod>, faults: Faults, uid: nat)
    ensures var more := Observed(name, view, ReconcileStep(name, view, jobs, pods, faults), jobs, uid);
      |more| <= 1 && forall e :: e in more && e.FixCreated? ==> e.issue == name
  {
    hide ReconcileStep;
    Creations(name, view, jobs, pods, faults);
  }

  lemma StepKnown(c: State, step: Step, d: Detector)
    requires Known(c) && Enabled(c, step, d)
    ensures Known(Next(c, step))
  {
    hide ReconcileStep;
    hide Observed;
    hide EndsLikeWorker;
    if step.Reconcile? { EventsAreOwn(step.name, step.view, c.jobs, c.pods, step.faults, c.nextUid); }
  }

  lemma {:induction false} RunKnown(states: seq<State>, steps: seq<Step>, d: Detector, i: nat)
    requires IsRun(states, steps, d) && i < |states|
    ensures Known(states[i])
  {
    hide Known;
    hide Next;
    hide Enabled;
    if i > 0 {
      RunStep(states, steps, d, i - 1);
      RunKnown(states, steps, d, i - 1);
      StepKnown(states[i - 1], steps[i - 1], d);
    } else {
      StartKnown();
    }
  }

  lemma StartKnown()
    ensures Known(START)
  {
  }

  // A limit of 0, which the schema forbids, still lets the first attempt through.
  function Allowed(spec: Spec): nat { if MaxAttempts(spec) == 0 then 1 else MaxAttempts(spec) }

  // The fix Jobs ever created for a resource are those of attempts 1..k, and
  // some stored version of the resource allows k attempts.
  lemma AttemptsAreBounded(states: seq<State>, steps: seq<Step>, d: Detector, i: nat, name: string) returns (k: nat)
    requires IsRun(states, steps, d) && i < |states|
    ensures forall a: nat :: CreatedBy(states, steps, i, name, a) <==> 1 <= a <= k
    ensures k >= 1 ==> name in states[i].versions && exists v :: v in states[i].versions[name] && k <= Allowed(v.spec)
  {
    RunKeeps(states, steps, d, i);
    RunKnown(states, steps, d, i);
    var c := states[i];
    k := Highest(c.log, name);
    HighestIsHighest(c.log, name);
    hide Inv;
    hide Known;
    forall a: nat ensures CreatedBy(states, steps, i, name, a) <==> 1 <= a <= k {
      CreatedIff(states, steps, d, i, name, a);
      AttemptMade(c, name, k, a, d);
    }
    if k >= 1 { LimitAllows(c, name, k, d); }
  }

  lemma AttemptMade(c: State, name: string, k: nat, a: nat, d: Detector)
    requires Inv(c, d) && (k > 0 ==> Created(c.log, name, k)) && (Created(c.log, name, a) ==> a <= k)
    ensures Created(c.log, name, a) <==> 1 <= a <= k
  {
    hide LogOk;
    if 1 <= a <= k { EarlierAttempts(c.log, name, k, a, d); }
    if Created(c.log, name, a) { CreationNeeds(c.log, name, a, d); }
  }

  lemma LimitAllows(c: State, name: string, k: nat, d: Detector)
    requires Inv(c, d) && Known(c) && Created(c.log, name, k)
    ensures name in c.versions && exists v :: v in c.versions[name] && k <= Allowed(v.spec)
  {
    hide LogOk;
    hide JobOk;
    hide PodOk;
    hide StatusOk;
    CreationNeeds(c.log, name, k, d);
    if k >= 2 {
      var v :| v in c.versions[name] && k - 1 < MaxAttempts(v.spec);
      assert k <= Allowed(v.spec);
    } else {
      assert c.stored[name] in c.versions[name] && k <= Allowed(c.stored[name].spec);
    }
  }

  // The range the resource definition allows.
  ghost predicate WithinSchema(spec: Spec) { spec.maxFixAttempts.Some? ==> 1 <= spec.maxFixAttempts.value <= 10 }

  lemma AtMostTenAttempts(states: seq<State>, steps: seq<Step>, d: Detector, i: nat, name: string, a: nat)
    requires IsRun(states, steps, d) && i < |states|
    requires forall n, v :: n in states[i].versions && v in states[i].versions[n] ==> WithinSchema(v.spec)
    requires CreatedBy(states, steps, i, name, a)
    ensures 1 <= a <= 10
  {
    var k := AttemptsAreBounded(states, steps, d, i, name);
  }

  // ---- identities of Jobs ----

  function UidOf(e: Event): Option<nat> {
    match e
    case TriageCreated(_, uid, _, _) => Some(uid)
    case FixCreated(_, _, uid) => Some(uid)
    case _ => None
  }

  ghost predicate UidsDiffer(c: State) {
    (forall e :: e in c.log && UidOf(e).Some? ==> UidOf(e).value < c.nextUid) &&
    forall e, f :: e in c.log && f in c.log && UidOf(e).Some? && UidOf(e) == UidOf(f) ==> e == f
  }

  lemma ObservedUid(name: string, view: Resource, o: Outcome, jobs: map<string, Job>, uid: nat)
    ensures forall e :: e in Observed(name, view, o, jobs, uid) && UidOf(e).Some? ==>
      UidOf(e).value == uid && o.created.Some?
    ensures |Observed(name, view, o, jobs, uid)| <= 1
  {
  }

  lemma StepKeepsUids(c: State, step: Step, d: Detector)
    requires UidsDiffer(c) && Enabled(c, step, d)
    ensures UidsDiffer(Next(c, step))
  {
    hide ReconcileStep;
    hide Observed;
    hide EndsLikeWorker;
    if step.Reconcile? {
      ObservedUid(step.name, step.view, ReconcileStep(step.name, step.view, c.jobs, c.pods, step.faults), c.jobs, c.nextUid);
    }
  }

  lemma {:induction false} RunKeepsUids(states: seq<State>, steps: seq<Step>, d: Detector, i: nat)
    requires IsRun(states, steps, d) && i < |states|
    ensures UidsDiffer(states[i])
  {
    if i > 0 {
      RunStep(states, steps, d, i - 1);
      RunKeepsUids(states, steps, d, i - 1);
      StepKeepsUids(states[i - 1], steps[i - 1], d);
    }
  }

  // ---- the gates ----

  // A triage decision and the evidence for it: the Job was created for this
  // resource, its pod posted the plan and set the labels, and the text it was
  // given passed the prefilter if the decision says so.
  ghost predicate Evidence(log: seq<Event>, name: string, uid: nat, r: TriageResult, labels: set<string>, title: string, body: string, d: Detector) {
    TriageCreated(name, uid, title, body) in log && PodVouched(uid, r, labels) in log &&
    Vouched(title, body, d, r, labels)
  }

  lemma VouchedForJob(c: State, name: string, uid: nat, title: string, body: string, r: TriageResult, labels: set<string>, d: Detector)
    requires Inv(c, d) && UidsDiffer(c)
    requires TriageCreated(name, uid, title, body) in c.log && PodVouched(uid, r, labels) in c.log
    ensures Vouched(title, body, d, r, labels)
  {
    hide Vouched;
    hide JobOk;
    hide PodOk;
    hide StatusOk;
    var past := WasJustified(c.log, PodVouched(uid, r, labels), d);
    var issue, t, b :| TriageCreated(issue, uid, t, b) in past && Vouched(t, b, d, r, labels);
    var e, f := TriageCreated(issue, uid, t, b), TriageCreated(name, uid, title, body);
    PrefixHas(past, c.log, e);
    assert f in c.log && UidOf(e) == UidOf(f) == Some(uid);
    assert e == f;
  }

  // No fix Job without a human's approval of a plan: before the call that
  // creates it, a call read the approval, and before that a call read a triage
  // result that is in scope and not suspicious, that a pod vouched for with its
  // plan comment and the pending label, for a text that passed the prefilter.
  lemma GateHolds(states: seq<State>, steps: seq<Step>, d: Detector, s: nat, name: string, attempt: nat)
      returns (approval: nat, plan: nat, uid: nat, r: TriageResult, labels: set<string>, title: string, body: string)
    requires IsRun(states, steps, d) && s < |steps| && CreatesFix(states[s], steps[s], name, attempt)
    ensures plan < approval < s && ReadsApproval(steps[approval], name) && ReadsPlan(states[plan], steps[plan], name, uid, r)
    ensures Evidence(states[plan].log, name, uid, r, labels, title, body, d) && r.commentURL != ""
    ensures LABEL_PENDING in labels && LABEL_REJECTED !in labels
    ensures !Suspicious(title, TruncateRunes(body, MAX_BODY_RUNES), d)
  {
    hide Added;
    hide CreatesFix;
    CreationRecorded(states[s], steps[s], name, attempt);
    RunKeeps(states, steps, d, s);
    AddedJustified(states[s], steps[s], FixCreated(name, attempt, states[s].nextUid), d);
    approval := Happened(states, steps, d, s, Approved(name));
    ApprovalStep(states[approval], steps[approval], name);
    uid, r :| Accepted(name, uid, r) in states[approval].log;
    plan := Happened(states, steps, d, approval, Accepted(name, uid, r));
    PlanStep(states[plan], steps[plan], name, uid, r);
    RunKeeps(states, steps, d, plan);
    RunKeepsUids(states, steps, d, plan);
    labels, title, body := PlanHasEvidence(states[plan], name, uid, r, d);
  }

  lemma PlanHasEvidence(c: State, name: string, uid: nat, r: TriageResult, d: Detector)
      returns (labels: set<string>, title: string, body: string)
    requires Inv(c, d) && UidsDiffer(c) && Justified(c.log, Accepted(name, uid, r), d)
    ensures Accepts(r) && Evidence(c.log, name, uid, r, labels, title, body, d)
  {
    hide Vouched;
    hide Inv;
    title, body :| TriageCreated(name, uid, title, body) in c.log;
    labels :| PodVouched(uid, r, labels) in c.log;
    VouchedForJob(c, name, uid, title, body, r, labels, d);
  }

  // An issue whose text is suspicious each time a triage Job is created for it
  // never gets a fix Job, whatever the model would have answered.
  lemma PrefilterHolds(states: seq<State>, steps: seq<Step>, d: Detector, name: string)
    requires IsRun(states, steps, d)
    requires forall t, title, body :: 0 <= t < |steps| && CreatesTriage(states[t], steps[t], name, title, body) ==>
      Suspicious(title, TruncateRunes(body, MAX_BODY_RUNES), d)
    ensures forall s, a: nat :: 0 <= s < |steps| ==> !CreatesFix(states[s], steps[s], name, a)
  {
    hide CreatesFix;
    hide CreatesTriage;
    hide Suspicious;
    forall s, a: nat | 0 <= s < |steps| ensures !CreatesFix(states[s], steps[s], name, a) {
      if CreatesFix(states[s], steps[s], name, a) {
        var approval, plan, uid, r, labels, title, body := GateHolds(states, steps, d, s, name, a);
        var t := Happened(states, steps, d, plan, TriageCreated(name, uid, title, body));
        TriageStepOf(states[t], steps[t], name, uid, title, body);
      }
    }
  }

  // ---- controller and worker agree ----

  lemma DecisionWasRead(name: string, view: Resource, jobs: map<string, Job>, pods: seq<Pod>, faults: Faults)
    requires var o := ReconcileStep(name, view, jobs, pods, faults);
      view.status.phase in {Unset, Triage} && o.status.phase in {PendingValidation, Rejected}
    ensures var o := ReconcileStep(name, view, jobs, pods, faults);
      TriageJobName(name) in jobs &&
      ReadTriage(pods, name, jobs[TriageJobName(name)].uid) == Some(Reported(o.status)) &&
      (o.status.phase == PendingValidation <==> Accepts(Reported(o.status)))
  {
  }

  // Whenever triage is decided, the pod whose result is believed has posted
  // the plan and left the labels that go with the decision.
  lemma DecisionIsVouched(states: seq<State>, steps: seq<Step>, d: Detector, i: nat, name: string, view: Resource, faults: Faults)
      returns (uid: nat, labels: set<string>)
    requires IsRun(states, steps, d) && i < |states|
    requires name in states[i].versions && view in states[i].versions[name] && view.status.phase in {Unset, Triage}
    requires ReconcileStep(name, view, states[i].jobs, states[i].pods, faults).status.phase in {PendingValidation, Rejected}
    ensures var o := ReconcileStep(name, view, states[i].jobs, states[i].pods, faults);
      PodVouched(uid, Reported(o.status), labels) in states[i].log && o.status.commentURL != "" &&
      (LABEL_PENDING in labels <==> o.status.phase == PendingValidation) &&
      (LABEL_REJECTED in labels <==> o.status.phase == Rejected)
  {
    RunKeeps(states, steps, d, i);
    RunKeepsUids(states, steps, d, i);
    DecisionWasRead(name, view, states[i].jobs, states[i].pods, faults);
    hide ReconcileStep;
    hide ReadTriage;
    var c := states[i];
    var job := c.jobs[TriageJobName(name)];
    uid := job.uid;
    TriageJobAt(c.log, c.nextUid, name, job);
    ReadWasVouched(c.log, c.pods, name, uid);
    var r := Reported(ReconcileStep(name, view, c.jobs, c.pods, faults).status);
    labels :| PodVouched(uid, r, labels) in c.log;
    var title, body :| TriageCreated(name, uid, title, body) in c.log;
    VouchedForJob(c, name, uid, title, body, r, labels, d);
  }
}
