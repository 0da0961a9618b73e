// The whole cluster: any number of resources, their Jobs and pods, the
// controller, the triage worker and the surroundings, one step at a time.
module Cluster {
  import opened Wrappers
  import opened Names
  import opened Controller
  import opened Prefilter
  import opened TriageWorker

  // ---- states ----

  // What has happened, in order.
  datatype Event =
    | TriageCreated(issue: string, uid: nat, title: string, body: string)
    | PodVouched(uid: nat, result: TriageResult, labels: set<string>)
    | Accepted(issue: string, uid: nat, result: TriageResult)
    | Approved(issue: string)
    | FixCreated(issue: string, attempt: nat, uid: nat)
    | AttemptLost(issue: string, attempt: nat)

  // versions holds every version of a resource that was ever stored: the
  // cache may serve any of them.
  datatype State = State(
    stored: map<string, Resource>,
    versions: map<string, set<Resource>>,
    jobs: map<string, Job>,
    pods: seq<Pod>,
    nextUid: nat,
    log: seq<Event>)

  const START := State(map[], map[], map[], [], 0, [])

  // ---- steps ----

  datatype Step =
    | NewResource(name: string, spec: Spec)
    | EditSpec(name: string, spec: Spec)
    | Reconcile(name: string, view: Resource, faults: Faults, patchLost: bool)
    | JobProgress(jobName: string, succeeded: nat, failed: nat)
    | JobExpires(jobName: string)
    | TriagePodEnds(pod: Pod, exitCode: int, message: Message, labels: set<string>)
    | OtherPod(pod: Pod)
    | PodsChange(pods: seq<Pod>)

  // The event of a reconcile, if any.
  function Observed(name: string, view: Resource, o: Outcome, jobs: map<string, Job>, uid: nat): seq<Event> {
    if o.reply == Error then []
    else
      match o.created
      case Some(TriageJob(issue, title, body)) => [TriageCreated(issue, uid, title, body)]
      case Some(FixJob(issue, attempt, _)) => [FixCreated(issue, attempt, uid)]
      case None =>
        if view.status.phase in {Unset, Triage} && o.status.phase == PendingValidation && TriageJobName(name) in jobs then
          [Accepted(name, jobs[TriageJobName(name)].uid, Reported(o.status))]
        else if view.status.phase == PendingValidation && o.status.phase == Ready then [Approved(name)]
        else if view.status.phase in {Ready, Executing} && o.status.phase == Ready &&
          o.status.execution.attempt == EffectiveAttempt(view.status) + 1 then
          [AttemptLost(name, EffectiveAttempt(view.status))]
        else []
  }

  // The triage result a status reports.
  function Reported(st: Status): TriageResult {
    TriageResult(st.triage.inScope, st.triage.suspicious, st.triage.parseError, st.commentURL)
  }

  function Store(c: State, name: string, r: Resource): State
    requires name in c.versions
  {
    c.(stored := c.stored[name := r], versions := c.versions[name := c.versions[name] + {r}])
  }

  // The cluster after the Job was created and the event recorded, before the
  // status is patched.
  function Ran(c: State, name: string, view: Resource, faults: Faults): State {
    var o := ReconcileStep(name, view, c.jobs, c.pods, faults);
    var seen := c.log + Observed(name, view, o, c.jobs, c.nextUid);
    match o.created
    case None => c.(log := seen)
    case Some(t) => c.(log := seen, jobs := c.jobs[JobName(t) := Job(t, c.nextUid, 0, 0)], nextUid := c.nextUid + 1)
  }

  function AfterReconcile(c: State, name: string, view: Resource, faults: Faults, patchLost: bool): State
    requires name in c.stored && name in c.versions
  {
    var o := ReconcileStep(name, view, c.jobs, c.pods, faults);
    var ran := Ran(c, name, view, faults);
    if o.reply == Error || patchLost then ran
    else Store(ran, name, c.stored[name].(status := MergePatch(view.status, o.status, c.stored[name].status)))
  }

  // A triage pod belongs to a Job that was created, and its container ends the
  // way the worker ends; on the way its message may be cut off.
  ghost predicate EndsLikeWorker(c: State, pod: Pod, exitCode: int, message: Message, labels: set<string>, d: Detector) {
    pod.labels.role == TriageRole && pod.containers == [Terminated(exitCode, message)] &&
    (exitCode == 0 && message != NoMessage && message != Garbled ==>
      message.TriageMessage? &&
      exists issue, title, body ::
        TriageCreated(issue, pod.labels.jobUid, title, body) in c.log &&
        Vouched(title, body, d, message.triage, labels))
  }

  ghost predicate Enabled(c: State, step: Step, d: Detector) {
    match step
    case NewResource(name, spec) => name !in c.stored && name !in c.versions
    case EditSpec(name, spec) => name in c.stored && name in c.versions
    case Reconcile(name, view, _, _) => name in c.stored && name in c.versions && view in c.versions[name]
    case JobProgress(jobName, _, _) => jobName in c.jobs
    case JobExpires(jobName) => jobName in c.jobs && (c.jobs[jobName].succeeded > 0 || c.jobs[jobName].failed > 0)
    case TriagePodEnds(pod, exitCode, message, labels) => EndsLikeWorker(c, pod, exitCode, message, labels, d)
    case OtherPod(pod) => pod.labels.role == FixRole
    case PodsChange(pods) => forall p :: p in pods ==> p in c.pods
  }

  function PodEvents(pod: Pod, exitCode: int, message: Message, labels: set<string>): seq<Event> {
    if exitCode == 0 && message.TriageMessage? then [PodVouched(pod.labels.jobUid, message.triage, labels)] else []
  }

  function Next(c: State, step: Step): State
    requires step.EditSpec? || step.Reconcile? ==> step.name in c.stored && step.name in c.versions
    requires step.JobProgress? ==> step.jobName in c.jobs
  {
    match step
    case NewResource(name, spec) =>
      c.(stored := c.stored[name := Resource(spec, NEW_STATUS)], versions := c.versions[name := {Resource(spec, NEW_STATUS)}])
    case EditSpec(name, spec) => Store(c, name, c.stored[name].(spec := spec))
    case Reconcile(name, view, faults, patchLost) => AfterReconcile(c, name, view, faults, patchLost)
    case JobProgress(jobName, succeeded, failed) =>
      c.(jobs := c.jobs[jobName := c.jobs[jobName].(succeeded := succeeded, failed := failed)])
    case JobExpires(jobName) => c.(jobs := c.jobs - {jobName})
    case TriagePodEnds(pod, exitCode, message, labels) =>
      c.(pods := c.pods + [pod],
         log := c.log + PodEvents(pod, exitCode, message, labels))
    case OtherPod(pod) => c.(pods := c.pods + [pod])
    case PodsChange(pods) => c.(pods := pods)
  }

  // A run from the empty cluster: states[i + 1] follows from states[i].
  ghost predicate IsRun(states: seq<State>, steps: seq<Step>, d: Detector) {
    |states| == |steps| + 1 && states[0] == START &&
    forall i :: 0 <= i < |steps| ==> Enabled(states[i], steps[i], d) && states[i + 1] == Next(states[i], steps[i])
  }

  lemma RunStep(states: seq<State>, steps: seq<Step>, d: Detector, i: nat)
    requires IsRun(states, steps, d) && i < |steps|
    ensures Enabled(states[i], steps[i], d) && states[i + 1] == Next(states[i], steps[i])
  {
  }

  // ---- what every step keeps ----

  // What must have happened before an event can.
  ghost predicate Justified(past: seq<Event>, e: Event, d: Detector) {
    match e
    case TriageCreated(_, _, _, _) => true
    case PodVouched(uid, r, labels) =>
      exists issue, title, body :: TriageCreated(issue, uid, title, body) in past && Vouched(title, body, d, r, labels)
    case Accepted(issue, uid, r) =>
      Accepts(r) && (exists title, body :: TriageCreated(issue, uid, title, body) in past) &&
      exists labels :: PodVouched(uid, r, labels) in past
    case Approved(issue) => WasAccepted(past, issue)
    case FixCreated(issue, attempt, _) =>
      attempt >= 1 && Approved(issue) in past && (attempt >= 2 ==> AttemptLost(issue, attempt - 1) in past)
    case AttemptLost(issue, attempt) => exists uid :: FixCreated(issue, attempt, uid) in past
  }

  ghost predicate WasAccepted(past: seq<Event>, issue: string) {
    exists uid, r :: Accepted(issue, uid, r) in past
  }

  ghost predicate LogOk(log: seq<Event>, d: Detector) {
    forall i :: 0 <= i < |log| ==> Justified(log[..i], log[i], d)
  }

  ghost predicate JobOk(log: seq<Event>, nextUid: nat, jobName: string, job: Job) {
    jobName == JobName(job.template) && job.uid < nextUid &&
    match job.template
    case TriageJob(issue, title, body) => TriageCreated(issue, job.uid, title, body) in log
    case FixJob(issue, attempt, _) => FixCreated(issue, attempt, job.uid) in log
  }

  // Whatever the triage reader may read from the pod has been vouched for.
  ghost predicate PodOk(log: seq<Event>, p: Pod) {
    p.labels.role == TriageRole ==>
      forall m :: m in TrustedIn(p.containers) && DecodeTriage(m).Some? ==>
        exists labels :: PodVouched(p.labels.jobUid, DecodeTriage(m).value, labels) in log
  }

  ghost predicate StatusOk(log: seq<Event>, name: string, st: Status) {
    (st.phase == PendingValidation ==> WasAccepted(log, name)) &&
    (st.phase in {Ready, Executing, PROpen} ==> Approved(name) in log) &&
    (st.execution.attempt >= 2 ==> AttemptLost(name, st.execution.attempt - 1) in log) &&
    !st.phase.Unknown? && st.phase != Done
  }

  // Every lost attempt was below the limit of some version.
  ghost predicate LimitOk(c: State) {
    forall name, a: nat :: AttemptLost(name, a) in c.log ==>
      name in c.versions && exists v :: v in c.versions[name] && a < MaxAttempts(v.spec)
  }

  ghost predicate Inv(c: State, d: Detector) {
    LogOk(c.log, d) &&
    (forall n :: n in c.jobs ==> JobOk(c.log, c.nextUid, n, c.jobs[n])) &&
    (forall p :: p in c.pods ==> PodOk(c.log, p)) &&
    (forall n :: n in c.stored ==> n in c.versions && c.stored[n] in c.versions[n]) &&
    (forall n, v :: n in c.versions && v in c.versions[n] ==> StatusOk(c.log, n, v.status)) &&
    (forall n :: n in c.versions ==> n in c.stored) &&
    LimitOk(c)
  }

  // ---- the log only grows ----

  lemma LogAppend(log: seq<Event>, more: seq<Event>, d: Detector)
    requires LogOk(log, d) && |more| <= 1 && forall e :: e in more ==> Justified(log, e, d)
    ensures LogOk(log + more, d)
  {
    hide Justified;
    var all := log + more;
    forall i | 0 <= i < |all| ensures Justified(all[..i], all[i], d) {
      if i < |log| {
        assert all[..i] == log[..i];
      } else {
        assert all[..i] == log && all[i] == more[0] && more[0] in more;
      }
    }
  }

  lemma JobStillOk(log: seq<Event>, more: seq<Event>, n: nat, m: nat, jobName: string, job: Job)
    requires JobOk(log, n, jobName, job) && n <= m
    ensures JobOk(log + more, m, jobName, job)
  {
  }

  lemma PodStillOk(log: seq<Event>, more: seq<Event>, p: Pod)
    requires PodOk(log, p)
    ensures PodOk(log + more, p)
  {
    if p.labels.role == TriageRole {
      forall m | m in TrustedIn(p.containers) && DecodeTriage(m).Some?
        ensures exists labels :: PodVouched(p.labels.jobUid, DecodeTriage(m).value, labels) in log + more
      {
        var labels :| PodVouched(p.labels.jobUid, DecodeTriage(m).value, labels) in log;
        assert PodVouched(p.labels.jobUid, DecodeTriage(m).value, labels) in log + more;
      }
    }
  }

  lemma StatusStillOk(log: seq<Event>, more: seq<Event>, name: string, st: Status)
    requires StatusOk(log, name, st)
    ensures StatusOk(log + more, name, st)
  {
    if WasAccepted(log, name) {
      var uid, r :| Accepted(name, uid, r) in log;
      assert Accepted(name, uid, r) in log + more;
    }
  }

  // ---- a name belongs to one Job only ----

  lemma TriageJobAt(log: seq<Event>, nextUid: nat, name: string, job: Job)
    requires JobOk(log, nextUid, TriageJobName(name), job)
    ensures exists title, body :: TriageCreated(name, job.uid, title, body) in log
  {
    match job.template
    case TriageJob(issue, title, body) =>
      TriageJobNamesInjective(issue, name);
      assert TriageCreated(name, job.uid, title, body) in log;
    case FixJob(issue, attempt, _) => RolesApart(issue, attempt, name);
  }

  lemma FixJobAt(log: seq<Event>, nextUid: nat, name: string, attempt: nat, job: Job)
    requires JobOk(log, nextUid, FixJobName(name, attempt), job)
    ensures FixCreated(name, attempt, job.uid) in log
  {
    match job.template
    case TriageJob(issue, _, _) => RolesApart(name, attempt, issue);
    case FixJob(issue, a, _) => FixJobNamesInjective(issue, a, name, attempt);
  }

  // ---- what is read was vouched for ----

  lemma {:induction false} ReadFromPod(pods: seq<Pod>, labels: PodLabels, m: Message)
    requires m in TrustedMessages(pods, labels)
    ensures exists p :: p in pods && p.labels == labels && m in TrustedIn(p.containers)
  {
    if pods[0].labels == labels && m in TrustedIn(pods[0].containers) {
      assert pods[0] in pods;
    } else {
      ReadFromPod(pods[1..], labels, m);
      var p :| p in pods[1..] && p.labels == labels && m in TrustedIn(p.containers);
      assert p in pods;
    }
  }

  lemma ReadWasVouched(log: seq<Event>, pods: seq<Pod>, issue: string, uid: nat)
    requires forall p :: p in pods ==> PodOk(log, p)
    requires ReadTriage(pods, issue, uid).Some?
    ensures exists labels :: PodVouched(uid, ReadTriage(pods, issue, uid).value, labels) in log
  {
    var key := PodLabels(issue, TriageRole, uid);
    var m := TrustedMessages(pods, key)[0];
    assert m in TrustedMessages(pods, key);
    ReadFromPod(pods, key, m);
    var p :| p in pods && p.labels == key && m in TrustedIn(p.containers);
    assert PodOk(log, p);
  }

  // ---- one reconcile ----

  lemma FixTransitions(name: string, spec: Spec, st: Status, jobs: map<string, Job>, pods: seq<Pod>, faults: Faults)
    requires st.phase in {Ready, Executing, PROpen}
    ensures var o := FixStep(name, spec, st, jobs, pods, faults);
      var q, a, b, now := o.status.phase, st.execution.attempt, o.status.execution.attempt, EffectiveAttempt(st);
      q in {Ready, Executing, PROpen, Failed} &&
      (b == a || b == now ||
        (b == now + 1 && st.phase in {Ready, Executing} && q == Ready && FixJobName(name, now) in jobs &&
         now < MaxAttempts(spec) && o.created.None?))
  {
    hide ReadFix;
    hide FixJobName;
    hide FixBranchName;
  }

  // Which changes of phase and attempt a reconcile can compute, and on what
  // evidence.
  lemma Transitions(name: string, view: Resource, jobs: map<string, Job>, pods: seq<Pod>, faults: Faults)
    ensures var o := ReconcileStep(name, view, jobs, pods, faults);
      var p, q := view.status.phase, o.status.phase;
      var a, b := view.status.execution.attempt, o.status.execution.attempt;
      var now := EffectiveAttempt(view.status);
      (q == PendingValidation ==>
        (p == PendingValidation ||
          (p in {Unset, Triage} && TriageJobName(name) in jobs && Accepts(Reported(o.status)) &&
            ReadTriage(pods, name, jobs[TriageJobName(name)].uid) == Some(Reported(o.status))))) &&
      (q in {Ready, Executing, PROpen} ==> p in {Ready, Executing, PROpen} || (p == PendingValidation && q == Ready)) &&
      (b == a || b == now ||
        (b == now + 1 && p in {Ready, Executing} && q == Ready && FixJobName(name, now) in jobs &&
         now < MaxAttempts(view.spec) && o.created.None?)) &&
      (q.Unknown? || q == Done ==> q == p)
  {
    hide FixStep;
    hide TriageJobName;
    hide FixJobName;
    if view.status.phase in {Ready, Executing, PROpen} {
      FixTransitions(name, view.spec, view.status, jobs, pods, faults);
    }
  }

  lemma Creations(name: string, view: Resource, jobs: map<string, Job>, pods: seq<Pod>, faults: Faults)
    ensures var o := ReconcileStep(name, view, jobs, pods, faults);
      (o.created.Some? ==> o.reply != Error && o.status.phase in {Triage, Executing}) &&
      match o.created
      case None => true
      case Some(TriageJob(issue, _, _)) => issue == name
      case Some(FixJob(issue, attempt, _)) =>
        issue == name && view.status.phase in {Ready, Executing} && attempt == EffectiveAttempt(view.status)
  {
  }

  lemma AcceptedJustified(c: State, name: string, r: TriageResult, d: Detector)
    requires Inv(c, d) && TriageJobName(name) in c.jobs && Accepts(r)
    requires ReadTriage(c.pods, name, c.jobs[TriageJobName(name)].uid) == Some(r)
    ensures Justified(c.log, Accepted(name, c.jobs[TriageJobName(name)].uid, r), d)
  {
    hide ReadTriage;
    TriageJobAt(c.log, c.nextUid, name, c.jobs[TriageJobName(name)]);
    ReadWasVouched(c.log, c.pods, name, c.jobs[TriageJobName(name)].uid);
  }

  lemma LostJustified(c: State, name: string, attempt: nat, d: Detector)
    requires Inv(c, d) && FixJobName(name, attempt) in c.jobs
    ensures Justified(c.log, AttemptLost(name, attempt), d)
  {
    FixJobAt(c.log, c.nextUid, name, attempt, c.jobs[FixJobName(name, attempt)]);
  }

  lemma FromStatusJustified(log: seq<Event>, name: string, st: Status, uid: nat, d: Detector)
    requires StatusOk(log, name, st)
    ensures st.phase in {Ready, Executing} ==> Justified(log, FixCreated(name, EffectiveAttempt(st), uid), d)
    ensures st.phase == PendingValidation ==> Justified(log, Approved(name), d)
  {
  }

  lemma ObservedJustified(c: State, name: string, view: Resource, faults: Faults, d: Detector)
    requires Inv(c, d) && name in c.versions && view in c.versions[name]
    ensures var o := ReconcileStep(name, view, c.jobs, c.pods, faults);
      forall e :: e in Observed(name, view, o, c.jobs, c.nextUid) ==> Justified(c.log, e, d)
  {
    hide ReconcileStep;
    hide StatusOk;
    hide ReadTriage;
    var o := ReconcileStep(name, view, c.jobs, c.pods, faults);
    Transitions(name, view, c.jobs, c.pods, faults);
    Creations(name, view, c.jobs, c.pods, faults);
    assert StatusOk(c.log, name, view.status);
    FromStatusJustified(c.log, name, view.status, c.nextUid, d);
    forall e | e in Observed(name, view, o, c.jobs, c.nextUid) ensures Justified(c.log, e, d) {
      match e
      case Accepted(_, _, r) => AcceptedJustified(c, name, r, d);
      case AttemptLost(_, a) => LostJustified(c, name, a, d);
      case TriageCreated(_, _, _, _) =>
      case FixCreated(_, _, _) =>
      case Approved(_) =>
    }
  }

  lemma ComputedOk(c: State, name: string, view: Resource, faults: Faults, d: Detector)
    requires Inv(c, d) && name in c.versions && view in c.versions[name]
    ensures var o := ReconcileStep(name, view, c.jobs, c.pods, faults);
      o.reply != Error ==> StatusOk(c.log + Observed(name, view, o, c.jobs, c.nextUid), name, o.status)
  {
    hide ReconcileStep;
    hide ReadTriage;
    hide JobOk;
    hide PodOk;
    hide LogOk;
    var o := ReconcileStep(name, view, c.jobs, c.pods, faults);
    var more := Observed(name, view, o, c.jobs, c.nextUid);
    Transitions(name, view, c.jobs, c.pods, faults);
    Creations(name, view, c.jobs, c.pods, faults);
    if o.reply != Error { ComputedFromRead(c.log, more, name, view, o, c.jobs, c.nextUid); }
  }

  lemma ComputedFromRead(log: seq<Event>, more: seq<Event>, name: string, view: Resource, o: Outcome, jobs: map<string, Job>, uid: nat)
    requires StatusOk(log, name, view.status) && more == Observed(name, view, o, jobs, uid) && o.reply != Error
    requires o.status.phase == PendingValidation ==>
      view.status.phase == PendingValidation || (view.status.phase in {Unset, Triage} && TriageJobName(name) in jobs)
    requires o.status.phase in {Ready, Executing, PROpen} ==>
      view.status.phase in {Ready, Executing, PROpen} || (view.status.phase == PendingValidation && o.status.phase == Ready)
    requires var b := o.status.execution.attempt; var now := EffectiveAttempt(view.status);
      b == view.status.execution.attempt || b == now ||
      (b == now + 1 && view.status.phase in {Ready, Executing} && o.status.phase == Ready && o.created.None?)
    requires o.created.Some? && o.created.value.FixJob? ==> view.status.phase in {Ready, Executing}
    requires o.created.Some? ==> o.status.phase != PendingValidation && o.status.phase != Ready
    requires o.status.phase.Unknown? || o.status.phase == Done ==> o.status.phase == view.status.phase
    ensures StatusOk(log + more, name, o.status)
  {
    StatusStillOk(log, more, name, view.status);
    if more != [] { assert more[0] in log + more; }
  }

  // Phase and attempt of a patched status are those computed or those stored.
  lemma PatchOk(log: seq<Event>, name: string, read: Status, computed: Status, stored: Status)
    requires StatusOk(log, name, computed) && StatusOk(log, name, stored)
    ensures StatusOk(log, name, MergePatch(read, computed, stored))
  {
  }

  lemma LimitKept(c: State, name: string, view: Resource, faults: Faults, d: Detector)
    requires Inv(c, d) && name in c.versions && view in c.versions[name]
    ensures var o := ReconcileStep(name, view, c.jobs, c.pods, faults);
      forall n, a: nat :: AttemptLost(n, a) in Observed(name, view, o, c.jobs, c.nextUid) ==>
        n == name && a < MaxAttempts(view.spec)
  {
    hide ReconcileStep;
    Transitions(name, view, c.jobs, c.pods, faults);
  }

  // ---- every step keeps the invariant ----

  // The parts of the invariant that only speak of what has happened survive
  // whatever happens next.
  lemma Grown(c: State, more: seq<Event>, d: Detector)
    requires Inv(c, d) && |more| <= 1 && forall e :: e in more ==> Justified(c.log, e, d)
    ensures LogOk(c.log + more, d)
    ensures forall n :: n in c.jobs ==> JobOk(c.log + more, c.nextUid + 1, n, c.jobs[n]) && JobOk(c.log + more, c.nextUid, n, c.jobs[n])
    ensures forall p :: p in c.pods ==> PodOk(c.log + more, p)
    ensures forall n, v :: n in c.versions && v in c.versions[n] ==> StatusOk(c.log + more, n, v.status)
  {
    hide Justified;
    hide JobOk;
    hide PodOk;
    hide StatusOk;
    LogAppend(c.log, more, d);
    forall n | n in c.jobs
      ensures JobOk(c.log + more, c.nextUid + 1, n, c.jobs[n]) && JobOk(c.log + more, c.nextUid, n, c.jobs[n])
    {
      JobStillOk(c.log, more, c.nextUid, c.nextUid, n, c.jobs[n]);
      JobStillOk(c.log, more, c.nextUid, c.nextUid + 1, n, c.jobs[n]);
    }
    forall p | p in c.pods ensures PodOk(c.log + more, p) { PodStillOk(c.log, more, p); }
    forall n, v | n in c.versions && v in c.versions[n] ensures StatusOk(c.log + more, n, v.status) {
      StatusStillOk(c.log, more, n, v.status);
    }
  }

  lemma StoreKeeps(c: State, name: string, r: Resource, d: Detector)
    requires Inv(c, d) && name in c.versions && StatusOk(c.log, name, r.status)
    ensures Inv(Store(c, name, r), d)
  {
    hide LogOk;
    hide JobOk;
    hide PodOk;
    hide StatusOk;
    var s := Store(c, name, r);
    forall n, a: nat | AttemptLost(n, a) in s.log
      ensures n in s.versions && exists v :: v in s.versions[n] && a < MaxAttempts(v.spec)
    {
      var v :| v in c.versions[n] && a < MaxAttempts(v.spec);
      assert v in s.versions[n];
    }
  }

  lemma CreatedOk(c: State, name: string, view: Resource, faults: Faults)
    ensures var o := ReconcileStep(name, view, c.jobs, c.pods, faults);
      o.created.Some? ==>
        var t := o.created.value;
        JobOk(c.log + Observed(name, view, o, c.jobs, c.nextUid), c.nextUid + 1, JobName(t), Job(t, c.nextUid, 0, 0))
  {
    hide ReconcileStep;
    Creations(name, view, c.jobs, c.pods, faults);
  }

  lemma RanKeeps(c: State, name: string, view: Resource, faults: Faults, d: Detector)
    requires Inv(c, d) && name in c.versions && view in c.versions[name]
    ensures Inv(Ran(c, name, view, faults), d)
  {
    hide ReconcileStep;
    hide Observed;
    hide Justified;
    hide LogOk;
    hide JobOk;
    hide PodOk;
    hide StatusOk;
    var o := ReconcileStep(name, view, c.jobs, c.pods, faults);
    var more := Observed(name, view, o, c.jobs, c.nextUid);
    AtMostOneEvent(name, view, o, c.jobs, c.nextUid);
    ObservedJustified(c, name, view, faults, d);
    Grown(c, more, d);
    CreatedOk(c, name, view, faults);
    RanLimit(c, name, view, faults, d);
  }

  lemma AtMostOneEvent(name: string, view: Resource, o: Outcome, jobs: map<string, Job>, uid: nat)
    ensures |Observed(name, view, o, jobs, uid)| <= 1
  {
  }

  lemma RanLimit(c: State, name: string, view: Resource, faults: Faults, d: Detector)
    requires Inv(c, d) && name in c.versions && view in c.versions[name]
    ensures LimitOk(Ran(c, name, view, faults))
  {
    LimitKept(c, name, view, faults, d);
    hide ReconcileStep;
    hide Observed;
    hide LogOk;
    hide JobOk;
    hide PodOk;
    hide StatusOk;
    var s := Ran(c, name, view, faults);
    forall n, a: nat | AttemptLost(n, a) in s.log
      ensures n in s.versions && exists v :: v in s.versions[n] && a < MaxAttempts(v.spec)
    {
      if AttemptLost(n, a) in c.log {
        var v :| v in c.versions[n] && a < MaxAttempts(v.spec);
      }
    }
  }

  lemma ReconcileKeeps(c: State, name: string, view: Resource, faults: Faults, patchLost: bool, d: Detector)
    requires Inv(c, d) && name in c.stored && view in c.versions[name]
    ensures Inv(AfterReconcile(c, name, view, faults, patchLost), d)
  {
    RanKeeps(c, name, view, faults, d);
    ComputedOk(c, name, view, faults, d);
    var o := ReconcileStep(name, view, c.jobs, c.pods, faults);
    var s := Ran(c, name, view, faults);
    var stored := c.stored[name];
    assert StatusOk(s.log, name, stored.status);
    hide ReconcileStep;
    hide Observed;
    hide Inv;
    hide StatusOk;
    if o.reply != Error {
      PatchOk(s.log, name, view.status, o.status, stored.status);
      StoreKeeps(s, name, stored.(status := MergePatch(view.status, o.status, stored.status)), d);
    }
  }

  lemma EditKeeps(c: State, name: string, spec: Spec, d: Detector)
    requires Inv(c, d) && name in c.stored
    ensures Inv(Store(c, name, c.stored[name].(spec := spec)), d)
  {
    StoreKeeps(c, name, c.stored[name].(spec := spec), d);
  }

  lemma PodVouches(c: State, pod: Pod, exitCode: int, message: Message, labels: set<string>, d: Detector)
    requires EndsLikeWorker(c, pod, exitCode, message, labels, d)
    ensures forall e :: e in PodEvents(pod, exitCode, message, labels) ==> Justified(c.log, e, d)
    ensures PodOk(c.log + PodEvents(pod, exitCode, message, labels), pod)
  {
    hide Vouched;
    var more := PodEvents(pod, exitCode, message, labels);
    assert pod.containers == [Terminated(exitCode, message)] && pod.containers[1..] == [];
    assert TrustedIn(pod.containers) == (if Trusted(pod.containers[0]) then [message] else []);
    if more != [] { assert more[0] in c.log + more; }
  }

  lemma TriagePodKeeps(c: State, pod: Pod, exitCode: int, message: Message, labels: set<string>, d: Detector)
    requires Inv(c, d) && EndsLikeWorker(c, pod, exitCode, message, labels, d)
    ensures Inv(Next(c, TriagePodEnds(pod, exitCode, message, labels)), d)
  {
    hide EndsLikeWorker;
    hide Justified;
    hide LogOk;
    hide JobOk;
    hide PodOk;
    hide StatusOk;
    var more := PodEvents(pod, exitCode, message, labels);
    PodVouches(c, pod, exitCode, message, labels, d);
    Grown(c, more, d);
    var s := Next(c, TriagePodEnds(pod, exitCode, message, labels));
    forall n, a: nat | AttemptLost(n, a) in s.log
      ensures n in s.versions && exists v :: v in s.versions[n] && a < MaxAttempts(v.spec)
    {
      assert AttemptLost(n, a) in c.log;
    }
  }

  // A step that only touches Jobs and pods keeps the invariant when what it
  // leaves is accounted for.
  lemma OthersKeep(c: State, s: State, d: Detector)
    requires Inv(c, d) && s == c.(jobs := s.jobs, pods := s.pods)
    requires forall n :: n in s.jobs ==> JobOk(c.log, c.nextUid, n, s.jobs[n])
    requires forall p :: p in s.pods ==> PodOk(c.log, p)
    ensures Inv(s, d)
  {
    hide LogOk;
    hide JobOk;
    hide PodOk;
    hide StatusOk;
  }

  lemma StepKeeps(c: State, step: Step, d: Detector)
    requires Inv(c, d) && Enabled(c, step, d)
    ensures Inv(Next(c, step), d)
  {
    hide LogOk;
    hide StatusOk;
    hide LimitOk;
    match step
    case Reconcile(name, view, faults, patchLost) => ReconcileKeeps(c, name, view, faults, patchLost, d);
    case EditSpec(name, spec) => EditKeeps(c, name, spec, d);
    case TriagePodEnds(pod, exitCode, message, labels) => TriagePodKeeps(c, pod, exitCode, message, labels, d);
    case NewResource(name, spec) => NewResourceKeeps(c, name, spec, d);
    case JobProgress(_, _, _) => OthersKeep(c, Next(c, step), d);
    case JobExpires(_) => OthersKeep(c, Next(c, step), d);
    case OtherPod(_) => OthersKeep(c, Next(c, step), d);
    case PodsChange(_) => OthersKeep(c, Next(c, step), d);
  }

  lemma NewResourceKeeps(c: State, name: string, spec: Spec, d: Detector)
    requires Inv(c, d) && name !in c.versions
    ensures Inv(Next(c, NewResource(name, spec)), d)
  {
    hide LogOk;
    hide JobOk;
    hide PodOk;
    var s := Next(c, NewResource(name, spec));
    forall n, a: nat | AttemptLost(n, a) in s.log
      ensures n in s.versions && exists v :: v in s.versions[n] && a < MaxAttempts(v.spec)
    {
      var v :| v in c.versions[n] && a < MaxAttempts(v.spec);
      assert v in s.versions[n];
    }
  }

  // The invariant holds in every state of every run.
  lemma {:induction false} RunKeeps(states: seq<State>, steps: seq<Step>, d: Detector, i: nat)
    requires IsRun(states, steps, d) && i < |states|
    ensures Inv(states[i], d)
  {
    if i > 0 {
      RunStep(states, steps, d, i - 1);
      RunKeeps(states, steps, d, i - 1);
      StepKeeps(states[i - 1], steps[i - 1], d);
    }
  }
}
