// One reconcile of internal/controller/issueresolution_controller.go, as a
// function of what the controller reads.
module Controller {
  import opened Wrappers
  import opened Names

  // ---- the resource ----

  datatype Phase =
    | Unset | Triage | PendingValidation | Ready | Executing | PROpen | Done | Rejected | Failed
    | Unknown(name: string)

  datatype ConditionType =
    | Triaged | AwaitingApproval | ReadyCondition | ExecutingCondition | PROpenCondition | FailedCondition

  datatype Spec = Spec(issueNumber: nat, title: string, body: string, approved: bool, maxFixAttempts: Option<nat>)

  datatype TriageStatus = TriageStatus(inScope: bool, suspicious: bool, parseError: bool)
  datatype Execution = Execution(attempt: nat, jobName: string, branch: string, prURL: string, prNumber: int)

  datatype Status = Status(
    phase: Phase,
    triage: TriageStatus,
    commentURL: string,
    execution: Execution,
    conditions: map<ConditionType, bool>)

  datatype Resource = Resource(spec: Spec, status: Status)

  const NEW_STATUS := Status(Unset, TriageStatus(false, false, false), "", Execution(0, "", "", "", 0), map[])

  // ---- jobs and pods ----

  datatype Role = TriageRole | FixRole

  // The part of a Job the controller decides. Triage Jobs carry the title and
  // the body they were created for.
  datatype JobTemplate =
    | TriageJob(issue: string, title: string, body: string)
    | FixJob(issue: string, attempt: nat, branch: string)

  function JobName(t: JobTemplate): string {
    match t
    case TriageJob(issue, _, _) => TriageJobName(issue)
    case FixJob(issue, attempt, _) => FixJobName(issue, attempt)
  }


  datatype Job = Job(template: JobTemplate, uid: nat, succeeded: nat, failed: nat)

  datatype TriageResult = TriageResult(inScope: bool, suspicious: bool, parseError: bool, commentURL: string)
  datatype FixResult = FixResult(prURL: string, prNumber: int, branch: string)

  // A termination message: the record a worker wrote, the JSON value null, or
  // something else that is not a JSON object.
  datatype Message = NoMessage | Garbled | Null | TriageMessage(triage: TriageResult) | FixMessage(fix: FixResult)

  // Decoding ignores unknown fields and takes null for nothing at all, so null
  // and the other worker's record decode to one without values.
  function DecodeTriage(m: Message): Option<TriageResult> {
    match m
    case TriageMessage(r) => Some(r)
    case FixMessage(_) => Some(TriageResult(false, false, false, ""))
    case Null => Some(TriageResult(false, false, false, ""))
    case _ => None
  }

  function DecodeFix(m: Message): Option<FixResult> {
    match m
    case FixMessage(r) => Some(r)
    case TriageMessage(_) => Some(FixResult("", 0, ""))
    case Null => Some(FixResult("", 0, ""))
    case _ => None
  }

  datatype Container = Live | Terminated(exitCode: int, message: Message)

  datatype PodLabels = PodLabels(issue: string, role: Role, jobUid: nat)
  datatype Pod = Pod(labels: PodLabels, containers: seq<Container>)

  // ---- the termination-log readers ----

  // Only successful containers are believed: failed attempts also write a
  // message.
  predicate Trusted(c: Container) { c.Terminated? && c.exitCode == 0 && c.message != NoMessage }

  function TrustedIn(containers: seq<Container>): seq<Message> {
    if containers == [] then []
    else (if Trusted(containers[0]) then [containers[0].message] else []) + TrustedIn(containers[1..])
  }

  function TrustedMessages(pods: seq<Pod>, labels: PodLabels): seq<Message> {
    if pods == [] then []
    else (if pods[0].labels == labels then TrustedIn(pods[0].containers) else []) + TrustedMessages(pods[1..], labels)
  }

  // The first trusted message of the Job's pods, if it decodes.
  function ReadTriage(pods: seq<Pod>, issue: string, uid: nat): Option<TriageResult> {
    var messages := TrustedMessages(pods, PodLabels(issue, TriageRole, uid));
    if messages == [] then None else DecodeTriage(messages[0])
  }

  function ReadFix(pods: seq<Pod>, issue: string, uid: nat): Option<FixResult> {
    var messages := TrustedMessages(pods, PodLabels(issue, FixRole, uid));
    if messages == [] then None else DecodeFix(messages[0])
  }

  lemma Grouped(a: seq<Message>, b: seq<Message>, c: seq<Message>)
    ensures a + (b + c) == a + b + c
  {
  }

  lemma {:induction false} TrustedMessagesConcat(a: seq<Pod>, b: seq<Pod>, labels: PodLabels)
    ensures TrustedMessages(a + b, labels) == TrustedMessages(a, labels) + TrustedMessages(b, labels)
  {
    if a == [] {
      assert a + b == b;
    } else {
      assert (a + b)[0] == a[0] && (a + b)[1..] == a[1..] + b;
      TrustedMessagesConcat(a[1..], b, labels);
      var own := if a[0].labels == labels then TrustedIn(a[0].containers) else [];
      Grouped(own, TrustedMessages(a[1..], labels), TrustedMessages(b, labels));
    }
  }

  lemma {:induction false} TrustedInConcat(a: seq<Container>, b: seq<Container>)
    ensures TrustedIn(a + b) == TrustedIn(a) + TrustedIn(b)
  {
    if a == [] {
      assert a + b == b;
    } else {
      assert (a + b)[0] == a[0] && (a + b)[1..] == a[1..] + b;
      TrustedInConcat(a[1..], b);
      Grouped(if Trusted(a[0]) then [a[0].message] else [], TrustedIn(a[1..]), TrustedIn(b));
    }
  }

  function Selected(pods: seq<Pod>, labels: PodLabels): seq<Pod> {
    if pods == [] then []
    else (if pods[0].labels == labels then [pods[0]] else []) + Selected(pods[1..], labels)
  }

  // Pods of other resources, roles or Jobs make no difference, wherever they
  // stand: what is read depends on the Job's own pods, in their order.
  lemma {:induction false} OtherPodsIrrelevant(pods: seq<Pod>, labels: PodLabels)
    ensures TrustedMessages(pods, labels) == TrustedMessages(Selected(pods, labels), labels)
  {
    if pods != [] {
      OtherPodsIrrelevant(pods[1..], labels);
      if pods[0].labels == labels {
        assert Selected(pods, labels)[1..] == Selected(pods[1..], labels);
      } else {
        assert Selected(pods, labels) == Selected(pods[1..], labels);
        assert TrustedMessages(pods, labels) == TrustedMessages(pods[1..], labels);
      }
    }
  }

  lemma SamePodsReadAlike(pods: seq<Pod>, others: seq<Pod>, issue: string, uid: nat)
    ensures Selected(pods, PodLabels(issue, TriageRole, uid)) == Selected(others, PodLabels(issue, TriageRole, uid)) ==>
      ReadTriage(pods, issue, uid) == ReadTriage(others, issue, uid)
    ensures Selected(pods, PodLabels(issue, FixRole, uid)) == Selected(others, PodLabels(issue, FixRole, uid)) ==>
      ReadFix(pods, issue, uid) == ReadFix(others, issue, uid)
  {
    OtherPodsIrrelevant(pods, PodLabels(issue, TriageRole, uid));
    OtherPodsIrrelevant(others, PodLabels(issue, TriageRole, uid));
    OtherPodsIrrelevant(pods, PodLabels(issue, FixRole, uid));
    OtherPodsIrrelevant(others, PodLabels(issue, FixRole, uid));
  }

  // Nor do containers that still run, failed or wrote nothing.
  lemma UntrustedIrrelevant(a: seq<Pod>, p: Pod, b: seq<Pod>, x: seq<Container>, c: Container, y: seq<Container>, labels: PodLabels)
    requires p.containers == x + [c] + y && !Trusted(c)
    ensures TrustedMessages(a + [p] + b, labels) == TrustedMessages(a + [p.(containers := x + y)] + b, labels)
  {
    var q := p.(containers := x + y);
    TrustedInConcat(x + [c], y);
    TrustedInConcat(x, [c]);
    TrustedInConcat(x, y);
    assert TrustedIn([c]) == [];
    TrustedMessagesConcat(a + [p], b, labels);
    TrustedMessagesConcat(a, [p], labels);
    TrustedMessagesConcat(a + [q], b, labels);
    TrustedMessagesConcat(a, [q], labels);
    assert TrustedMessages([p], labels) == TrustedMessages([q], labels);
  }

  // ---- one reconcile ----

  // Calls that may fail transiently.
  datatype Faults = Faults(getJob: bool, listPods: bool, createJob: bool)

  const NO_FAULTS := Faults(false, false, false)

  datatype Reply = Error | NoRequeue | RequeueAfter(seconds: nat)

  const JOB_POLL := 10
  const PENDING_APPROVAL := 30
  const SOON := 1

  // The status to be written, the Job that was created, and the reply.
  datatype Outcome = Outcome(status: Status, created: Option<JobTemplate>, reply: Reply)

  function MaxAttempts(spec: Spec): nat { if spec.maxFixAttempts.Some? then spec.maxFixAttempts.value else 2 }

  function EffectiveAttempt(st: Status): nat { if st.execution.attempt == 0 then 1 else st.execution.attempt }

  function SetCondition(st: Status, c: ConditionType, value: bool): Status {
    st.(conditions := st.conditions[c := value])
  }

  function TriageStep(name: string, spec: Spec, st: Status, jobs: map<string, Job>, pods: seq<Pod>, faults: Faults): Outcome {
    if faults.getJob then Outcome(st, None, Error)
    else if TriageJobName(name) !in jobs then
      if faults.createJob then Outcome(st, None, Error)
      else Outcome(SetCondition(st, Triaged, false), Some(TriageJob(name, spec.title, spec.body)), RequeueAfter(JOB_POLL))
    else
      var job := jobs[TriageJobName(name)];
      if job.succeeded > 0 then
        var read := if faults.listPods then None else ReadTriage(pods, name, job.uid);
        if read.None? || read.value.parseError then
          Outcome(SetCondition(st.(phase := Failed, triage := TriageStatus(false, false, true)), FailedCondition, true), None, NoRequeue)
        else
          Outcome(TriageDone(st, read.value), None, if Accepts(read.value) then RequeueAfter(PENDING_APPROVAL) else NoRequeue)
      else if job.failed > 0 then Outcome(SetCondition(st.(phase := Failed), FailedCondition, true), None, NoRequeue)
      else Outcome(st, None, RequeueAfter(JOB_POLL))
  }

  predicate Accepts(r: TriageResult) { r.inScope && !r.suspicious }

  function TriageDone(st: Status, r: TriageResult): Status {
    var read := st.(triage := TriageStatus(r.inScope, r.suspicious, false), commentURL := r.commentURL);
    if Accepts(r) then SetCondition(SetCondition(read.(phase := PendingValidation), Triaged, true), AwaitingApproval, true)
    else SetCondition(read.(phase := Rejected), Triaged, true)
  }

  function PendingStep(spec: Spec, st: Status): Outcome {
    if !spec.approved then Outcome(st, None, RequeueAfter(PENDING_APPROVAL))
    else Outcome(SetCondition(st.(phase := Ready), AwaitingApproval, false), None, RequeueAfter(SOON))
  }

  function FixFailure(st: Status, attempt: nat, maxAttempts: nat): Outcome {
    if attempt < maxAttempts then
      Outcome(st.(execution := st.execution.(attempt := attempt + 1), phase := Ready), None, RequeueAfter(SOON))
    else
      Outcome(SetCondition(st.(phase := Failed), FailedCondition, true), None, NoRequeue)
  }

  function FixStep(name: string, spec: Spec, st: Status, jobs: map<string, Job>, pods: seq<Pod>, faults: Faults): Outcome {
    var attempt := EffectiveAttempt(st);
    var jobName := FixJobName(name, attempt);
    var branch := FixBranchName(spec.issueNumber, attempt);
    if st.phase == PROpen then Outcome(st, None, NoRequeue)
    else if faults.getJob then Outcome(st, None, Error)
    else if jobName !in jobs then
      if st.phase != Ready && st.execution.jobName != "" then Outcome(st, None, NoRequeue)
      else if faults.createJob then Outcome(st, None, Error)
      else
        Outcome(
          SetCondition(
            st.(phase := Executing, execution := st.execution.(attempt := attempt, jobName := jobName, branch := branch)),
            ExecutingCondition, true),
          Some(FixJob(name, attempt, branch)),
          RequeueAfter(JOB_POLL))
    else
      var job := jobs[jobName];
      if job.succeeded > 0 then
        var read := if faults.listPods then None else ReadFix(pods, name, job.uid);
        if read.None? || read.value.prURL == "" then FixFailure(st, attempt, MaxAttempts(spec))
        else
          var r := read.value;
          Outcome(
            SetCondition(
              st.(phase := PROpen, execution := Execution(attempt, jobName, r.branch, r.prURL, r.prNumber)),
              PROpenCondition, true),
            None, NoRequeue)
      else if job.failed > 0 then FixFailure(st, attempt, MaxAttempts(spec))
      else Outcome(st.(phase := Executing), None, RequeueAfter(JOB_POLL))
  }

  // The dispatch on the phase. An empty phase is a fresh resource.
  function ReconcileStep(name: string, view: Resource, jobs: map<string, Job>, pods: seq<Pod>, faults: Faults): Outcome {
    var st := if view.status.phase == Unset then view.status.(phase := Triage) else view.status;
    match st.phase
    case Triage => TriageStep(name, view.spec, st, jobs, pods, faults)
    case PendingValidation => PendingStep(view.spec, st)
    case Ready => FixStep(name, view.spec, st, jobs, pods, faults)
    case Executing => FixStep(name, view.spec, st, jobs, pods, faults)
    case PROpen => FixStep(name, view.spec, st, jobs, pods, faults)
    case Unknown(_) => Outcome(st.(phase := Triage), None, RequeueAfter(SOON))
    case _ => Outcome(st, None, NoRequeue)
  }

  // ---- writing the status ----

  // A merge patch writes the fields that differ between what was read and what
  // was computed; conditions are one list.
  function Patched<T(==)>(read: T, computed: T, stored: T): T { if read == computed then stored else computed }

  function MergePatch(read: Status, computed: Status, stored: Status): Status {
    Status(
      Patched(read.phase, computed.phase, stored.phase),
      TriageStatus(
        Patched(read.triage.inScope, computed.triage.inScope, stored.triage.inScope),
        Patched(read.triage.suspicious, computed.triage.suspicious, stored.triage.suspicious),
        Patched(read.triage.parseError, computed.triage.parseError, stored.triage.parseError)),
      Patched(read.commentURL, computed.commentURL, stored.commentURL),
      Execution(
        Patched(read.execution.attempt, computed.execution.attempt, stored.execution.attempt),
        Patched(read.execution.jobName, computed.execution.jobName, stored.execution.jobName),
        Patched(read.execution.branch, computed.execution.branch, stored.execution.branch),
        Patched(read.execution.prURL, computed.execution.prURL, stored.execution.prURL),
        Patched(read.execution.prNumber, computed.execution.prNumber, stored.execution.prNumber)),
      Patched(read.conditions, computed.conditions, stored.conditions))
  }

  // Written over what was read, a patch stores what was computed.
  lemma FreshPatch(read: Status, computed: Status)
    ensures MergePatch(read, computed, read) == computed
  {
  }
}
