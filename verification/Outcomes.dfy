// What one reconcile comes to, result by result, and what a patch does to a
// version that is not the one that was read.
module Outcomes {
  import opened Wrappers
  import opened Names
  import opened Controller

  // ---- the readers ----

  ghost predicate TrustedAt(pods: seq<Pod>, labels: PodLabels, i: int, j: int) {
    0 <= i < |pods| && pods[i].labels == labels && 0 <= j < |pods[i].containers| &&
    var c := pods[i].containers[j]; c.Terminated? && c.exitCode == 0 && c.message != NoMessage
  }

  // No trusted container stands before container j of pod i.
  ghost predicate FirstTrustedAt(pods: seq<Pod>, labels: PodLabels, i: int, j: int) {
    TrustedAt(pods, labels, i, j) &&
    forall k, m :: TrustedAt(pods, labels, k, m) ==> i < k || (i == k && j <= m)
  }

  lemma {:induction false} NoneTrustedIn(cs: seq<Container>)
    requires forall j :: 0 <= j < |cs| ==> !Trusted(cs[j])
    ensures TrustedIn(cs) == []
  {
    if cs != [] {
      assert !Trusted(cs[0]);
      NoneTrustedIn(cs[1..]);
    }
  }

  lemma {:induction false} FirstTrustedIn(cs: seq<Container>, j: nat)
    requires j < |cs| && Trusted(cs[j]) && forall m :: 0 <= m < j ==> !Trusted(cs[m])
    ensures TrustedIn(cs) != [] && TrustedIn(cs)[0] == cs[j].message
  {
    if j > 0 {
      assert !Trusted(cs[0]);
      var rest := cs[1..];
      assert rest[j - 1] == cs[j];
      forall m | 0 <= m < j - 1 ensures !Trusted(rest[m]) { assert rest[m] == cs[m + 1]; }
      FirstTrustedIn(rest, j - 1);
      assert TrustedIn(cs) == [] + TrustedIn(rest);
    }
  }

  // The message that is read is that of the first container, in the first of
  // the Job's pods, that succeeded and wrote one.
  lemma {:induction false} FirstMessageIs(pods: seq<Pod>, labels: PodLabels, i: int, j: int)
    requires FirstTrustedAt(pods, labels, i, j)
    ensures TrustedMessages(pods, labels) != [] && TrustedMessages(pods, labels)[0] == pods[i].containers[j].message
  {
    var p := pods[0];
    if i == 0 {
      forall m | 0 <= m < j ensures !Trusted(p.containers[m]) { assert !TrustedAt(pods, labels, 0, m); }
      FirstTrustedIn(p.containers, j);
    } else {
      SkipsPod(pods, labels);
      forall k, m | TrustedAt(pods[1..], labels, k, m) ensures i - 1 < k || (i - 1 == k && j <= m) {
        assert TrustedAt(pods, labels, k + 1, m);
      }
      assert TrustedAt(pods[1..], labels, i - 1, j);
      FirstMessageIs(pods[1..], labels, i - 1, j);
    }
  }

  // A pod that is not the Job's, or has nothing to be trusted, is passed over.
  lemma SkipsPod(pods: seq<Pod>, labels: PodLabels)
    requires pods != [] && forall m :: !TrustedAt(pods, labels, 0, m)
    ensures TrustedMessages(pods, labels) == TrustedMessages(pods[1..], labels)
  {
    var p := pods[0];
    if p.labels == labels {
      forall m | 0 <= m < |p.containers| ensures !Trusted(p.containers[m]) { assert !TrustedAt(pods, labels, 0, m); }
      NoneTrustedIn(p.containers);
    }
    assert [] + TrustedMessages(pods[1..], labels) == TrustedMessages(pods[1..], labels);
  }

  lemma {:induction false} NothingTrusted(pods: seq<Pod>, labels: PodLabels)
    requires forall i, j :: !TrustedAt(pods, labels, i, j)
    ensures TrustedMessages(pods, labels) == []
  {
    if pods != [] {
      SkipsPod(pods, labels);
      forall k, m ensures !TrustedAt(pods[1..], labels, k, m) {
        assert !TrustedAt(pods, labels, k + 1, m);
      }
      NothingTrusted(pods[1..], labels);
    }
  }

  // ---- a Job that cannot be looked up ----

  lemma LookUpFails(name: string, view: Resource, jobs: map<string, Job>, pods: seq<Pod>, faults: Faults)
    requires view.status.phase in {Unset, Triage, Ready, Executing} && faults.getJob
    ensures var o := ReconcileStep(name, view, jobs, pods, faults); o.reply == Error && o.created.None?
  {
  }

  // ---- the triage phase ----

  // The result that is read for a Job that succeeded, unless it cannot be had.
  function TriageRead(name: string, job: Job, pods: seq<Pod>, faults: Faults): Option<TriageResult> {
    if faults.listPods then None else ReadTriage(pods, name, job.uid)
  }

  lemma TriageJobMissing(name: string, view: Resource, jobs: map<string, Job>, pods: seq<Pod>, faults: Faults)
    requires view.status.phase in {Unset, Triage} && TriageJobName(name) !in jobs
    ensures var o := ReconcileStep(name, view, jobs, pods, faults);
      (o.reply == Error <==> faults.getJob || faults.createJob) &&
      (o.reply != Error ==>
        o.created == Some(TriageJob(name, view.spec.title, view.spec.body)) && o.reply == RequeueAfter(10) &&
        o.status == view.status.(phase := Triage, conditions := view.status.conditions[Triaged := false]))
  {
    hide TriageJobName;
    hide FixStep;
  }

  // Failed, Rejected and PendingValidation each have their own evidence; a
  // success counts although the Job also counts a failure.
  lemma TriageResults(name: string, view: Resource, jobs: map<string, Job>, pods: seq<Pod>, faults: Faults)
    requires view.status.phase in {Unset, Triage} && TriageJobName(name) in jobs && !faults.getJob
    ensures var o, job := ReconcileStep(name, view, jobs, pods, faults), jobs[TriageJobName(name)];
      var read := TriageRead(name, job, pods, faults);
      o.created.None? && o.reply != Error && o.status.execution == view.status.execution &&
      (o.status.phase == Triage <==> job.succeeded == 0 && job.failed == 0) &&
      (o.status.phase == Failed <==>
        (job.succeeded == 0 && job.failed > 0) || (job.succeeded > 0 && (read.None? || read.value.parseError))) &&
      (o.status.phase == PendingValidation <==>
        job.succeeded > 0 && read.Some? && !read.value.parseError && read.value.inScope && !read.value.suspicious) &&
      (o.status.phase == Rejected <==>
        job.succeeded > 0 && read.Some? && !read.value.parseError && (!read.value.inScope || read.value.suspicious))
  {
    hide TriageJobName;
    hide FixStep;
    hide ReadTriage;
  }

  // What is recorded, and when the controller wants to be called again.
  lemma TriageRecords(name: string, view: Resource, jobs: map<string, Job>, pods: seq<Pod>, faults: Faults)
    requires view.status.phase in {Unset, Triage} && TriageJobName(name) in jobs && !faults.getJob
    ensures var o, job := ReconcileStep(name, view, jobs, pods, faults), jobs[TriageJobName(name)];
      var read, conditions := TriageRead(name, job, pods, faults), view.status.conditions;
      match o.status.phase
      case PendingValidation =>
        o.reply == RequeueAfter(30) && o.status.conditions == conditions[Triaged := true][AwaitingApproval := true] &&
        o.status.triage == TriageStatus(true, false, false) && read.Some? && o.status.commentURL == read.value.commentURL
      case Rejected =>
        o.reply == NoRequeue && o.status.conditions == conditions[Triaged := true] && read.Some? &&
        o.status.triage == TriageStatus(read.value.inScope, read.value.suspicious, false) &&
        o.status.commentURL == read.value.commentURL
      case Failed =>
        o.reply == NoRequeue && o.status.conditions == conditions[FailedCondition := true] &&
        o.status.commentURL == view.status.commentURL &&
        o.status.triage == if job.succeeded > 0 then TriageStatus(false, false, true) else view.status.triage
      case _ => o.reply == RequeueAfter(10) && o.status == view.status.(phase := Triage)
  {
    hide TriageJobName;
    hide FixStep;
    hide ReadTriage;
  }

  // A message that is no JSON object fails the resource; null and the other
  // worker's record say nothing, so the resource is rejected.
  lemma OddTriageMessage(name: string, view: Resource, jobs: map<string, Job>, pods: seq<Pod>, faults: Faults, i: int, j: int)
    requires view.status.phase in {Unset, Triage} && TriageJobName(name) in jobs && !faults.getJob && !faults.listPods
    requires jobs[TriageJobName(name)].succeeded > 0
    requires FirstTrustedAt(pods, PodLabels(name, TriageRole, jobs[TriageJobName(name)].uid), i, j)
    ensures var phase := ReconcileStep(name, view, jobs, pods, faults).status.phase;
      match pods[i].containers[j].message
      case Garbled => phase == Failed
      case Null => phase == Rejected
      case FixMessage(_) => phase == Rejected
      case _ => true
  {
    hide TriageJobName;
    hide FixStep;
    FirstMessageIs(pods, PodLabels(name, TriageRole, jobs[TriageJobName(name)].uid), i, j);
    hide TrustedMessages;
  }

  // No such message opens a pull request.
  lemma OddFixMessage(name: string, view: Resource, jobs: map<string, Job>, pods: seq<Pod>, faults: Faults, i: int, j: int)
    requires view.status.phase in {Ready, Executing} && FixJobName(name, Current(view.status)) in jobs
    requires FirstTrustedAt(pods, PodLabels(name, FixRole, jobs[FixJobName(name, Current(view.status))].uid), i, j)
    ensures !pods[i].containers[j].message.FixMessage? ==> ReconcileStep(name, view, jobs, pods, faults).status.phase != PROpen
  {
    hide FixJobName;
    hide FixBranchName;
    FirstMessageIs(pods, PodLabels(name, FixRole, jobs[FixJobName(name, Current(view.status))].uid), i, j);
    hide TrustedMessages;
  }

  // ---- approval ----

  lemma ApprovalOutcome(name: string, view: Resource, jobs: map<string, Job>, pods: seq<Pod>, faults: Faults)
    requires view.status.phase == PendingValidation
    ensures var o := ReconcileStep(name, view, jobs, pods, faults);
      o.created.None? &&
      (view.spec.approved ==>
        o.status == view.status.(phase := Ready, conditions := view.status.conditions[AwaitingApproval := false]) &&
        o.reply == RequeueAfter(1)) &&
      (!view.spec.approved ==> o.status == view.status && o.reply == RequeueAfter(30))
  {
  }

  // ---- the fix phase ----

  // The attempt a call works on, and the number of attempts it allows.
  function Current(st: Status): nat { if st.execution.attempt == 0 then 1 else st.execution.attempt }
  function Limit(spec: Spec): nat {
    match spec.maxFixAttempts
    case Some(m) => m
    case None => 2
  }

  // The pull request a Job that succeeded reports.
  ghost predicate Reports(name: string, job: Job, pods: seq<Pod>, faults: Faults, r: FixResult) {
    job.succeeded > 0 && !faults.listPods && ReadFix(pods, name, job.uid) == Some(r) && r.prURL != ""
  }

  ghost predicate Over(job: Job) { job.succeeded > 0 || job.failed > 0 }

  lemma FixJobMissing(name: string, view: Resource, jobs: map<string, Job>, pods: seq<Pod>, faults: Faults)
    requires view.status.phase in {Ready, Executing} && FixJobName(name, Current(view.status)) !in jobs && !faults.getJob
    ensures var o, a := ReconcileStep(name, view, jobs, pods, faults), Current(view.status);
      var f, branch, e := FixJobName(name, a), FixBranchName(view.spec.issueNumber, a), view.status.execution;
      if view.status.phase == Executing && e.jobName != "" then o == Outcome(view.status, None, NoRequeue)
      else if faults.createJob then o.reply == Error && o.created.None?
      else
        o.created == Some(FixJob(name, a, branch)) && o.reply == RequeueAfter(10) &&
        o.status == view.status.(
          phase := Executing,
          execution := Execution(a, f, branch, e.prURL, e.prNumber),
          conditions := view.status.conditions[ExecutingCondition := true])
  {
    hide FixJobName;
    hide FixBranchName;
  }

  // A pull request opens exactly on a report of one; an attempt without one is
  // retried exactly below the limit, and the work fails exactly at it.
  lemma FixResults(name: string, view: Resource, jobs: map<string, Job>, pods: seq<Pod>, faults: Faults)
    requires view.status.phase in {Ready, Executing} && FixJobName(name, Current(view.status)) in jobs && !faults.getJob
    ensures var o, a := ReconcileStep(name, view, jobs, pods, faults), Current(view.status);
      var job := jobs[FixJobName(name, a)];
      var reported := exists r :: Reports(name, job, pods, faults, r);
      o.created.None? && o.reply != Error &&
      (o.status.phase == PROpen <==> reported) &&
      (o.status.phase == Ready <==> Over(job) && !reported && a < Limit(view.spec)) &&
      (o.status.phase == Failed <==> Over(job) && !reported && a >= Limit(view.spec)) &&
      (o.status.phase == Executing <==> !Over(job))
  {
    hide FixJobName;
    hide FixBranchName;
    var job := jobs[FixJobName(name, Current(view.status))];
    var read := ReadFix(pods, name, job.uid);
    hide ReadFix;
    if job.succeeded > 0 && !faults.listPods && read.Some? && read.value.prURL != "" {
      assert Reports(name, job, pods, faults, read.value);
    }
  }

  lemma FixRecords(name: string, view: Resource, jobs: map<string, Job>, pods: seq<Pod>, faults: Faults)
    requires view.status.phase in {Ready, Executing} && FixJobName(name, Current(view.status)) in jobs && !faults.getJob
    ensures var o, a := ReconcileStep(name, view, jobs, pods, faults), Current(view.status);
      var f, e, conditions := FixJobName(name, a), o.status.execution, view.status.conditions;
      o.status.triage == view.status.triage && o.status.commentURL == view.status.commentURL &&
      match o.status.phase
      case PROpen =>
        Reports(name, jobs[f], pods, faults, FixResult(e.prURL, e.prNumber, e.branch)) && e.attempt == a && e.jobName == f &&
        o.reply == NoRequeue && o.status.conditions == conditions[PROpenCondition := true]
      case Ready =>
        e == view.status.execution.(attempt := a + 1) && o.reply == RequeueAfter(1) && o.status.conditions == conditions
      case Failed =>
        e == view.status.execution && o.reply == NoRequeue && o.status.conditions == conditions[FailedCondition := true]
      case _ => e == view.status.execution && o.reply == RequeueAfter(10) && o.status.conditions == conditions
  {
    hide FixJobName;
    hide FixBranchName;
    hide ReadFix;
  }

  // ---- the other phases ----

  lemma OtherOutcome(name: string, view: Resource, jobs: map<string, Job>, pods: seq<Pod>, faults: Faults)
    requires view.status.phase in {PROpen, Done, Rejected, Failed} || view.status.phase.Unknown?
    ensures ReconcileStep(name, view, jobs, pods, faults) ==
      if view.status.phase.Unknown? then Outcome(view.status.(phase := Triage), None, RequeueAfter(1))
      else Outcome(view.status, None, NoRequeue)
  {
  }

  // ---- what a patch writes ----

  // A field computed as it was read keeps what is stored; any other takes what
  // was computed.
  ghost predicate Merged<T>(read: T, computed: T, stored: T, result: T) {
    (computed == read ==> result == stored) && (computed != read ==> result == computed)
  }

  lemma PatchMerges(read: Status, computed: Status, stored: Status)
    ensures var st := MergePatch(read, computed, stored);
      Merged(read.phase, computed.phase, stored.phase, st.phase) &&
      Merged(read.commentURL, computed.commentURL, stored.commentURL, st.commentURL) &&
      Merged(read.conditions, computed.conditions, stored.conditions, st.conditions) &&
      Merged(read.triage.inScope, computed.triage.inScope, stored.triage.inScope, st.triage.inScope) &&
      Merged(read.triage.suspicious, computed.triage.suspicious, stored.triage.suspicious, st.triage.suspicious) &&
      Merged(read.triage.parseError, computed.triage.parseError, stored.triage.parseError, st.triage.parseError)
    ensures var a, b, c, e := read.execution, computed.execution, stored.execution, MergePatch(read, computed, stored).execution;
      Merged(a.attempt, b.attempt, c.attempt, e.attempt) && Merged(a.jobName, b.jobName, c.jobName, e.jobName) &&
      Merged(a.branch, b.branch, c.branch, e.branch) && Merged(a.prURL, b.prURL, c.prURL, e.prURL) &&
      Merged(a.prNumber, b.prNumber, c.prNumber, e.prNumber)
  {
  }

  // A call that computes what it read changes nothing, whatever is stored.
  lemma NothingToPatch(read: Status, stored: Status)
    ensures MergePatch(read, read, stored) == stored
  {
  }
}
