// The reconciler as it runs: it reads the cache, changes its copy of the
// resource in place, creates Jobs on the API server and patches the status.
module ReconcilerModel {
  import opened Wrappers
  import opened Names
  import opened Controller

  // The reconciler's own copy of a resource.
  class IssueResolution {
    const name: string
    const spec: Spec
    var phase: Phase
    var triage: TriageStatus
    var commentURL: string
    var execution: Execution
    var conditions: map<ConditionType, bool>

    function Value(): Status
      reads this
    {
      Status(phase, triage, commentURL, execution, conditions)
    }

    constructor (name: string, r: Resource)
      ensures this.name == name && spec == r.spec && Value() == r.status
    {
      this.name, this.spec := name, r.spec;
      phase, triage, commentURL := r.status.phase, r.status.triage, r.status.commentURL;
      execution, conditions := r.status.execution, r.status.conditions;
    }

    method SetStatusCondition(c: ConditionType, value: bool)
      modifies this`conditions
      ensures Value() == SetCondition(old(Value()), c, value)
    {
      conditions := conditions[c := value];
    }
  }

  // The API server, and the cache the reconciler reads resources from.
  class Api {
    var stored: map<string, Resource>
    var cached: map<string, Resource>
    var jobs: map<string, Job>
    var pods: seq<Pod>
    var nextUid: nat

    constructor ()
    {
      stored, cached, jobs, pods, nextUid := map[], map[], map[], [], 0;
    }

    // The Jobs once this one, if any, has been created.
    function WithJob(created: Option<JobTemplate>): map<string, Job>
      reads this
    {
      match created
      case None => jobs
      case Some(t) => jobs[JobName(t) := Job(t, nextUid, 0, 0)]
    }

    method Create(t: JobTemplate)
      modifies this`jobs, this`nextUid
      ensures jobs == old(WithJob(Some(t))) && nextUid == old(nextUid) + 1
    {
      jobs := jobs[JobName(t) := Job(t, nextUid, 0, 0)];
      nextUid := nextUid + 1;
    }

    // A merge patch of the status, applied to what is stored now.
    method PatchStatus(name: string, read: Status, computed: Status) returns (ok: bool)
      modifies this`stored
      ensures ok == (name in old(stored))
      ensures stored == if name in old(stored)
        then old(stored)[name := old(stored)[name].(status := MergePatch(read, computed, old(stored)[name].status))]
        else old(stored)
    {
      ok := name in stored;
      if ok {
        var r := stored[name];
        stored := stored[name := r.(status := MergePatch(read, computed, r.status))];
      }
    }
  }

  // ---- the readers ----

  lemma NextPod(pods: seq<Pod>, i: nat, labels: PodLabels)
    requires i < |pods|
    ensures TrustedMessages(pods[i..], labels) ==
      (if pods[i].labels == labels then TrustedIn(pods[i].containers) else []) + TrustedMessages(pods[i + 1..], labels)
  {
    assert pods[i..][1..] == pods[i + 1..];
  }

  lemma NextContainer(cs: seq<Container>, j: nat)
    requires j < |cs|
    ensures TrustedIn(cs[j..]) == (if Trusted(cs[j]) then [cs[j].message] else []) + TrustedIn(cs[j + 1..])
  {
    assert cs[j..][1..] == cs[j + 1..];
  }

  method FirstTrusted(pods: seq<Pod>, labels: PodLabels) returns (m: Option<Message>)
    ensures var all := TrustedMessages(pods, labels);
      m == if all == [] then None else Some(all[0])
  {
    assert pods[0..] == pods;
    for i := 0 to |pods|
      invariant TrustedMessages(pods, labels) == TrustedMessages(pods[i..], labels)
    {
      var pod := pods[i];
      NextPod(pods, i, labels);
      if pod.labels == labels {
        var containers := pod.containers;
        assert containers[0..] == containers;
        for j := 0 to |containers|
          invariant TrustedIn(containers) == TrustedIn(containers[j..])
        {
          var c := containers[j];
          NextContainer(containers, j);
          if c.Live? { continue; }
          if c.exitCode != 0 { continue; }
          if c.message == NoMessage { continue; }
          return Some(c.message);
        }
      }
    }
    m := None;
  }

  method ReadTriageResult(pods: seq<Pod>, issue: string, uid: nat, listFails: bool) returns (r: Option<TriageResult>)
    ensures r == if listFails then None else ReadTriage(pods, issue, uid)
  {
    if listFails { return None; }
    var m := FirstTrusted(pods, PodLabels(issue, TriageRole, uid));
    r := if m.None? then None else DecodeTriage(m.value);
  }

  method ReadFixResult(pods: seq<Pod>, issue: string, uid: nat, listFails: bool) returns (r: Option<FixResult>)
    ensures r == if listFails then None else ReadFix(pods, issue, uid)
  {
    if listFails { return None; }
    var m := FirstTrusted(pods, PodLabels(issue, FixRole, uid));
    r := if m.None? then None else DecodeFix(m.value);
  }

  // ---- the phases ----

  class Reconciler {
    const api: Api

    constructor (api: Api)
      ensures this.api == api
    {
      this.api := api;
    }

    // The call did what the outcome says to the copy and to the Jobs.
    twostate predicate Did(ir: IssueResolution, o: Outcome, reply: Reply)
      reads ir, api
    {
      reply == o.reply && (reply != Error ==> ir.Value() == o.status) &&
      api.jobs == old(api.WithJob(o.created)) &&
      api.nextUid == old(api.nextUid) + (if o.created.Some? then 1 else 0)
    }

    method ReconcileTriage(ir: IssueResolution, faults: Faults) returns (reply: Reply)
      modifies ir, api`jobs, api`nextUid
      ensures Did(ir, TriageStep(ir.name, ir.spec, old(ir.Value()), old(api.jobs), api.pods, faults), reply)
    {
      var jobName := TriageJobName(ir.name);
      if faults.getJob { return Error; }
      if jobName !in api.jobs {
        if faults.createJob { return Error; }
        api.Create(TriageJob(ir.name, ir.spec.title, ir.spec.body));
        ir.SetStatusCondition(Triaged, false);
        return RequeueAfter(JOB_POLL);
      }
      var job := api.jobs[jobName];
      if job.succeeded > 0 {
        var tr := ReadTriageResult(api.pods, ir.name, job.uid, faults.listPods);
        if tr.None? || tr.value.parseError {
          ir.phase := Failed;
          ir.triage := TriageStatus(false, false, true);
          ir.SetStatusCondition(FailedCondition, true);
          return NoRequeue;
        }
        ir.triage := TriageStatus(tr.value.inScope, tr.value.suspicious, false);
        ir.commentURL := tr.value.commentURL;
        if ir.triage.suspicious || !ir.triage.inScope {
          ir.phase := Rejected;
          ir.SetStatusCondition(Triaged, true);
          return NoRequeue;
        }
        ir.phase := PendingValidation;
        ir.SetStatusCondition(Triaged, true);
        ir.SetStatusCondition(AwaitingApproval, true);
        return RequeueAfter(PENDING_APPROVAL);
      }
      if job.failed > 0 {
        ir.phase := Failed;
        ir.SetStatusCondition(FailedCondition, true);
        return NoRequeue;
      }
      return RequeueAfter(JOB_POLL);
    }

    method ReconcilePendingValidation(ir: IssueResolution) returns (reply: Reply)
      modifies ir
      ensures Did(ir, PendingStep(ir.spec, old(ir.Value())), reply)
    {
      if !ir.spec.approved { return RequeueAfter(PENDING_APPROVAL); }
      ir.phase := Ready;
      ir.SetStatusCondition(AwaitingApproval, false);
      return RequeueAfter(SOON);
    }

    method HandleFixFailure(ir: IssueResolution, attempt: nat, maxAttempts: nat) returns (reply: Reply)
      modifies ir
      ensures Did(ir, FixFailure(old(ir.Value()), attempt, maxAttempts), reply)
    {
      if attempt < maxAttempts {
        ir.execution := ir.execution.(attempt := attempt + 1);
        ir.phase := Ready;
        return RequeueAfter(SOON);
      }
      ir.phase := Failed;
      ir.SetStatusCondition(FailedCondition, true);
      return NoRequeue;
    }

    method ReconcileFix(ir: IssueResolution, faults: Faults) returns (reply: Reply)
      modifies ir, api`jobs, api`nextUid
      ensures Did(ir, FixStep(ir.name, ir.spec, old(ir.Value()), old(api.jobs), api.pods, faults), reply)
    {
      hide ReadFix;
      hide FixJobName;
      hide FixBranchName;
      if ir.phase == PROpen { return NoRequeue; }
      var attempt := ir.execution.attempt;
      if attempt == 0 { attempt := 1; }
      var maxAttempts := 2;
      if ir.spec.maxFixAttempts.Some? { maxAttempts := ir.spec.maxFixAttempts.value; }
      var jobName := FixJobName(ir.name, attempt);
      var branch := FixBranchName(ir.spec.issueNumber, attempt);
      if faults.getJob { return Error; }
      if jobName !in api.jobs {
        if ir.phase != Ready && ir.execution.jobName != "" { return NoRequeue; }
        if faults.createJob { return Error; }
        api.Create(FixJob(ir.name, attempt, branch));
        ir.phase := Executing;
        ir.execution := ir.execution.(attempt := attempt, jobName := jobName, branch := branch);
        ir.SetStatusCondition(ExecutingCondition, true);
        return RequeueAfter(JOB_POLL);
      }
      var job := api.jobs[jobName];
      if job.succeeded > 0 {
        var fr := ReadFixResult(api.pods, ir.name, job.uid, faults.listPods);
        if fr.None? || fr.value.prURL == "" {
          reply := HandleFixFailure(ir, attempt, maxAttempts);
          return;
        }
        ir.phase := PROpen;
        ir.execution := Execution(attempt, jobName, fr.value.branch, fr.value.prURL, fr.value.prNumber);
        ir.SetStatusCondition(PROpenCondition, true);
        return NoRequeue;
      }
      if job.failed > 0 {
        reply := HandleFixFailure(ir, attempt, maxAttempts);
        return;
      }
      ir.phase := Executing;
      return RequeueAfter(JOB_POLL);
    }

    // The dispatch on the phase; an empty phase is a fresh resource.
    method RunPhase(ir: IssueResolution, faults: Faults) returns (reply: Reply)
      modifies ir, api`jobs, api`nextUid
      ensures Did(ir, ReconcileStep(ir.name, Resource(ir.spec, old(ir.Value())), old(api.jobs), api.pods, faults), reply)
    {
      hide TriageStep;
      hide PendingStep;
      hide FixStep;
      if ir.phase == Unset { ir.phase := Triage; }
      match ir.phase {
        case Triage => reply := ReconcileTriage(ir, faults);
        case PendingValidation => reply := ReconcilePendingValidation(ir);
        case Ready => reply := ReconcileFix(ir, faults);
        case Executing => reply := ReconcileFix(ir, faults);
        case PROpen => reply := ReconcileFix(ir, faults);
        case Unknown(_) =>
          ir.phase := Triage;
          reply := RequeueAfter(SOON);
        case _ => reply := NoRequeue;
      }
    }

    // One call of the controller for one resource. The patch may get lost.
    method Reconcile(name: string, faults: Faults, patchLost: bool) returns (reply: Reply)
      modifies api
      ensures api.cached == old(api.cached) && api.pods == old(api.pods)
      ensures name !in old(api.cached) ==> reply == NoRequeue && unchanged(api)
      ensures name in old(api.cached) ==>
        var view := old(api.cached)[name];
        var o := ReconcileStep(name, view, old(api.jobs), old(api.pods), faults);
        var patched := o.reply != Error && !patchLost && name in old(api.stored);
        reply == (if patched then o.reply else Error) &&
        api.jobs == old(api.WithJob(o.created)) &&
        api.nextUid == old(api.nextUid) + (if o.created.Some? then 1 else 0) &&
        api.stored == if patched
          then old(api.stored)[name := old(api.stored)[name].(
                 status := MergePatch(view.status, o.status, old(api.stored)[name].status))]
          else old(api.stored)
    {
      hide ReconcileStep;
      hide MergePatch;
      if name !in api.cached { return NoRequeue; }
      var orig := api.cached[name];
      var ir := new IssueResolution(name, orig);
      assert orig == Resource(ir.spec, ir.Value());
      reply := RunPhase(ir, faults);
      if reply == Error { return; }
      if patchLost { return Error; }
      var ok := api.PatchStatus(name, orig.status, ir.Value());
      if !ok { return Error; }
    }
  }
}
