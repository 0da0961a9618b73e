// The programs are the steps: a call of the reconciler is the cluster's
// reconcile step, and a run of the triage pod is a step the cluster allows.
module Refinement {
  import opened Controller
  import opened Prefilter
  import opened TriageWorker
  import opened Cluster
  import opened ReconcilerModel

  // The API server holds what the state says.
  ghost predicate Holds(api: Api, c: State)
    reads api
  {
    api.stored == c.stored && api.jobs == c.jobs && api.pods == c.pods && api.nextUid == c.nextUid
  }

  // The cache serves some version that was stored at some time.
  ghost predicate CacheServes(api: Api, c: State, name: string)
    reads api
  {
    name in api.cached && name in c.stored && name in c.versions && api.cached[name] in c.versions[name]
  }

  method ReconcileIsStep(r: Reconciler, ghost c: State, d: Detector, name: string, faults: Faults, patchLost: bool)
      returns (reply: Reply, ghost step: Step)
    requires Holds(r.api, c) && CacheServes(r.api, c, name)
    modifies r.api
    ensures step.Reconcile? && step.name == name && step.view == old(r.api.cached)[name]
    ensures Enabled(c, step, d) && Holds(r.api, Next(c, step))
  {
    hide ReconcileStep;
    hide MergePatch;
    hide Observed;
    step := Step.Reconcile(name, r.api.cached[name], faults, patchLost);
    reply := r.Reconcile(name, faults, patchLost);
  }

  // The pod of a triage Job, run on the title and body the Job was created for.
  method RunPodIsStep(gh: GitHubIssue, env: Env, d: Detector, ghost c: State, issue: string, uid: nat)
      returns (exitCode: int, message: Message, ghost step: Step)
    requires TriageCreated(issue, uid, env.title, env.body) in c.log
    modifies gh
    ensures step == TriagePodEnds(Pod(PodLabels(issue, TriageRole, uid), [Terminated(exitCode, message)]), exitCode, message, gh.labels)
    ensures Enabled(c, step, d)
  {
    hide Vouched;
    exitCode, message := RunPod(gh, env, d);
    step := TriagePodEnds(Pod(PodLabels(issue, TriageRole, uid), [Terminated(exitCode, message)]), exitCode, message, gh.labels);
  }
}
