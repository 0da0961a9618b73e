// What can create an attempt twice: a lost patch behind the creation of a fix
// Job, or a call that reads a version that is no longer stored; nothing else.
// For a resource that is read fresh, only the lost patch is left.
module Repeats {
  import opened Wrappers
  import opened Names
  import opened Controller
  import opened Prefilter
  import opened Cluster
  import opened ClusterSafety
  import opened FreshRuns

  // A fix Job is created exactly when its name is free and either the phase is
  // Ready or no Job name was recorded.
  lemma CreatesIff(name: string, view: Resource, jobs: map<string, Job>, pods: seq<Pod>, faults: Faults)
    requires view.status.phase in {Ready, Executing} && !faults.getJob && !faults.createJob
    ensures (exists a, b :: ReconcileStep(name, view, jobs, pods, faults).created == Some(FixJob(name, a, b))) <==>
      FixJobName(name, EffectiveAttempt(view.status)) !in jobs &&
      (view.status.phase == Ready || view.status.execution.jobName == "")
  {
    hide ReadFix;
    hide FixJobName;
  }

  // A call that reads this version creates the Job of its attempt.
  ghost predicate CreatesFrom(c: State, name: string, view: Resource) {
    name in c.stored && name in c.versions && view in c.versions[name] &&
    view.status.phase in {Ready, Executing} && FixJobName(name, EffectiveAttempt(view.status)) !in c.jobs &&
    (view.status.phase == Ready || view.status.execution.jobName == "")
  }

  // A call that reads what is stored does.
  ghost predicate Creates(c: State, name: string) { name in c.stored && CreatesFrom(c, name, c.stored[name]) }

  function Call(name: string, view: Resource, lost: bool): Step { Reconcile(name, view, NO_FAULTS, lost) }

  lemma CallCreates(c: State, name: string, view: Resource, lost: bool, d: Detector)
    requires CreatesFrom(c, name, view)
    ensures var step, a := Call(name, view, lost), EffectiveAttempt(view.status); var f := FixJobName(name, a);
      Enabled(c, step, d) && CreatesFix(c, step, name, a) &&
      var s := Next(c, step);
      f in s.jobs && s.jobs == c.jobs[f := s.jobs[f]] && name in s.stored && name in s.versions && view in s.versions[name] &&
      (lost ==> s.stored == c.stored && s.versions == c.versions)
  {
    hide ReadFix;
    hide FixJobName;
    hide FixBranchName;
    hide MergePatch;
    var branch := FixBranchName(view.spec.issueNumber, EffectiveAttempt(view.status));
    assert Computed(c, Call(name, view, lost)).created == Some(FixJob(name, EffectiveAttempt(view.status), branch));
  }

  // ---- the two ways ----

  // Two of the steps create the same attempt.
  ghost predicate CreatedTwice(states: seq<State>, steps: seq<Step>, name: string) {
    |states| == |steps| + 1 &&
    exists s, t, a: nat ::
      0 <= s < t < |steps| && CreatesFix(states[s], steps[s], name, a) && CreatesFix(states[t], steps[t], name, a)
  }

  // A stretch of a run.
  ghost predicate IsStretch(states: seq<State>, steps: seq<Step>, d: Detector) {
    |states| == |steps| + 1 &&
    forall i :: 0 <= i < |steps| ==> Enabled(states[i], steps[i], d) && states[i + 1] == Next(states[i], steps[i])
  }

  // The call creates the Job, which ends and expires before it is looked at;
  // then a call that reads the version from before the creation creates the
  // same attempt again.
  ghost predicate IsRecreation(c: State, states: seq<State>, steps: seq<Step>, d: Detector, name: string, lost: bool) {
    IsStretch(states, steps, d) && |steps| == 4 && states[0] == c && name in c.stored &&
    steps[0] == Call(name, c.stored[name], lost) && steps[1].JobProgress? && steps[2].JobExpires? &&
    steps[3] == Call(name, c.stored[name], false) && CreatedTwice(states, steps, name)
  }

  // Up to the state in which the Job is gone.
  lemma CreatedAndGone(c: State, name: string, lost: bool, d: Detector) returns (f: string, s1: State, s2: State, s3: State)
    requires Creates(c, name)
    ensures var call := Call(name, c.stored[name], lost); Enabled(c, call, d) && s1 == Next(c, call)
    ensures var fails := JobProgress(f, 0, 1); Enabled(s1, fails, d) && s2 == Next(s1, fails)
    ensures var expires := JobExpires(f); Enabled(s2, expires, d) && s3 == Next(s2, expires)
    ensures CreatesFix(c, Call(name, c.stored[name], lost), name, EffectiveAttempt(c.stored[name].status))
    ensures CreatesFrom(s3, name, c.stored[name]) && (lost ==> s3.stored == c.stored)
  {
    var view := c.stored[name];
    CallCreates(c, name, view, lost, d);
    f := FixJobName(name, EffectiveAttempt(view.status));
    s1 := Next(c, Call(name, view, lost));
    EndsAndExpires(s1, f, d);
    s2 := Next(s1, JobProgress(f, 0, 1));
    s3 := Next(s2, JobExpires(f));
    StillCreates(c, s3, name, view);
  }

  lemma Recreation(c: State, name: string, lost: bool, d: Detector) returns (states: seq<State>, steps: seq<Step>)
    requires Creates(c, name)
    ensures IsRecreation(c, states, steps, d, name, lost)
    ensures lost ==> Fresh(states, steps, name)
  {
    var view := c.stored[name];
    var f, s1, s2, s3 := CreatedAndGone(c, name, lost, d);
    CallCreates(s3, name, view, false, d);
    var s4 := Next(s3, Call(name, view, false));
    hide Next;
    hide Enabled;
    hide CreatesFix;
    hide CreatesFrom;
    hide FixJobName;
    hide CreatedTwice;
    hide IsStretch;
    states, steps := FourSteps(
      c, Call(name, view, lost), s1, JobProgress(f, 0, 1), s2, JobExpires(f), s3, Call(name, view, false), s4,
      d, name, EffectiveAttempt(view.status));
    if lost { FreshFour(states, steps, name); }
  }

  lemma FreshFour(states: seq<State>, steps: seq<Step>, name: string)
    requires |steps| == 4 && |states| == 5 && !steps[1].Reconcile? && !steps[2].Reconcile?
    requires !ReadsStale(states[0], steps[0], name) && !ReadsStale(states[3], steps[3], name)
    ensures Fresh(states, steps, name)
  {
  }

  lemma FourSteps(
    s0: State, a: Step, s1: State, b: Step, s2: State, e: Step, s3: State, g: Step, s4: State, d: Detector, name: string,
    attempt: nat)
      returns (states: seq<State>, steps: seq<Step>)
    requires Enabled(s0, a, d) && s1 == Next(s0, a) && Enabled(s1, b, d) && s2 == Next(s1, b)
    requires Enabled(s2, e, d) && s3 == Next(s2, e) && Enabled(s3, g, d) && s4 == Next(s3, g)
    requires CreatesFix(s0, a, name, attempt) && CreatesFix(s3, g, name, attempt)
    ensures |states| == 5 && states[0] == s0 && states[3] == s3
    ensures |steps| == 4 && steps[0] == a && steps[1] == b && steps[2] == e && steps[3] == g
    ensures IsStretch(states, steps, d) && CreatedTwice(states, steps, name)
  {
    hide AfterReconcile;
    hide EndsLikeWorker;
    hide CreatesFix;
    states, steps := [s0, s1, s2, s3, s4], [a, b, e, g];
    assert CreatesFix(states[0], steps[0], name, attempt) && CreatesFix(states[3], steps[3], name, attempt);
  }

  lemma EndsAndExpires(c: State, f: string, d: Detector)
    requires f in c.jobs
    ensures var fails, expires := JobProgress(f, 0, 1), JobExpires(f);
      Enabled(c, fails, d) &&
      var s := Next(c, fails);
      Enabled(s, expires, d) && Next(s, expires) == c.(jobs := c.jobs - {f})
  {
    assert c.jobs[f := c.jobs[f].(succeeded := 0, failed := 1)] - {f} == c.jobs - {f};
  }

  lemma StillCreates(c: State, s: State, name: string, view: Resource)
    requires CreatesFrom(c, name, view) && name in s.stored && name in s.versions && view in s.versions[name]
    requires FixJobName(name, EffectiveAttempt(view.status)) !in s.jobs
    ensures CreatesFrom(s, name, view)
  {
  }

  // A lost patch repeats the attempt, although every call reads what is stored.
  lemma LostCreationRepeats(c: State, name: string, d: Detector) returns (states: seq<State>, steps: seq<Step>)
    requires Creates(c, name)
    ensures IsRecreation(c, states, steps, d, name, true)
    ensures Fresh(states, steps, name) && CreationsKept(states, steps, name, 1)
  {
    states, steps := Recreation(c, name, true, d);
  }

  // So does a stale read, although no patch is lost.
  lemma StaleReadRepeats(c: State, name: string, d: Detector) returns (states: seq<State>, steps: seq<Step>)
    requires Creates(c, name)
    ensures IsRecreation(c, states, steps, d, name, false)
    ensures CreationsKept(states, steps, name, 0)
  {
    states, steps := Recreation(c, name, false, d);
  }

  // ---- nothing else ----

  ghost predicate ReadsStale(c: State, step: Step, name: string) {
    step.Reconcile? && step.name == name && !(name in c.stored && step.view == c.stored[name])
  }

  ghost predicate Disturbs(c: State, step: Step, name: string) {
    LosesCreation(c, step, name) || ReadsStale(c, step, name)
  }

  // When an attempt is created twice, a patch behind a creation was lost or a
  // call for the resource read a version that was not the stored one.
  lemma RepeatHasCause(states: seq<State>, steps: seq<Step>, d: Detector, name: string)
    requires IsRun(states, steps, d) && CreatedTwice(states, steps, name)
    ensures exists i :: 0 <= i < |steps| && Disturbs(states[i], steps[i], name)
  {
    hide CreatesFix;
    hide LosesCreation;
    hide IsRun;
    if forall i :: 0 <= i < |steps| ==> !Disturbs(states[i], steps[i], name) {
      forall i | 0 <= i < |steps| ensures !LosesCreation(states[i], steps[i], name) && !ReadsStale(states[i], steps[i], name) {
        assert !Disturbs(states[i], steps[i], name);
      }
      assert Fresh(states, steps, name) && CreationsKept(states, steps, name, 0);
      var s, t, a: nat :| 0 <= s < t < |steps| &&
        CreatesFix(states[s], steps[s], name, a) && CreatesFix(states[t], steps[t], name, a);
      CreatedOnce(states, steps, d, name, s, t, a);
    }
  }

  // The run goes on with the call, reads stay fresh, and after the call no
  // creation gets lost.
  ghost predicate GoesOn(states: seq<State>, steps: seq<Step>, more: seq<State>, further: seq<Step>, d: Detector, name: string, call: Step) {
    Continues(states, steps, more, further, d, name) && steps + [call] <= further &&
    CreationsKept(more, further, name, |steps| + 1)
  }

  // In a run that reads the resource fresh and lost no creation, and whose next
  // call creates a fix Job: some attempt can come to be created twice exactly
  // when that call's patch is lost.
  lemma RepeatsIffLost(states: seq<State>, steps: seq<Step>, d: Detector, name: string, lost: bool)
    requires IsRun(states, steps, d) && Fresh(states, steps, name) && CreationsKept(states, steps, name, 0)
    requires Creates(states[|steps|], name)
    ensures (exists more: seq<State>, further: seq<Step> ::
      GoesOn(states, steps, more, further, d, name, Call(name, states[|steps|].stored[name], lost)) &&
      CreatedTwice(more, further, name)) <==> lost
  {
    var c := states[|steps|];
    var call := Call(name, c.stored[name], lost);
    hide Creates;
    if lost {
      var more, further := LostRun(states, steps, d, name);
    }
    if more: seq<State>, further: seq<Step> :| GoesOn(states, steps, more, further, d, name, call) && CreatedTwice(more, further, name) {
      if !lost {
        AllKept(states, steps, more, further, d, name, call);
        hide CreatedTwice;
        hide LosesCreation;
        hide IsRun;
        RepeatHasCause(more, further, d, name);
      }
    }
  }

  // Such a run, continued by a recreation after a lost patch.
  lemma LostRun(states: seq<State>, steps: seq<Step>, d: Detector, name: string)
      returns (more: seq<State>, further: seq<Step>)
    requires IsRun(states, steps, d) && Fresh(states, steps, name) && Creates(states[|steps|], name)
    ensures GoesOn(states, steps, more, further, d, name, Call(name, states[|steps|].stored[name], true))
    ensures CreatedTwice(more, further, name)
  {
    var tail, rest := LostCreationRepeats(states[|steps|], name, d);
    hide Creates;
    hide Next;
    hide CreatesFix;
    hide Enabled;
    more, further := Joined(states, steps, tail, rest, d);
    TwiceInTail(states, steps, tail, rest, more, further, name);
    SplicedFresh(states, steps, tail, rest, more, further, name);
    SplicedKept(states, steps, tail, rest, more, further, name, 1);
    SplicedNext(states, steps, tail, rest, more, further);
  }

  // Such a run, continued by a recreation after a stale read: no creation is lost.
  lemma StaleRun(states: seq<State>, steps: seq<Step>, d: Detector, name: string)
      returns (more: seq<State>, further: seq<Step>)
    requires IsRun(states, steps, d) && CreationsKept(states, steps, name, 0) && Creates(states[|steps|], name)
    ensures IsRun(more, further, d) && states <= more && steps <= further && CreationsKept(more, further, name, 0)
    ensures CreatedTwice(more, further, name)
  {
    var tail, rest := StaleReadRepeats(states[|steps|], name, d);
    hide Creates;
    hide Next;
    hide CreatesFix;
    hide Enabled;
    more, further := Joined(states, steps, tail, rest, d);
    TwiceInTail(states, steps, tail, rest, more, further, name);
    SplicedKept(states, steps, tail, rest, more, further, name, 0);
    KeptBefore(states, steps, tail, rest, more, further, name);
  }

  lemma AllKept(states: seq<State>, steps: seq<Step>, more: seq<State>, further: seq<Step>, d: Detector, name: string, call: Step)
    requires CreationsKept(states, steps, name, 0) && GoesOn(states, steps, more, further, d, name, call)
    requires call.Reconcile? && !call.patchLost
    ensures CreationsKept(more, further, name, 0)
  {
    hide CreatesFix;
    hide IsRun;
    forall i | 0 <= i < |further| ensures !LosesCreation(more[i], further[i], name) {
      if i < |steps| {
        assert further[i] == (steps + [call])[i] == steps[i] && more[i] == states[i];
      } else if i == |steps| {
        assert further[i] == (steps + [call])[i] == call;
      }
    }
  }

  // A run and a stretch from its last state are a run.
  ghost predicate Spliced(states: seq<State>, steps: seq<Step>, tail: seq<State>, rest: seq<Step>, more: seq<State>, further: seq<Step>) {
    |more| == |further| + 1 && |further| == |steps| + |rest| && |states| == |steps| + 1 && |tail| == |rest| + 1 &&
    (forall i :: 0 <= i <= |steps| ==> more[i] == states[i]) && (forall i :: 0 <= i < |steps| ==> further[i] == steps[i]) &&
    (forall i :: |steps| <= i <= |further| ==> more[i] == tail[i - |steps|]) &&
    (forall i :: |steps| <= i < |further| ==> further[i] == rest[i - |steps|])
  }

  lemma Joined(states: seq<State>, steps: seq<Step>, tail: seq<State>, rest: seq<Step>, d: Detector)
      returns (more: seq<State>, further: seq<Step>)
    requires IsRun(states, steps, d) && IsStretch(tail, rest, d) && tail[0] == states[|steps|]
    ensures Spliced(states, steps, tail, rest, more, further) && IsRun(more, further, d)
    ensures states <= more && steps <= further
  {
    hide AfterReconcile;
    hide EndsLikeWorker;
    var n := |steps|;
    more, further := states + tail[1..], steps + rest;
    forall i | 0 <= i < |further| ensures Enabled(more[i], further[i], d) && more[i + 1] == Next(more[i], further[i]) {
      if i >= n {
        assert tail[i - n + 1] == Next(tail[i - n], rest[i - n]);
      } else {
        RunStep(states, steps, d, i);
      }
    }
  }

  lemma SplicedFresh(
    states: seq<State>, steps: seq<Step>, tail: seq<State>, rest: seq<Step>, more: seq<State>, further: seq<Step>, name: string)
    requires Spliced(states, steps, tail, rest, more, further) && Fresh(states, steps, name) && Fresh(tail, rest, name)
    ensures Fresh(more, further, name)
  {
  }

  lemma SplicedKept(
    states: seq<State>, steps: seq<Step>, tail: seq<State>, rest: seq<Step>, more: seq<State>, further: seq<Step>, name: string,
    from: nat)
    requires Spliced(states, steps, tail, rest, more, further) && CreationsKept(tail, rest, name, from)
    ensures CreationsKept(more, further, name, |steps| + from)
  {
    hide LosesCreation;
  }

  lemma KeptBefore(
    states: seq<State>, steps: seq<Step>, tail: seq<State>, rest: seq<Step>, more: seq<State>, further: seq<Step>, name: string)
    requires Spliced(states, steps, tail, rest, more, further)
    requires CreationsKept(states, steps, name, 0) && CreationsKept(more, further, name, |steps|)
    ensures CreationsKept(more, further, name, 0)
  {
    hide LosesCreation;
    forall i | 0 <= i < |further| ensures !LosesCreation(more[i], further[i], name) {
      if i < |steps| { assert !LosesCreation(states[i], steps[i], name); }
    }
  }

  lemma SplicedNext(states: seq<State>, steps: seq<Step>, tail: seq<State>, rest: seq<Step>, more: seq<State>, further: seq<Step>)
    requires Spliced(states, steps, tail, rest, more, further) && rest != []
    ensures steps + [rest[0]] <= further
  {
  }

  lemma TwiceInTail(states: seq<State>, steps: seq<Step>, tail: seq<State>, rest: seq<Step>, more: seq<State>, further: seq<Step>, name: string)
    requires Spliced(states, steps, tail, rest, more, further) && CreatedTwice(tail, rest, name)
    ensures CreatedTwice(more, further, name)
  {
    hide CreatesFix;
    var s, t, a: nat :| 0 <= s < t < |rest| && CreatesFix(tail[s], rest[s], name, a) && CreatesFix(tail[t], rest[t], name, a);
    var n := |steps|;
    assert CreatesFix(more[n + s], further[n + s], name, a) && CreatesFix(more[n + t], further[n + t], name, a);
  }
}
