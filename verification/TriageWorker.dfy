// The triage Job: cmd/triage/main.go and cmd/triage/github.go.
module TriageWorker {
  import opened Wrappers
  import opened Controller
  import opened Prefilter
  import Sanitizer

  const LABEL_EXECUTED := "triage:executed"
  const LABEL_SUSPICIOUS := "suspicious:true"
  const LABEL_NOT_SUSPICIOUS := "suspicious:false"
  const LABEL_IN_SCOPE := "in-scope:true"
  const LABEL_OUT_OF_SCOPE := "in-scope:false"
  const LABEL_PENDING := "agent:pending-validation"
  const LABEL_REJECTED := "agent:rejected"

  const MAX_BODY_RUNES := 12000

  function TruncateRunes(s: string, max: nat): string { if |s| <= max then s else s[..max] + "\U{2026}" }

  // A text of at most max characters is kept; of a longer one the first max
  // characters are, and an ellipsis shows it.
  lemma TruncatedIs(s: string, max: nat)
    ensures var t := TruncateRunes(s, max);
      (|s| <= max ==> t == s) && (|s| > max ==> |t| == max + 1 && t[max] == '\U{2026}' && forall i :: 0 <= i < max ==> t[i] == s[i])
  {
  }

  // ---- the issue on GitHub ----

  // What becomes of a request: it is answered, it never arrives, or it is
  // carried out and the answer gets lost.
  datatype Fate = Answered | Refused | AnswerLost

  datatype Http = Success | NotFound | Unprocessable | OtherError

  class GitHubIssue {
    var labels: set<string>
    var repoLabels: set<string>
    var comments: nat
    var calls: nat
    const fate: nat -> Fate
    const commentURL: nat -> string

    // The requests of these numbers are all answered.
    ghost predicate Answers(lo: nat, hi: nat) { forall k :: lo <= k < hi ==> fate(k) == Answered }

    constructor (fate: nat -> Fate, commentURL: nat -> string)
    {
      this.fate, this.commentURL := fate, commentURL;
      labels, repoLabels, comments, calls := {}, {}, 0, 0;
    }

    method RemoveLabel(name: string) returns (r: Http)
      modifies this`labels, this`calls
      ensures calls == old(calls) + 1 && (r == Success || r == NotFound <==> fate(old(calls)) == Answered)
      ensures r == Success || r == NotFound ==> labels == old(labels) - {name}
      ensures old(labels) - {name} <= labels <= old(labels)
    {
      var f := fate(calls);
      calls := calls + 1;
      if f == Refused { return OtherError; }
      var present := name in labels;
      labels := labels - {name};
      if f == AnswerLost { return OtherError; }
      return if present then Success else NotFound;
    }

    method CreateLabel(name: string) returns (r: Http)
      modifies this`repoLabels, this`calls
      ensures calls == old(calls) + 1 && (r == Success || r == Unprocessable <==> fate(old(calls)) == Answered)
      ensures r == Success || r == Unprocessable ==> repoLabels == old(repoLabels) + {name}
    {
      var f := fate(calls);
      calls := calls + 1;
      if f == Refused { return OtherError; }
      var present := name in repoLabels;
      repoLabels := repoLabels + {name};
      if f == AnswerLost { return OtherError; }
      return if present then Unprocessable else Success;
    }

    method AddLabels(names: seq<string>) returns (r: Http)
      modifies this`labels, this`calls
      ensures calls == old(calls) + 1 && (r == Success <==> fate(old(calls)) == Answered)
      ensures r == Success ==> labels == old(labels) + (set n | n in names)
      ensures old(labels) <= labels <= old(labels) + (set n | n in names)
    {
      var f := fate(calls);
      calls := calls + 1;
      if f == Refused { return OtherError; }
      labels := labels + (set n | n in names);
      return if f == AnswerLost then OtherError else Success;
    }

    method CreateComment() returns (r: Http, url: string)
      modifies this`comments, this`calls
      ensures calls == old(calls) + 1 && (r == Success <==> fate(old(calls)) == Answered)
      ensures r == Success ==> comments == old(comments) + 1 && url == commentURL(comments)
    {
      var f := fate(calls);
      calls := calls + 1;
      if f == Refused { return OtherError, ""; }
      comments := comments + 1;
      if f == AnswerLost { return OtherError, ""; }
      return Success, commentURL(comments);
    }
  }

  // ---- labels ----

  // What the labels of an issue say agrees with the triage result.
  ghost predicate LabelsAgree(r: TriageResult, labels: set<string>) {
    LABEL_EXECUTED in labels &&
    (LABEL_SUSPICIOUS in labels <==> r.suspicious) && (LABEL_NOT_SUSPICIOUS in labels <==> !r.suspicious) &&
    (LABEL_IN_SCOPE in labels <==> r.inScope) && (LABEL_OUT_OF_SCOPE in labels <==> !r.inScope) &&
    (LABEL_PENDING in labels <==> Accepts(r)) && (LABEL_REJECTED in labels <==> !Accepts(r))
  }

  // A plan that, carried out on any labels whatever, makes them agree.
  ghost predicate PlanFor(r: TriageResult, add: seq<string>, remove: seq<string>) {
    forall before: set<string> :: LabelsAgree(r, Synced(before, add, remove))
  }

  function Synced(before: set<string>, add: seq<string>, remove: seq<string>): set<string> {
    before - (set n | n in remove) + (set n | n in add)
  }

  method TriageLabelPlan(r: TriageResult) returns (add: seq<string>, remove: seq<string>)
    ensures PlanFor(r, add, remove) && |add| == 4 && |remove| == 3
    ensures (set n | n in add) !! (set n | n in remove)
  {
    add, remove := [LABEL_EXECUTED], [];
    if r.suspicious {
      add, remove := add + [LABEL_SUSPICIOUS], remove + [LABEL_NOT_SUSPICIOUS];
    } else {
      add, remove := add + [LABEL_NOT_SUSPICIOUS], remove + [LABEL_SUSPICIOUS];
    }
    if r.inScope {
      add, remove := add + [LABEL_IN_SCOPE], remove + [LABEL_OUT_OF_SCOPE];
    } else {
      add, remove := add + [LABEL_OUT_OF_SCOPE], remove + [LABEL_IN_SCOPE];
    }
    if r.inScope && !r.suspicious {
      add, remove := add + [LABEL_PENDING], remove + [LABEL_REJECTED];
    } else {
      add, remove := add + [LABEL_REJECTED], remove + [LABEL_PENDING];
    }
  }

  // Three removals, four creations and one addition.
  const SYNC_CALLS := 8

  // It succeeds exactly when every request is answered; then the labels agree
  // with the result, whatever an earlier pod that failed half way has left.
  method SyncTriageLabels(gh: GitHubIssue, r: TriageResult) returns (ok: bool)
    modifies gh
    ensures ok <==> gh.Answers(old(gh.calls), old(gh.calls) + SYNC_CALLS)
    ensures ok ==> LabelsAgree(r, gh.labels)
    ensures gh.comments == old(gh.comments)
  {
    var add, remove := TriageLabelPlan(r);
    ghost var before, from := gh.labels, gh.calls;
    for i := 0 to |remove|
      invariant gh.labels == before - (set n | n in remove[..i])
      invariant gh.calls == from + i && gh.Answers(from, from + i)
      invariant gh.comments == old(gh.comments)
    {
      var http := gh.RemoveLabel(remove[i]);
      if http != Success && http != NotFound { return false; }
      assert remove[..i + 1] == remove[..i] + [remove[i]];
    }
    assert remove[..|remove|] == remove;
    for i := 0 to |add|
      invariant gh.labels == before - (set n | n in remove)
      invariant gh.calls == from + 3 + i && gh.Answers(from, from + 3 + i)
      invariant gh.comments == old(gh.comments)
    {
      var http := gh.CreateLabel(add[i]);
      if http != Success && http != Unprocessable { return false; }
    }
    var http := gh.AddLabels(add);
    if http != Success { return false; }
    assert gh.labels == Synced(before, add, remove);
    return true;
  }

  // ---- the run ----

  // What the pod is given and what the calls it makes return.
  datatype Env = Env(
    title: string,
    body: string,
    hasApiKey: bool,
    hasToken: bool,
    repoValid: bool,
    issueNumberValid: bool,
    answer: (string, string) -> Option<Option<TriageResult>>,   // the model's: none, unparsable, or a record
    logWritable: nat -> bool)               // the n-th write of the termination log

  // What the comment and the labels need, from this request and comment on.
  ghost predicate Posts(gh: GitHubIssue, env: Env, calls: nat, comments: nat) {
    env.hasToken && env.repoValid && env.issueNumberValid &&
    gh.Answers(calls, calls + 1 + SYNC_CALLS) && gh.commentURL(comments + 1) != ""
  }

  method PostTriageFeedback(gh: GitHubIssue, env: Env, r: TriageResult) returns (url: Option<string>)
    modifies gh
    ensures url.Some? <==> Posts(gh, env, old(gh.calls), old(gh.comments))
    ensures url.Some? ==>
      url.value == gh.commentURL(gh.comments) != "" && LabelsAgree(r, gh.labels) && gh.comments == old(gh.comments) + 1
  {
    if !env.hasToken || !env.repoValid || !env.issueNumberValid { return None; }
    var http, link := gh.CreateComment();
    if http != Success || link == "" { return None; }
    var ok := SyncTriageLabels(gh, r);
    if !ok { return None; }
    return Some(link);
  }

  // What the worker promises of a message the controller will believe: a
  // comment was posted, the labels agree, and the prefilter was obeyed.
  ghost predicate Vouched(title: string, body: string, d: Detector, r: TriageResult, labels: set<string>) {
    r.commentURL != "" && LabelsAgree(r, labels) &&
    (Suspicious(title, TruncateRunes(body, MAX_BODY_RUNES), d) ==> r.suspicious && !r.inScope && !r.parseError)
  }

  // The termination log after a number of writes.
  class TerminationLog {
    var message: Message
    var writes: nat
    const writable: nat -> bool

    constructor (writable: nat -> bool)
      ensures message == NoMessage && writes == 0 && this.writable == writable
    {
      message, writes := NoMessage, 0;
      this.writable := writable;
    }

    method Write(r: TriageResult) returns (ok: bool)
      modifies this
      ensures ok == writable(old(writes)) && writes == old(writes) + 1
      ensures message == if ok then TriageMessage(r) else old(message)
    {
      ok := writable(writes);
      writes := writes + 1;
      if ok { message := TriageMessage(r); }
    }
  }

  // It succeeds exactly when comment, labels and log do. The log is written
  // in any case, with the comment's URL only when all of it was posted.
  method FinishTriage(gh: GitHubIssue, log: TerminationLog, env: Env, result: TriageResult) returns (ok: bool)
    modifies gh, log
    ensures ok <==> Posts(gh, env, old(gh.calls), old(gh.comments)) && log.writable(old(log.writes))
    ensures ok ==> gh.comments == old(gh.comments) + 1 && gh.commentURL(gh.comments) != ""
    ensures ok ==> LabelsAgree(result, gh.labels) && LabelsAgree(result.(commentURL := gh.commentURL(gh.comments)), gh.labels)
    ensures log.writes == old(log.writes) + 1
    ensures log.message ==
      if !log.writable(old(log.writes)) then old(log.message)
      else if Posts(gh, env, old(gh.calls), old(gh.comments)) then
        TriageMessage(result.(commentURL := gh.commentURL(gh.comments)))
      else TriageMessage(result)
  {
    var url := PostTriageFeedback(gh, env, result);
    if url.None? {
      var ignored := log.Write(result);
      return false;
    }
    ok := log.Write(result.(commentURL := url.value));
  }

  // The model is given clean texts only: no comment, no base64 data URI and no
  // span that counts as encoded data.
  method CallModel(env: Env, title: string, body: string) returns (r: Option<Option<TriageResult>>)
    requires Sanitizer.Clean(title) && Sanitizer.Clean(body)
    ensures r == env.answer(title, body)
  {
    r := env.answer(title, body);
  }

  ghost predicate PrefilterHits(env: Env, d: Detector) { Suspicious(env.title, TruncateRunes(env.body, 12000), d) }

  // What the model says of the sanitised title and body.
  ghost function ModelSays(env: Env): Option<Option<TriageResult>> {
    env.answer(Sanitizer.Sanitized(env.title), Sanitizer.Sanitized(TruncateRunes(env.body, 12000)))
  }

  // A result that tells what was found: a hit of the prefilter is suspicious
  // and out of scope whatever the model would say; an answer that is no JSON is
  // a parse error and not in scope; any other answer is passed on as it is, but
  // for the URL of the comment.
  ghost predicate Tells(env: Env, d: Detector, r: TriageResult) {
    if PrefilterHits(env, d) then r.suspicious && !r.inScope && !r.parseError
    else
      env.hasApiKey &&
      match ModelSays(env)
      case None => false
      case Some(None) => r.parseError && !r.inScope && !r.suspicious
      case Some(Some(a)) => r == a.(commentURL := r.commentURL)
  }

  // The result of the triage, unless it cannot be had: the prefilter decides
  // on the issue's own text, the model on what the sanitiser leaves of it.
  ghost function Decided(env: Env, d: Detector): (result: Option<TriageResult>)
    ensures result.Some? <==> PrefilterHits(env, d) || (env.hasApiKey && ModelSays(env).Some?)
    ensures result.Some? ==> forall url :: Tells(env, d, result.value.(commentURL := url))
  {
    var body := TruncateRunes(env.body, MAX_BODY_RUNES);
    if Suspicious(env.title, body, d) then Some(TriageResult(false, true, false, ""))
    else if !env.hasApiKey then None
    else
      match env.answer(Sanitizer.Sanitized(env.title), Sanitizer.Sanitized(body))
      case None => None
      case Some(None) => Some(TriageResult(false, false, true, ""))
      case Some(Some(r)) => Some(r)
  }

  // How often the log is written before the run gives up.
  ghost function Tries(env: Env, d: Detector): nat { if Decided(env, d).Some? then 1 else 0 }

  // What a failed run leaves: the report of the failure if it can be written,
  // else the result that was not posted, else nothing.
  ghost function LeftBehind(env: Env, d: Detector): Message {
    if env.logWritable(Tries(env, d)) then TriageMessage(TriageResult(false, false, false, ""))
    else if Decided(env, d).Some? && env.logWritable(0) then TriageMessage(Decided(env, d).value)
    else NoMessage
  }

  method Run(gh: GitHubIssue, log: TerminationLog, env: Env, d: Detector) returns (ok: bool)
    modifies gh, log
    ensures ok <==>
      Decided(env, d).Some? && Posts(gh, env, old(gh.calls), old(gh.comments)) && log.writable(old(log.writes))
    ensures ok ==> log.message == TriageMessage(Decided(env, d).value.(commentURL := gh.commentURL(gh.comments)))
    ensures !ok ==> log.writes == old(log.writes) + Tries(env, d)
    ensures !ok && Decided(env, d).Some? && log.writable(old(log.writes)) ==> log.message == TriageMessage(Decided(env, d).value)
    ensures !ok && !(Decided(env, d).Some? && log.writable(old(log.writes))) ==> log.message == old(log.message)
    ensures ok ==> gh.comments == old(gh.comments) + 1 && Vouched(env.title, env.body, d, log.message.triage, gh.labels)
    ensures ok ==> Tells(env, d, log.message.triage)
  {
    hide Tells;
    hide Sanitizer.Clean;
    hide Sanitizer.Sanitized;
    hide Sanitizer.Substitutions;
    hide Posts;
    hide LabelsAgree;
    var body := TruncateRunes(env.body, MAX_BODY_RUNES);
    var safeTitle, nTitle := Sanitizer.SanitizeForModel(env.title);
    var safeBody, nBody := Sanitizer.SanitizeForModel(body);
    var findings := ScanSuspicious(env.title, body, d);
    FindingsIffSuspicious(env.title, body, d);
    hide Suspicious;
    if |findings| > 0 {
      ok := FinishTriage(gh, log, env, TriageResult(false, true, false, ""));
      return;
    }
    if !env.hasApiKey { return false; }
    var answer := CallModel(env, safeTitle, safeBody);
    if answer.None? { return false; }
    var result := if answer.value.Some? then answer.value.value else TriageResult(false, false, true, "");
    ok := FinishTriage(gh, log, env, result);
  }

  // The exit code and the termination message of the pod's container. Only a
  // run that succeeded exits with 0, so what the controller believes is
  // vouched for.
  method RunPod(gh: GitHubIssue, env: Env, d: Detector) returns (exitCode: int, message: Message)
    modifies gh
    ensures exitCode ==
      if Decided(env, d).Some? && Posts(gh, env, old(gh.calls), old(gh.comments)) && env.logWritable(0) then 0 else 1
    ensures exitCode == 0 ==> message.TriageMessage? && Tells(env, d, message.triage)
    ensures exitCode == 0 ==> env.hasToken && env.repoValid && env.issueNumberValid && message.triage.commentURL != ""
    ensures exitCode == 1 ==> message == LeftBehind(env, d)
    ensures exitCode == 1 && env.logWritable(0) && env.logWritable(1) ==>
      message == TriageMessage(TriageResult(false, false, false, ""))
    ensures exitCode == 0 ==>
      message == TriageMessage(Decided(env, d).value.(commentURL := gh.commentURL(gh.comments))) &&
      gh.comments == old(gh.comments) + 1 && Vouched(env.title, env.body, d, message.triage, gh.labels)
  {
    hide Decided;
    hide Tells;
    hide Vouched;
    var log := new TerminationLog(env.logWritable);
    var ok := Run(gh, log, env, d);
    if !ok {
      var ignored := log.Write(TriageResult(false, false, false, ""));
      return 1, log.message;
    }
    return 0, log.message;
  }
}
