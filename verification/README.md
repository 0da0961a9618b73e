# A verified model of the HAL issue operator

The operator turns a GitHub issue into a pull request. A controller drives one custom resource per
issue through its phases and creates Jobs; a triage Job screens the issue text and asks a model whether
the issue is in scope; after a human has approved the plan, fix Jobs let a model edit one file. This
project models the three parts that carry the weight of that design and proves what they promise.

**The operator protocol.** `Controller` is one reconcile as a function of what is read. `ReconcilerModel`
is the reconciler as it runs (a copy of the resource changed in place, Jobs created on an API server,
a merge patch of the status, nested loops over pods and containers), proved against that function.
`TriageWorker` is the triage Job with its comment, labels and termination log. `Cluster` puts any number
of resources, the controller, the worker and the surroundings into one state machine, and `Refinement`
proves that the programs' calls are its steps. In `Cluster` and `ClusterSafety` the controller may read
any version of a resource that was ever stored, every status patch may get lost after the Job was
created, Jobs expire, pods come and go, and specs are edited. `FreshRuns` and `Progress` add what holds of a
resource whose calls read its latest version, `Repeats` what can create an attempt twice, `DeadEnds` when a resource
cannot be finished, and `Reachability` runs that reach all this from the empty cluster. `Outcomes` says result by
result what one call comes to and what its patch writes, `Endings` on what evidence a run ends.

**The sanitiser.** `Base64Scan` is the nested scanner that redacts base64 blocks. `Decomposition` gives the
declarative form (the one decomposition of a text into maximal spans) and proves that the scanner
computes it; `RedactionLaws` proves the algebra of redaction, `Sanitizer` the pipeline with its two earlier
rewriting passes, `Prefilter` the deterministic detectors.

**The edit script.** `EditScript` parses the model's answer, `EditRoundTrip` and `EditEntry` prove that
parsing undoes printing, characterise what parsing can return and when it panics; `EditLaws` says what an answer is
taken apart into and which fault is reported. `ApplyEdits` is the
sequential rewriting of a file, `Simultaneous` its order independence.

## Reading the model

- A text is the sequence of its Unicode code points; the byte scanner of the sanitiser treats every byte of a
  longer encoding alike and copies it, so it agrees with a scan by code points, and its bounds hold for
  byte lengths too, since kept characters keep their bytes.
- Libraries enter as parameters: NFKC, lower-casing, the shell pattern and the list of phrases in `Prefilter.Detector`, JSON
  decoding as `unmarshal` and as the records in `Controller.Message`, the model's answer, the fate of each
  HTTP request and of each write of the termination log in `TriageWorker.Env` and `GitHubIssue`.
- Case-insensitive patterns fold over Unicode as RE2 does: LATIN SMALL LETTER LONG S matches an s, KELVIN SIGN a k.
- The upper-case test of the scanner multiplies by 0.25 in floating point; that is exact, and is the
  integer test `4 * upper >= total`.
- `Crashed` is a Go panic.

## Where the code and its comments part

The model follows the code.

- The comment on `redactBase64Blocks` says that prose passes through untouched. One slash in a run of words with
  forty letters is enough for the whole run to be replaced (`Decomposition.ProseWithSlashRedacted`).
  A text is kept exactly when no maximal span qualifies (`Decomposition.KeptIffNothingQualifies`).
- `parseMarkerEdits` does not always return a value or an error. When the first New marker of a block starts inside
  its first Old marker, the slice between them has its bounds the wrong way round and the worker panics:
  `EditEntry.EntryPanicsIff` is the exact condition, `EditEntry.SharedStarsPanic` a family of such answers.
- The prompt asks for an old text that appears exactly once. The count is of non-overlapping occurrences: it being one
  means a single occurrence, and edits are made where they belong, exactly for the old texts that do not overlap
  themselves (`Simultaneous.OneMatchIff`, `Simultaneous.MadeInPlaceIff`). In the file `aaa`, the edit of `aa` to `b` at
  the second character gives `ba` (`Simultaneous.OverlapMisplaces`).
- A comment says that a fix Job is only created from Ready. It is also created from Executing while no Job
  name is recorded (`Repeats.CreatesIff`).
- The design creates each attempt's Job once. An attempt can be created twice for two reasons only (`Repeats.RepeatHasCause`):
  the patch behind a creation is lost, or a call reads a version of the resource that is no longer stored. For a resource
  that is read fresh it can happen exactly when such a patch is lost (`Repeats.RepeatsIffLost`); no other lost patch
  matters (`FreshRuns.CreatedOnce`). Both have runs from the empty cluster, for every approved issue that passes the prefilter
  (`Reachability.LostPatchRun`, `Reachability.StaleReadRun`).
- An Executing resource whose recorded Job expired before it was looked at is left alone for good (`DeadEnds.StuckForGood`);
  this is the only dead end (`DeadEnds.FinishesIff`).
- A limit of 0 attempts, which the schema forbids, still lets the first attempt through (`ClusterSafety.Allowed`).
- The phase Done and the condition Ready are declared and never produced (`FreshRuns.Coherent`).

## Model

| member | source | states |
|---|---|---|
| Base64Scan.LooksBase64Block | cmd/triage/scan.go:259-285 | the counting loop decides: at least forty base64 characters, and one of + / = or mixed case with a quarter of upper case |
| Base64Scan.LooksIff | cmd/triage/scan.go:281-284 | without + / = a span of at least forty characters qualifies exactly when it has lower case letters and at most three characters in four are lower case letters or digits |
| Base64Scan.ClassesByCode | cmd/triage/scan.go:189-204 | the alphabet of RFC 4648, section 4, with its padding, and the four blanks, by their codes |
| Base64Scan.RedactBase64Blocks | cmd/triage/scan.go:213-255 | the three-index scanner returns the redaction and its number of replacements, and looks at no more than four bytes per byte of input |
| Base64Scan.ExtendSpan | cmd/triage/scan.go:226-245 | the inner loops stop behind the longest prefix without barrier that ends in a base64 character; trailing blanks are left out |
| Decomposition.DecompositionUnique | cmd/triage/scan.go:206-212 | every text has exactly one decomposition into maximal base64 spans and gaps |
| Decomposition.RedactionIsDeclarative | cmd/triage/scan.go:213-255 | for every decomposition: the output is the text with exactly the qualifying spans replaced, and n is their number |
| Decomposition.KeptIffNothingQualifies | cmd/triage/scan.go:206-212 | the count is zero, and the text unchanged, exactly when no maximal span qualifies |
| Decomposition.OneCaseTextKept | cmd/triage/scan.go:281-284 | a text without + / = whose maximal spans each use one letter case is returned unchanged |
| Decomposition.ProseWithSlashRedacted | cmd/triage/scan.go:278-280 | lower case prose with one slash and forty letters is replaced as a whole |
| RedactionLaws.BarrierSplits | cmd/triage/scan.go:213-255 | a character outside alphabet and blanks is kept and separates: both sides are redacted independently |
| RedactionLaws.Field | cmd/triage/scan.go:223-252 | between barriers, blanks around a span stay and the span is replaced exactly when it qualifies |
| RedactionLaws.RedactionIdempotent | cmd/triage/scan.go:213-255 | redacting twice is redacting once, and the second pass counts nothing |
| RedactionLaws.RechunkingInvariant | cmd/triage/scan.go:206-212 | however the blanks inside a maximal span are put in, moved or taken out, at any number of places: the span stays maximal and qualifies as before, and when it qualifies output and count are the same, in any surroundings |
| RedactionLaws.ChunkingInvariant | cmd/triage/scan.go:206-212 | in particular blanks inserted at one place strictly inside a qualifying maximal span, which is then again one |
| RedactionLaws.RedactionBounds | cmd/triage/scan.go:33-45 | n replacements need 41n - 1 characters, and the output grows by at most nine characters each |
| Sanitizer.SanitizeForModel | cmd/triage/scan.go:173-187 | what comes out holds no comment, no base64 data URI and no qualifying span; the count is zero exactly when that was so already, and then the text is returned as it is |
| Sanitizer.SanitizingIsDeclarative | cmd/triage/scan.go:173-187 | for any pass of comment matches, then of data URI matches, then any decomposition into spans: the result is the text with exactly these matches and the qualifying spans replaced by their marks, and the count is their number |
| Sanitizer.PassUnique | cmd/triage/scan.go:181-182 | every text has exactly one pass: matches in order that cover every place where the pattern occurs |
| Sanitizer.SanitizedIsClean | cmd/triage/scan.go:165-172 | whatever the issue says, the result holds no HTML comment, no base64 data URI and no qualifying span |
| Sanitizer.UntouchedIffClean | cmd/triage/scan.go:173-187 | the count is zero exactly for texts that are clean already, and those are returned as they are |
| Sanitizer.SanitizingIdempotent | cmd/triage/scan.go:173-187 | sanitising its own output returns it unchanged with count zero |
| Sanitizer.PassLeavesNone | cmd/triage/scan.go:181-182 | a pass over the leftmost matches leaves no match of its own pattern |
| Sanitizer.NothingNew | cmd/triage/scan.go:36-37 | cutting any parts of a text and putting placeholders there completes no comment and no data URI that was not there |
| Sanitizer.MatchesStart | cmd/triage/scan.go:62-63 | the hand matchers find a match at a position exactly when the pattern occurs there |
| Sanitizer.MatchEndsIff | cmd/triage/scan.go:62-63 | and the match ends where the pattern does: a comment behind the first close behind its open, a data URI behind the last character of its payload |
| Sanitizer.ClassesByCode | cmd/triage/scan.go:62-63 | the payload and media type classes of the data URI pattern, by their codes |
| Sanitizer.FirstMatchCut | cmd/triage/scan.go:62-63 | the first match goes as a whole, what stands in front of it stays, and the search goes on behind its end, so text between two comments stays |
| Prefilter.ScanSuspicious | cmd/triage/scan.go:131-163 | the findings are those of the detectors that fire, in the order of the scan, each key once |
| Prefilter.Scan.Add | cmd/triage/scan.go:140-147 | a finding is appended unless its key was seen |
| Prefilter.FindingsIff | cmd/triage/scan.go:119-163 | there are findings exactly when the text has an invisible character, the shell pattern matches it or its normal form, or the normal form (stripped, NFKC, lower case) holds a phrase |
| Prefilter.FindingsExactly | cmd/triage/scan.go:131-163 | each finding is of a detector that fires, each detector that fires has a finding, and no two have the same rule and detail |
| Prefilter.FindingsInOrder | cmd/triage/scan.go:131-163 | the findings come in the order of the scan: invisible characters, the shell pattern, then the phrases as they are listed |
| Prefilter.FindingsIffSuspicious | cmd/triage/main.go:78-78 | there are findings exactly when some detector fires |
| Prefilter.InvisibleHidesNothing | cmd/triage/scan.go:119-163 | invisible characters put anywhere into a text are a finding, and every finding of the text without them is kept, except a match of the shell pattern on the raw text alone |
| EditScript.ParseMarkerEdits | cmd/fix/main.go:414-448 | the loop over begin, old, new and end markers returns the parsed list, the fault or the panic |
| EditScript.ValidateEdits | cmd/fix/main.go:450-463 | the list is returned exactly when it is non-empty and every edit has a non-empty old text different from the new one; else the first fault |
| EditScript.ParseEdits | cmd/fix/main.go:391-403 | JSON first when the answer looks like it, markers when that fails; what is returned is a non-empty list of edits that may be applied |
| EditLaws.JsonFirst | cmd/fix/main.go:391-412 | an answer that looks like JSON and decodes to a non-empty list of edits that may be applied is that list; every other answer is read by its markers |
| EditLaws.BlocksDecide | cmd/fix/main.go:421-448 | the text is read, block by block, exactly when every block has its markers in order and the last is closed; otherwise the first thing that is wrong decides the fault |
| EditLaws.BlockIs | cmd/fix/main.go:436-445 | a block gives the text between its first Old and first New marker and the text behind that, without their outer line breaks, whatever stands in front |
| EditLaws.StripIs | cmd/fix/main.go:441-444 | one line break goes at each end where there is one, and nothing else |
| EditLaws.TrimSpaceIs | cmd/fix/main.go:392-392 | the white space at both ends goes, and nothing else |
| EditLaws.FaultIs | cmd/fix/main.go:450-463 | the first edit that may not be applied decides the fault, and which of the two it is |
| EditEntry.ParseUndoesPrint | cmd/fix/main.go:391-463 | any printable list of edits, printed with begin-marker-free prose around its blocks, is read back from the entry point |
| EditRoundTrip.PrintedParses | cmd/fix/main.go:414-448 | the blocks of a printed script parse to its edits, also when prose ends in the start of a begin marker |
| EditRoundTrip.ParseImage | cmd/fix/main.go:414-463 | what marker parsing can return are exactly the non-empty lists of printable edits |
| EditEntry.PanicsIff | cmd/fix/main.go:436-441 | taking the blocks apart panics exactly when some block has its first new marker start inside its first old marker, and every block in front of it has it behind |
| EditEntry.EntryPanicsIff | cmd/fix/main.go:391-448 | the entry point panics exactly when the trimmed answer is not accepted as JSON and reaches such a block |
| EditEntry.SharedStarsPanic | cmd/fix/main.go:391-441 | every answer that starts with a block whose first line is two markers sharing their stars makes the entry point panic, whatever follows |
| ApplyEdits.Apply | cmd/fix/main.go:465-481 | the loop returns the rewritten text, the first edit that is missing or ambiguous, or no change |
| ApplyEdits.CountMatches | cmd/fix/main.go:468-468 | counts occurrences from the left without overlap |
| ApplyEdits.CountsSideBySide | cmd/fix/main.go:468-468 | the count is the length of the list of occurrences in which each is the first one behind the end of the one before |
| ApplyEdits.MatchesOnceIff | cmd/fix/main.go:468-474 | the count is one exactly when there is a first occurrence and none behind its end |
| ApplyEdits.StepIsSplice | cmd/fix/main.go:468-475 | an edit goes through exactly as a splice at that place; every other character is kept |
| ApplyEdits.AppliesIff | cmd/fix/main.go:465-481 | the edits apply, with this result, exactly when a chain of such splices leads to it and it differs from the file |
| ApplyEdits.FailsIff | cmd/fix/main.go:467-474 | the run stops at edit i exactly when the edits before it apply and no splice is possible for it |
| ApplyEdits.FailsHow | cmd/fix/main.go:469-474 | an edit is reported missing exactly when its old text is nowhere in the file, and ambiguous with the number of its occurrences |
| ApplyEdits.NoChangeIff | cmd/fix/main.go:477-479 | no change is reported exactly when the splices lead back to the file |
| ApplyEdits.LengthOfRun | cmd/fix/main.go:475-475 | the length changes by the sum of the length differences of the edits |
| Simultaneous.AppliesAtOnce | cmd/fix/main.go:465-481 | edits with disjoint places and old texts that do not overlap themselves are made as if all at once |
| Simultaneous.OrderIrrelevant | cmd/fix/main.go:465-481 | two orders of such edits that both apply give the same file |
| Simultaneous.OneMatchIff | cmd/fix/main.go:468-474 | a count of one means a single occurrence, in every text, exactly for the old texts that do not overlap themselves |
| Simultaneous.MadeInPlaceIff | cmd/fix/main.go:465-481 | an edit with a place in the file, when it applies, is made at that place, for every file and new text, exactly when its old text does not overlap itself |
| Names.DecimalMeans | internal/controller/issueresolution_controller.go:560-566 | attempts and issue numbers are printed in decimal without leading zeros |
| Names.NamesLookLike | internal/controller/issueresolution_controller.go:560-566 | the names of issue 7, attempt 2 |
| Names.FixJobNamesInjective | internal/controller/issueresolution_controller.go:560-562 | fix Jobs of different resources or attempts never share a name |
| Names.TriageJobNamesInjective | internal/controller/issueresolution_controller.go:705-707 | triage Jobs of different resources never share a name |
| Names.RolesApart | internal/controller/issueresolution_controller.go:560-562 | no fix Job has the name of a triage Job |
| Names.BranchNamesInjective | internal/controller/issueresolution_controller.go:564-566 | branches of different issues or attempts never share a name |
| Names.BranchNamesAgree | cmd/fix/main.go:627-629 | the worker's default branch is the controller's |
| ReconcilerModel.FirstTrusted | internal/controller/issueresolution_controller.go:678-700 | the nested loops return the first message of a successful container of the Job's own pods |
| Outcomes.FirstMessageIs | internal/controller/issueresolution_controller.go:678-700 | the message that is read is that of the first container, in the first of the Job's own pods, that ended with exit code 0 and wrote one |
| Controller.SamePodsReadAlike | internal/controller/issueresolution_controller.go:523-558 | the readers depend on the Job's own pods in their order: pods of other resources, roles or Jobs may be added, removed or moved |
| Controller.UntrustedIrrelevant | internal/controller/issueresolution_controller.go:538-548 | nor do containers count that run, failed or wrote nothing |
| ReconcilerModel.Reconciler.ReconcileTriage | internal/controller/issueresolution_controller.go:162-276 | the copy and the Jobs change as the triage step says |
| Outcomes.TriageJobMissing | internal/controller/issueresolution_controller.go:162-188 | without a triage Job one is created for the title and body that were read |
| Outcomes.TriageResults | internal/controller/issueresolution_controller.go:194-276 | PendingValidation, Rejected and Failed each result exactly on their own evidence, and a success counts although the Job also counts a failure |
| Outcomes.TriageRecords | internal/controller/issueresolution_controller.go:194-276 | result, comment URL, conditions and the time of the next call are recorded as they were read |
| Outcomes.OddTriageMessage | internal/controller/issueresolution_controller.go:678-700 | a trusted message that is no JSON fails the resource; null and the record of the other worker reject it |
| Outcomes.ApprovalOutcome | internal/controller/issueresolution_controller.go:280-299 | the resource becomes Ready exactly when it is approved, and nothing but phase and condition changes |
| ReconcilerModel.Reconciler.ReconcileFix | internal/controller/issueresolution_controller.go:301-385 | the copy and the Jobs change as the fix step says |
| Outcomes.FixJobMissing | internal/controller/issueresolution_controller.go:321-347 | without the Job of the attempt it is created and recorded with its branch, unless the phase is Executing and a Job name is recorded |
| Outcomes.FixResults | internal/controller/issueresolution_controller.go:352-404 | a pull request opens exactly when one is reported; an attempt that ended without one is followed by another exactly below the limit, 2 when none is set, and the work fails exactly at it |
| Outcomes.FixRecords | internal/controller/issueresolution_controller.go:352-404 | the recorded pull request, number and branch are those that were reported; a failed attempt changes the attempt number only |
| Outcomes.OtherOutcome | internal/controller/issueresolution_controller.go:133-148 | terminal phases do nothing, and an unknown phase starts over |
| ReconcilerModel.Reconciler.Reconcile | internal/controller/issueresolution_controller.go:112-160 | a call reads the cache, runs the phase, and patches what is stored then; a lost patch leaves the created Job |
| Outcomes.PatchMerges | internal/controller/issueresolution_controller.go:154-156 | a field that was computed as it was read keeps what is stored, any other takes what was computed |
| Endings.NothingToSay | internal/controller/issueresolution_controller.go:154-156 | a call that computes what it read changes no stored resource, however old the version it read is |
| Endings.FailedCallChangesNothing | internal/controller/issueresolution_controller.go:150-156 | a call that fails changes neither a stored resource nor a Job |
| Endings.LatePollChangesNothing | internal/controller/issueresolution_controller.go:284-287 | so a late poll of an unapproved version cannot take back anything |
| Refinement.ReconcileIsStep | internal/controller/issueresolution_controller.go:112-160 | a call of the reconciler is the reconcile step of the cluster, in every state |
| Refinement.RunPodIsStep | cmd/triage/main.go:39-50 | a run of the triage pod is a step the cluster allows, whatever model and GitHub answer |
| TriageWorker.TriageLabelPlan | cmd/triage/github.go:98-125 | carried out on any labels whatever, the plan makes them agree with the result; nothing is both added and removed |
| TriageWorker.SyncTriageLabels | cmd/triage/github.go:127-155 | it succeeds exactly when all eight requests are answered; then the labels agree with the result, whatever an earlier pod left behind |
| TriageWorker.FinishTriage | cmd/triage/main.go:158-181 | it succeeds exactly when comment, labels and log do; the log is written in any case, with the URL of the comment only after all was posted |
| TriageWorker.Run | cmd/triage/main.go:52-156 | success exactly when a result can be had, feedback is posted and the log written; a prefilter hit is suspicious and out of scope whatever the model would say, an answer that is no JSON is a parse error out of scope, and any other answer to the sanitised texts is passed on as it is but for the URL |
| TriageWorker.RunPod | cmd/triage/main.go:39-50 | the exit code is 0 exactly when the run succeeds, and then the message is vouched for; else the message is the report of the failure, or what is left when that cannot be written |
| Cluster.StepKeeps | internal/controller/issueresolution_controller.go:112-404 | every step of every part keeps the invariant: names belong to their Jobs, messages were vouched for, phases and attempts have their justification in the log |
| Cluster.RunKeeps | internal/controller/issueresolution_controller.go:112-404 | the invariant holds in every state of every run |
| ClusterSafety.AttemptsAreBounded | internal/controller/issueresolution_controller.go:307-404 | with stale reads, lost patches and expiring Jobs: the attempts that some step created a fix Job for are exactly 1..k, and some stored version allows k attempts (or none, and k is 1) |
| ClusterSafety.AtMostTenAttempts | api/v1alpha1/issueresolution_types.go:107-112 | within the schema's range there are at most ten |
| ClusterSafety.AttemptsInOrder | internal/controller/issueresolution_controller.go:352-393 | in every run, before the step that creates the Job of attempt a + 1 a step saw the Job of attempt a failed, or succeeded without a readable pull request URL, and before that a step created it |
| ClusterSafety.GateHolds | internal/controller/issueresolution_controller.go:225-299 | before every step that creates a fix Job, a step read the resource as pending and approved, and before that a step read a trusted triage result in scope and not suspicious, vouched for with its comment and labels, for a text that passed the prefilter |
| ClusterSafety.PrefilterHolds | cmd/triage/main.go:76-90 | if every step that creates a triage Job for a resource does so with a text that trips the prefilter, no step creates a fix Job for it, for every model output and every run |
| Reachability.PrefilterIff | cmd/triage/main.go:76-90 | from a title and body, some run creates a fix Job exactly when they pass the prefilter |
| Reachability.FirstCreation | internal/controller/issueresolution_controller.go:112-347 | for every approved issue whose text passes the prefilter there is a run from the empty cluster, without lost patches or stale reads, whose next call creates its first fix Job |
| ClusterSafety.DecisionIsVouched | internal/controller/issueresolution_controller.go:214-258 | a resource entering PendingValidation or Rejected has a comment URL, and its pod left exactly the matching one of the two labels |
| FreshRuns.FreshRunCoherent | internal/controller/issueresolution_controller.go:197-403 | for a resource that is read fresh, phase, conditions and pull request URL agree in every state |
| FreshRuns.EachAttemptOnce | internal/controller/issueresolution_controller.go:307-347 | for a resource that is read fresh and loses no patch behind the creation of a fix Job, the fix Jobs are created in the order 1..k, and the recorded Job name and branch are those of the attempt |
| FreshRuns.CreatedOnce | internal/controller/issueresolution_controller.go:321-347 | no two steps of such a run create the same attempt |
| FreshRuns.ReadyTally | internal/controller/issueresolution_controller.go:321-346 | in Ready the next attempt has no Job, so it is created |
| Progress.StagesBounded | internal/controller/issueresolution_controller.go:387-404 | a resource changes phase or attempt at most 2M + 3 times, M the largest limit ever in force |
| Progress.ReconcileDecreases | internal/controller/issueresolution_controller.go:133-148 | every change of phase or attempt decreases the measure |
| Progress.TerminalForGood | internal/controller/issueresolution_controller.go:138-143 | the status of a resource in PROpen, Rejected or Failed never changes again |
| Endings.PullRequestWasRead | internal/controller/issueresolution_controller.go:352-370 | a resource in PROpen records a pull request that a call read from the Job of the recorded attempt |
| Endings.LimitWasUsedUp | internal/controller/issueresolution_controller.go:387-404 | a resource that was Ready or Executing and fails has used up the attempts allowed by the version that was read then |
| Endings.FailureWasSeen | internal/controller/issueresolution_controller.go:194-404 | every failure was seen by a call: the attempts were used up, or triage brought no result |
| Progress.NoLostWakeUp | internal/controller/issueresolution_controller.go:162-404 | no further call is asked for exactly when the work is over or the recorded fix Job has disappeared |
| DeadEnds.StuckForGood | internal/controller/issueresolution_controller.go:321-325 | an Executing resource that is read fresh and whose recorded Job is gone keeps its status for good, whatever happens |
| DeadEnds.FinishesIff | internal/controller/issueresolution_controller.go:112-404 | from any other state of a run that reads it fresh some continuation finishes the resource, and from this one none |
| Progress.ProgressIffDue | internal/controller/issueresolution_controller.go:162-404 | a call that does not fail changes the stage exactly when a Job has finished, approval is there, or the phase is new or Ready |
| Progress.RoundsEnough | internal/controller/issueresolution_controller.go:112-404 | divide a run into rounds, in each of which the resource is finished or some call serves what it waits for: after as many rounds as its measure, at most 2M + 3, it is in PROpen, Rejected or Failed |
| Progress.InScopeEnds | internal/controller/issueresolution_controller.go:162-404 | if moreover every triage result that is read is in scope and not suspicious, it is in PROpen or Failed, after at most M attempts |
| Repeats.CreatesIff | internal/controller/issueresolution_controller.go:321-325 | a fix Job is created exactly when its name is free and the phase is Ready or no Job name is recorded |
| Repeats.LostCreationRepeats | internal/controller/issueresolution_controller.go:321-347 | from every state in which a call creates a fix Job: when its patch is lost, and the Job ends and expires, the next call creates the same attempt again, all reads being fresh |
| Repeats.StaleReadRepeats | internal/controller/issueresolution_controller.go:115-126 | from every such state: when the Job ends and expires, a call that reads the version from before the creation creates the same attempt again, no patch being lost |
| Repeats.RepeatHasCause | internal/controller/issueresolution_controller.go:307-347 | in every run in which two steps create the same attempt of a resource, the patch behind a creation was lost or a call for the resource read a version that was not the stored one |
| Repeats.RepeatsIffLost | internal/controller/issueresolution_controller.go:321-347 | for a resource that is read fresh, in a run without such a loss that is about to create a fix Job: some continuation with fresh reads and without further losses creates an attempt twice exactly when the patch behind this creation is lost |
| Reachability.LostPatchRun | internal/controller/issueresolution_controller.go:321-347 | for every approved issue that passes the prefilter, a run from the empty cluster with fresh reads creates an attempt twice |
| Reachability.StaleReadRun | internal/controller/issueresolution_controller.go:115-126 | and so does one that loses no patch behind a creation |

## Left out

- Job and pod specifications (environment, security context, volumes, owner references, back-off, deadlines): constants without state; a Job keeps its name, role, resource, attempt, branch and, for triage, title and body.
- Time: a finished Job may expire at any moment and requeue delays are only values; that a Job lives for an hour after it finishes is not used.
- The status message, the triage summary and model texts, and observedGeneration: written and never read by the controller.
- Deleting a resource and creating one of the same name, and more than one namespace: names stand for one namespace.
- Stale reads of Jobs and pods; reads of resources may be stale. A stale miss of an existing Job only makes its creation fail.
- Progress.RoundsEnough: the rounds are given; that the API server, the cache and the scheduler make the calls is not modelled.
- Labels changed by people on GitHub, and two triage pods running at once: the labels in Cluster are those the believed pod left when it ended.
- NFKC, lower-casing, the shell pattern, the list of phrases, JSON decoding with the cutting out of a JSON object: parameters; what is proved holds for every choice.
- Matching of invalid UTF-8 and the byte lengths behind kubelet's limit on messages: a message may arrive garbled.
- The model call, cloning, testing, committing, pushing and opening the pull request in cmd/fix: their outcome is the fix Job's result.
- Checking that the rewritten file is valid Go: a library.
- Formatting of comments and findings, label colours, manifests, charts and manager start-up: no state.
