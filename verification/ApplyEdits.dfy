// applyEdits of cmd/fix/main.go: the edits rewrite the file one after another,
// each at the only place where its old text is found.
module ApplyEdits {
  import opened Text
  import opened EditScript

  datatype Rewrite = Done(text: string) | NotFound(index: nat) | Ambiguous(index: nat, matches: nat) | NoChange

  // ---- counting and replacing, as the strings library does ----

  // Non-overlapping occurrences, counted from the left. The empty text is
  // found once in front of every character and once at the end.
  ghost function Matches(s: string, w: string): nat
    decreases |s|
  {
    IndexIsFirst(s, w);
    if w == "" then |s| + 1
    else if Index(s, w) < 0 then 0
    else 1 + Matches(s[Index(s, w) + |w|..], w)
  }

  method CountMatches(s: string, w: string) returns (n: nat)
    ensures n == Matches(s, w)
  {
    if w == "" { return |s| + 1; }
    n := 0;
    var rest := s;
    while true
      invariant n + Matches(rest, w) == Matches(s, w)
      decreases |rest|
    {
      var i := FindFirst(rest, w);
      if i < 0 { return; }
      n := n + 1;
      rest := rest[i + |w|..];
    }
  }

  ghost function Replaced(s: string, e: Edit): string {
    IndexIsFirst(s, e.oldText);
    var i := Index(s, e.oldText);
    if i < 0 then s else s[..i] + e.newText + s[i + |e.oldText|..]
  }

  method ReplaceOnce(s: string, e: Edit) returns (t: string)
    ensures t == Replaced(s, e)
  {
    var i := FindFirst(s, e.oldText);
    t := if i < 0 then s else s[..i] + e.newText + s[i + |e.oldText|..];
  }

  // ---- the loop ----

  // The edits from `from` on, applied to `text`.
  ghost function Rewritten(text: string, edits: seq<Edit>, from: nat): (r: Rewrite)
    requires from <= |edits|
    ensures r.NotFound? || r.Ambiguous? ==> from <= r.index < |edits|
    decreases |edits| - from
  {
    if from == |edits| then Done(text)
    else
      var n := Matches(text, edits[from].oldText);
      if n == 0 then NotFound(from)
      else if n > 1 then Ambiguous(from, n)
      else Rewritten(Replaced(text, edits[from]), edits, from + 1)
  }

  ghost function Applied(content: string, edits: seq<Edit>): Rewrite {
    match Rewritten(content, edits, 0)
    case Done(text) => if text == content then NoChange else Done(text)
    case other => other
  }

  method Apply(content: string, edits: seq<Edit>) returns (r: Rewrite)
    ensures r == Applied(content, edits)
  {
    var out := content;
    for i := 0 to |edits|
      invariant Rewritten(content, edits, 0) == Rewritten(out, edits, i)
    {
      var e := edits[i];
      var n := CountMatches(out, e.oldText);
      if n == 0 { return NotFound(i); }
      if n > 1 { return Ambiguous(i, n); }
      out := ReplaceOnce(out, e);
    }
    if out == content { return NoChange; }
    return Done(out);
  }

  // ---- what one step is ----

  // w starts at i, nowhere before, and nowhere behind its end at i.
  ghost predicate Sole(s: string, w: string, i: int) {
    First(s, w, i) && forall k :: i + |w| <= k && k != i ==> !At(s, k, w)
  }

  // b is a with its sole occurrence of the old text exchanged.
  ghost predicate Splice(a: string, e: Edit, b: string) {
    exists i :: SpliceAt(a, e, b, i)
  }

  ghost predicate SpliceAt(a: string, e: Edit, b: string, i: int) {
    Sole(a, e.oldText, i) && b == a[..i] + e.newText + a[i + |e.oldText|..]
  }

  lemma AtSuffix(s: string, j: int, k: int, w: string)
    requires 0 <= j <= |s|
    ensures At(s[j..], k, w) <==> 0 <= k && At(s, j + k, w)
  {
    AtSlice(s, j, |s|, k, w);
    assert s[j..|s|] == s[j..];
  }

  lemma EmptyMatchesOnceIff(s: string)
    ensures Matches(s, "") == 1 <==> exists i :: Sole(s, "", i)
  {
    assert At(s, 0, "");
    if s == "" {
      assert Sole(s, "", 0);
    } else {
      assert At(s, 1, "");
    }
  }

  lemma SoleIff(s: string, w: string, i: nat)
    requires w != "" && First(s, w, i)
    ensures Sole(s, w, i) <==> !Contains(s[i + |w|..], w)
  {
    var j := i + |w|;
    if Contains(s[j..], w) {
      var k :| At(s[j..], k, w);
      AtSuffix(s, j, k, w);
    }
    if k :| j <= k && At(s, k, w) {
      AtSuffix(s, j, k - j, w);
    }
  }

  // A count of one means: no second occurrence behind the first one. It may
  // still overlap the first.
  lemma MatchesOnceIff(s: string, w: string)
    ensures Matches(s, w) == 1 <==> exists i :: Sole(s, w, i)
  {
    if w == "" {
      EmptyMatchesOnceIff(s);
      return;
    }
    IndexIsFirst(s, w);
    var i := Index(s, w);
    if i >= 0 {
      SoleIff(s, w, i);
      IndexIsFirst(s[i + |w|..], w);
      if j :| Sole(s, w, j) {
        assert j == i;
      }
    }
  }

  lemma StepIsSplice(a: string, e: Edit, b: string)
    ensures Matches(a, e.oldText) == 1 && b == Replaced(a, e) <==> Splice(a, e, b)
  {
    MatchesOnceIff(a, e.oldText);
    IndexIsFirst(a, e.oldText);
    var i := Index(a, e.oldText);
    if j :| Sole(a, e.oldText, j) {
      assert j == i;
      if b == Replaced(a, e) { assert SpliceAt(a, e, b, i); }
    }
  }

  // ---- what a run is ----

  // texts[k] is the text after k edits.
  ghost predicate Chain(texts: seq<string>, edits: seq<Edit>, from: nat) {
    from <= |edits| && |texts| == |edits| - from + 1 &&
    forall k :: 0 <= k < |edits| - from ==> Splice(texts[k], edits[from + k], texts[k + 1])
  }

  lemma {:induction false} RunIsChain(text: string, edits: seq<Edit>, from: nat) returns (texts: seq<string>)
    requires from <= |edits| && Rewritten(text, edits, from).Done?
    ensures Chain(texts, edits, from) && texts[0] == text && texts[|texts| - 1] == Rewritten(text, edits, from).text
    decreases |edits| - from
  {
    if from == |edits| { return [text]; }
    var next := Replaced(text, edits[from]);
    StepIsSplice(text, edits[from], next);
    var rest := RunIsChain(next, edits, from + 1);
    texts := [text] + rest;
    ChainCons(text, rest, edits, from);
  }

  lemma ChainCons(text: string, rest: seq<string>, edits: seq<Edit>, from: nat)
    requires from < |edits| && Chain(rest, edits, from + 1) && Splice(text, edits[from], rest[0])
    ensures Chain([text] + rest, edits, from)
  {
    hide Splice;
    var texts := [text] + rest;
    forall k | 0 <= k < |edits| - from ensures Splice(texts[k], edits[from + k], texts[k + 1]) {
      if k > 0 { assert Splice(rest[k - 1], edits[from + 1 + (k - 1)], rest[k - 1 + 1]); }
    }
  }

  lemma {:induction false} ChainRuns(texts: seq<string>, edits: seq<Edit>, from: nat)
    requires Chain(texts, edits, from)
    ensures Rewritten(texts[0], edits, from) == Done(texts[|texts| - 1])
    decreases |edits| - from
  {
    if from < |edits| {
      assert Splice(texts[0], edits[from + 0], texts[1]);
      StepIsSplice(texts[0], edits[from], texts[1]);
      forall k | 0 <= k < |edits| - (from + 1) ensures Splice(texts[1..][k], edits[from + 1 + k], texts[1..][k + 1]) {
        assert Splice(texts[k + 1], edits[from + (k + 1)], texts[k + 1 + 1]);
      }
      ChainRuns(texts[1..], edits, from + 1);
    }
  }

  // The edits apply, with this result, exactly when there is a chain of
  // splices from the file to it and the end differs from the start.
  lemma AppliesIff(content: string, edits: seq<Edit>, result: string)
    ensures Applied(content, edits) == Done(result) <==>
      result != content &&
      exists texts :: Chain(texts, edits, 0) && texts[0] == content && texts[|texts| - 1] == result
  {
    if Rewritten(content, edits, 0).Done? {
      var texts := RunIsChain(content, edits, 0);
    }
    if texts :| Chain(texts, edits, 0) && texts[0] == content && texts[|texts| - 1] == result {
      ChainRuns(texts, edits, 0);
    }
  }

  // It fails at edit i exactly when the edits in front of it apply and its old
  // text is then missing or found twice side by side.
  lemma {:induction false} FailsIff(text: string, edits: seq<Edit>, from: nat, i: nat)
    requires from <= i < |edits|
    ensures (Rewritten(text, edits, from) == NotFound(i) ||
             (Rewritten(text, edits, from).Ambiguous? && Rewritten(text, edits, from).index == i)) <==>
      Rewritten(text, edits[..i], from).Done? && !exists b :: Splice(Rewritten(text, edits[..i], from).text, edits[i], b)
    decreases i - from
  {
    if from == i {
      StepIsSplice(text, edits[i], Replaced(text, edits[i]));
      forall b ensures Splice(text, edits[i], b) ==> Matches(text, edits[i].oldText) == 1 {
        StepIsSplice(text, edits[i], b);
      }
    } else {
      FailsIff(Replaced(text, edits[from]), edits, from + 1, i);
    }
  }

  // Which of the two it is: the old text is not there at all, or there are
  // this many occurrences side by side.
  lemma {:induction false} FailsHow(text: string, edits: seq<Edit>, from: nat, i: nat)
    requires from <= i < |edits|
    ensures Rewritten(text, edits, from) == NotFound(i) <==>
      Rewritten(text, edits[..i], from).Done? && !Contains(Rewritten(text, edits[..i], from).text, edits[i].oldText)
    ensures forall n :: Rewritten(text, edits, from) == Ambiguous(i, n) <==>
      Rewritten(text, edits[..i], from).Done? && n == Matches(Rewritten(text, edits[..i], from).text, edits[i].oldText) > 1
    decreases i - from
  {
    if from == i {
      NoMatchIff(text, edits[i].oldText);
    } else {
      FailsHow(Replaced(text, edits[from]), edits, from + 1, i);
    }
  }

  lemma NoMatchIff(s: string, w: string)
    ensures Matches(s, w) == 0 <==> !Contains(s, w)
  {
    IndexIsFirst(s, w);
    if w == "" { assert At(s, 0, w); }
  }

  // The edits change nothing exactly when a chain of splices leads back to the
  // file; every other failure is that of the run.
  lemma NoChangeIff(content: string, edits: seq<Edit>)
    ensures Applied(content, edits) == NoChange <==>
      exists texts :: Chain(texts, edits, 0) && texts[0] == content && texts[|texts| - 1] == content
    ensures !Rewritten(content, edits, 0).Done? && !Rewritten(content, edits, 0).NoChange? ==>
      Applied(content, edits) == Rewritten(content, edits, 0)
  {
    NeverNoChange(content, edits, 0);
    if Rewritten(content, edits, 0).Done? {
      var texts := RunIsChain(content, edits, 0);
    }
    if texts :| Chain(texts, edits, 0) && texts[0] == content && texts[|texts| - 1] == content {
      ChainRuns(texts, edits, 0);
    }
  }

  lemma {:induction false} NeverNoChange(text: string, edits: seq<Edit>, from: nat)
    requires from <= |edits|
    ensures !Rewritten(text, edits, from).NoChange?
    decreases |edits| - from
  {
    if from < |edits| { NeverNoChange(Replaced(text, edits[from]), edits, from + 1); }
  }

  // ---- what is counted ----

  // Occurrences from `from` on, each the first one behind the end of the one
  // before, and none behind the last.
  ghost predicate SideBySide(s: string, w: string, from: int, at: seq<int>)
    decreases |at|
  {
    if at == [] then forall k :: from <= k ==> !At(s, k, w)
    else
      from <= at[0] && At(s, at[0], w) && (forall k :: from <= k < at[0] ==> !At(s, k, w)) &&
      SideBySide(s, w, at[0] + |w|, at[1..])
  }

  lemma {:induction false} CountsSideBySide(s: string, w: string, from: nat) returns (at: seq<int>)
    requires w != "" && from <= |s|
    ensures SideBySide(s, w, from, at) && |at| == Matches(s[from..], w)
    decreases |s| - from
  {
    var t := s[from..];
    IndexIsFirst(t, w);
    var i := Index(t, w);
    forall k | from <= k ensures At(s, k, w) <==> At(t, k - from, w) { AtSuffix(s, from, k - from, w); }
    if i < 0 {
      at := [];
    } else {
      var rest := CountsSideBySide(s, w, from + i + |w|);
      assert t[i + |w|..] == s[from + i + |w|..];
      at := [from + i] + rest;
      assert at[1..] == rest;
    }
  }

  // ---- lengths ----

  function Growth(edits: seq<Edit>, from: nat): int
    requires from <= |edits|
    decreases |edits| - from
  {
    if from == |edits| then 0
    else |edits[from].newText| - |edits[from].oldText| + Growth(edits, from + 1)
  }

  lemma {:induction false} LengthOfRun(text: string, edits: seq<Edit>, from: nat)
    requires from <= |edits| && Rewritten(text, edits, from).Done?
    ensures |Rewritten(text, edits, from).text| == |text| + Growth(edits, from)
    decreases |edits| - from
  {
    if from < |edits| {
      StepIsSplice(text, edits[from], Replaced(text, edits[from]));
      LengthOfRun(Replaced(text, edits[from]), edits, from + 1);
    }
  }
}
