// scanSuspicious of cmd/triage/scan.go: the deterministic detectors that keep
// an issue from the model.
module Prefilter {
  import opened Text

  datatype Phrase = Phrase(rule: string, sub: string)
  datatype Finding = Finding(rule: string, detail: string)

  // What the scan takes from libraries and tables: compatibility
  // normalisation, lower-casing, the shell pattern and the list of phrases.
  datatype Detector = Detector(nfkc: string -> string, lower: string -> string, shellExfil: string -> bool, phrases: seq<Phrase>)

  // ---- normalisation ----

  predicate Invisible(c: char) {
    c == '\U{200B}' || c == '\U{200C}' || c == '\U{200D}' || c == '\U{2060}' || c == '\U{FEFF}'
  }

  lemma InvisibleByCode(c: char)
    ensures Invisible(c) <==> c as int in {0x200B, 0x200C, 0x200D, 0x2060, 0xFEFF}
  {
  }

  function StripInvisible(s: string): string {
    if s == [] then [] else (if Invisible(s[0]) then [] else [s[0]]) + StripInvisible(s[1..])
  }

  function NormalizeForMatch(s: string, d: Detector): string { d.lower(d.nfkc(StripInvisible(s))) }

  predicate HasInvisible(s: string) { exists i :: 0 <= i < |s| && Invisible(s[i]) }

  // ---- the findings, declaratively ----

  function PhraseFinding(p: Phrase): Finding { Finding(p.rule, "matched \"" + p.sub + "\"") }

  ghost function PhraseHits(normalized: string, phrases: seq<Phrase>): seq<Finding> {
    if phrases == [] then []
    else (if Contains(normalized, phrases[0].sub) then [PhraseFinding(phrases[0])] else []) +
         PhraseHits(normalized, phrases[1..])
  }

  const ZERO_WIDTH := Finding("zero_width", "zero-width / invisible Unicode characters")
  const SHELL_EXFIL := Finding("shell_exfil", "curl/wget referencing env or secret-like variables")

  // Every detector that fires, in the order of the scan.
  ghost function Hits(text: string, d: Detector): seq<Finding> {
    var normalized := NormalizeForMatch(text, d);
    (if HasInvisible(text) then [ZERO_WIDTH] else []) +
    (if d.shellExfil(text) || d.shellExfil(normalized) then [SHELL_EXFIL] else []) +
    PhraseHits(normalized, d.phrases)
  }

  function Key(f: Finding): string { f.rule + "|" + f.detail }

  // The hits without those whose key came before.
  function Collect(found: seq<Finding>, hits: seq<Finding>): seq<Finding>
    decreases |hits|
  {
    if hits == [] then found
    else if exists f :: f in found && Key(f) == Key(hits[0]) then Collect(found, hits[1..])
    else Collect(found + [hits[0]], hits[1..])
  }

  ghost function Findings(title: string, body: string, d: Detector): seq<Finding> {
    Collect([], Hits(title + "\n" + body, d))
  }

  ghost predicate Suspicious(title: string, body: string, d: Detector) {
    Hits(title + "\n" + body, d) != []
  }

  // ---- the scan ----

  // The findings so far and the keys that were seen.
  class Scan {
    var findings: seq<Finding>
    var seen: set<string>

    ghost predicate Valid()
      reads this
    {
      seen == set f | f in findings :: Key(f)
    }

    constructor ()
      ensures Valid() && findings == []
    {
      findings, seen := [], {};
    }

    method Add(f: Finding)
      requires Valid()
      modifies this
      ensures Valid() && findings == Collect(old(findings), [f])
    {
      if Key(f) in seen { return; }
      seen := seen + {Key(f)};
      findings := findings + [f];
    }
  }

  lemma {:induction false} CollectConcat(found: seq<Finding>, a: seq<Finding>, b: seq<Finding>)
    ensures Collect(found, a + b) == Collect(Collect(found, a), b)
    decreases |a|
  {
    if a == [] {
      assert a + b == b;
    } else {
      assert (a + b)[1..] == a[1..] + b;
      if exists f :: f in found && Key(f) == Key(a[0]) {
        CollectConcat(found, a[1..], b);
      } else {
        CollectConcat(found + [a[0]], a[1..], b);
      }
    }
  }

  method HasInvisibleRune(s: string) returns (r: bool)
    ensures r == HasInvisible(s)
  {
    for i := 0 to |s|
      invariant forall k :: 0 <= k < i ==> !Invisible(s[k])
    {
      if Invisible(s[i]) { return true; }
    }
    return false;
  }

  // One detector in front of others: it is added when it fires.
  lemma CollectNext(found: seq<Finding>, fires: bool, f: Finding, later: seq<Finding>)
    ensures Collect(found, (if fires then [f] else []) + later) == Collect(if fires then Collect(found, [f]) else found, later)
  {
    if fires {
      CollectConcat(found, [f], later);
    } else {
      assert [] + later == later;
    }
  }

  lemma NextPhrase(normalized: string, phrases: seq<Phrase>, i: nat)
    requires i < |phrases|
    ensures PhraseHits(normalized, phrases[i..]) ==
      (if Contains(normalized, phrases[i].sub) then [PhraseFinding(phrases[i])] else []) +
      PhraseHits(normalized, phrases[i + 1..])
  {
    assert phrases[i..][1..] == phrases[i + 1..];
  }

  lemma HitsApart(zero: seq<Finding>, shell: seq<Finding>, later: seq<Finding>)
    ensures zero + shell + later == zero + (shell + later)
  {
  }

  method ScanSuspicious(title: string, body: string, d: Detector) returns (findings: seq<Finding>)
    ensures findings == Findings(title, body, d)
  {
    hide Collect;
    hide PhraseHits;
    var text := title + "\n" + body;
    var normalized := NormalizeForMatch(text, d);
    var shell := d.shellExfil(text) || d.shellExfil(normalized);
    var invisible := HasInvisibleRune(text);
    ghost var phrases := PhraseHits(normalized, d.phrases);
    HitsApart(if invisible then [ZERO_WIDTH] else [], if shell then [SHELL_EXFIL] else [], phrases);
    var scan := new Scan();
    CollectNext([], invisible, ZERO_WIDTH, (if shell then [SHELL_EXFIL] else []) + phrases);
    if invisible { scan.Add(ZERO_WIDTH); }
    CollectNext(scan.findings, shell, SHELL_EXFIL, phrases);
    if shell { scan.Add(SHELL_EXFIL); }
    assert d.phrases[0..] == d.phrases;
    for i := 0 to |d.phrases|
      invariant scan.Valid() && fresh(scan)
      invariant Collect(scan.findings, PhraseHits(normalized, d.phrases[i..])) == Findings(title, body, d)
    {
      var p := d.phrases[i];
      NextPhrase(normalized, d.phrases, i);
      var at := FindFirst(normalized, p.sub);
      IndexIsFirst(normalized, p.sub);
      CollectNext(scan.findings, at >= 0, PhraseFinding(p), PhraseHits(normalized, d.phrases[i + 1..]));
      if at >= 0 { scan.Add(PhraseFinding(p)); }
    }
    findings := scan.findings;
    NothingLeft(findings, normalized, d.phrases);
  }

  lemma NothingLeft(found: seq<Finding>, normalized: string, phrases: seq<Phrase>)
    ensures Collect(found, PhraseHits(normalized, phrases[|phrases|..])) == found
  {
  }

  // ---- laws ----

  lemma {:induction false} CollectKeeps(found: seq<Finding>, hits: seq<Finding>)
    ensures found <= Collect(found, hits)
    ensures forall h :: h in hits ==> exists f :: f in Collect(found, hits) && Key(f) == Key(h)
    ensures forall f :: f in Collect(found, hits) ==> f in found || f in hits
    decreases |hits|
  {
    if hits != [] {
      var h := hits[0];
      if f :| f in found && Key(f) == Key(h) {
        CollectKeeps(found, hits[1..]);
        assert f in Collect(found, hits);
      } else {
        CollectKeeps(found + [h], hits[1..]);
        assert h in found + [h];
        assert h in Collect(found, hits);
      }
    }
  }

  // There are findings exactly when an invisible character, the shell pattern
  // on the text or its normal form, or a phrase in the normal form (stripped,
  // then compatibility-normalised, then in lower case) is there.
  lemma FindingsIff(title: string, body: string, d: Detector)
    ensures var text := title + "\n" + body;
      var normal := d.lower(d.nfkc(StripInvisible(text)));
      Findings(title, body, d) != [] <==>
        (exists i :: 0 <= i < |text| && Invisible(text[i])) || d.shellExfil(text) || d.shellExfil(normal) ||
        exists p :: p in d.phrases && Contains(normal, p.sub)
  {
    var text := title + "\n" + body;
    var normal := d.lower(d.nfkc(StripInvisible(text)));
    FindingsIffSuspicious(title, body, d);
    if p :| p in d.phrases && Contains(normal, p.sub) { PhraseHitsIff(normal, d.phrases, PhraseFinding(p)); }
    var hits := PhraseHits(normal, d.phrases);
    if hits != [] {
      assert hits[0] in hits;
      PhraseHitsIff(normal, d.phrases, hits[0]);
    }
  }

  // Each finding is one of a detector that fires, and each detector that fires
  // has one; no two of them have the same rule and detail.
  ghost predicate Fires(text: string, normal: string, d: Detector, rule: string, detail: string) {
    (rule == "zero_width" && detail == ZERO_WIDTH.detail && exists i :: 0 <= i < |text| && Invisible(text[i])) ||
    (rule == "shell_exfil" && detail == SHELL_EXFIL.detail && (d.shellExfil(text) || d.shellExfil(normal))) ||
    exists p :: p in d.phrases && p.rule == rule && "matched \"" + p.sub + "\"" == detail && Contains(normal, p.sub)
  }

  lemma FindingsExactly(title: string, body: string, d: Detector, rule: string, detail: string)
    ensures var text := title + "\n" + body;
      var normal, all := d.lower(d.nfkc(StripInvisible(text))), Findings(title, body, d);
      (Finding(rule, detail) in all ==> Fires(text, normal, d, rule, detail)) &&
      (Fires(text, normal, d, rule, detail) ==> exists f :: f in all && f.rule + "|" + f.detail == rule + "|" + detail) &&
      forall i, j :: 0 <= i < j < |all| ==> all[i].rule + "|" + all[i].detail != all[j].rule + "|" + all[j].detail
  {
    var text := title + "\n" + body;
    var normal, f := d.lower(d.nfkc(StripInvisible(text))), Finding(rule, detail);
    PhraseHitsIff(normal, d.phrases, f);
    if p :| p in d.phrases && f == PhraseFinding(p) && Contains(normal, p.sub) {
      assert p.rule == rule;
    }
    if p :| p in d.phrases && p.rule == rule && "matched \"" + p.sub + "\"" == detail && Contains(normal, p.sub) {
      assert f == PhraseFinding(p);
    }
    HitsAre(text, normal, d, f);
    CollectKeeps([], Hits(text, d));
    CollectDistinct([], Hits(text, d));
    KeysDiffer(Findings(title, body, d));
    if Fires(text, normal, d, rule, detail) {
      var g :| g in Findings(title, body, d) && Key(g) == Key(f);
      assert g.rule + "|" + g.detail == rule + "|" + detail;
    }
  }

  lemma HitsAre(text: string, normal: string, d: Detector, f: Finding)
    requires normal == d.lower(d.nfkc(StripInvisible(text)))
    ensures f in Hits(text, d) <==>
      (f == ZERO_WIDTH && HasInvisible(text)) || (f == SHELL_EXFIL && (d.shellExfil(text) || d.shellExfil(normal))) ||
      f in PhraseHits(normal, d.phrases)
  {
  }

  ghost predicate DistinctKeys(found: seq<Finding>) {
    forall i, j :: 0 <= i < j < |found| ==> Key(found[i]) != Key(found[j])
  }

  lemma {:induction false} CollectDistinct(found: seq<Finding>, hits: seq<Finding>)
    requires DistinctKeys(found)
    ensures DistinctKeys(Collect(found, hits))
    decreases |hits|
  {
    hide Key;
    if hits != [] {
      if exists f :: f in found && Key(f) == Key(hits[0]) {
        CollectDistinct(found, hits[1..]);
      } else {
        assert forall i :: 0 <= i < |found| ==> found[i] in found;
        CollectDistinct(found + [hits[0]], hits[1..]);
      }
    }
  }

  lemma KeysDiffer(found: seq<Finding>)
    requires DistinctKeys(found)
    ensures forall i, j :: 0 <= i < j < |found| ==> found[i].rule + "|" + found[i].detail != found[j].rule + "|" + found[j].detail
  {
    forall i, j | 0 <= i < j < |found|
      ensures found[i].rule + "|" + found[i].detail != found[j].rule + "|" + found[j].detail
    {
      assert Key(found[i]) != Key(found[j]);
    }
  }

  lemma {:induction false} CollectInOrder(found: seq<Finding>, hits: seq<Finding>) returns (at: seq<int>)
    ensures |Collect(found, hits)| == |found| + |at| && found <= Collect(found, hits)
    ensures forall k :: 0 <= k < |at| ==> 0 <= at[k] < |hits| && Collect(found, hits)[|found| + k] == hits[at[k]]
    ensures forall k, m :: 0 <= k < m < |at| ==> at[k] < at[m]
    decreases |hits|
  {
    hide Key;
    if hits == [] {
      at := [];
    } else if exists f :: f in found && Key(f) == Key(hits[0]) {
      var rest := CollectInOrder(found, hits[1..]);
      at := seq(|rest|, k requires 0 <= k < |rest| => rest[k] + 1);
    } else {
      var more := found + [hits[0]];
      var rest := CollectInOrder(more, hits[1..]);
      at := [0] + seq(|rest|, k requires 0 <= k < |rest| => rest[k] + 1);
      var all := Collect(more, hits[1..]);
      assert all[|found|] == more[|found|] == hits[0];
      forall k | 0 < k < |at| ensures at[k] == rest[k - 1] + 1 && all[|found| + k] == hits[1..][rest[k - 1]] {
        assert all[|more| + (k - 1)] == hits[1..][rest[k - 1]];
      }
    }
  }

  // The detectors in the order of the scan: invisible characters, the shell
  // pattern, then the phrases as they are listed.
  ghost predicate FiresAs(text: string, normal: string, d: Detector, rank: int, f: Finding) {
    if rank == 0 then f == ZERO_WIDTH && HasInvisible(text)
    else if rank == 1 then f == SHELL_EXFIL && (d.shellExfil(text) || d.shellExfil(normal))
    else
      2 <= rank < |d.phrases| + 2 && f == PhraseFinding(d.phrases[rank - 2]) && Contains(normal, d.phrases[rank - 2].sub)
  }

  ghost predicate Ranked(text: string, normal: string, d: Detector, fs: seq<Finding>, ranks: seq<int>, from: int) {
    |ranks| == |fs| && (forall k :: 0 <= k < |fs| ==> from <= ranks[k] && FiresAs(text, normal, d, ranks[k], fs[k])) &&
    forall k, m :: 0 <= k < m < |fs| ==> ranks[k] < ranks[m]
  }

  lemma RankedInFront(text: string, normal: string, d: Detector, fires: bool, f: Finding, fs: seq<Finding>, ranks: seq<int>, rank: int)
      returns (all: seq<int>)
    requires Ranked(text, normal, d, fs, ranks, rank + 1) && (fires ==> FiresAs(text, normal, d, rank, f))
    ensures Ranked(text, normal, d, (if fires then [f] else []) + fs, all, rank)
  {
    hide FiresAs;
    all := if fires then [rank] + ranks else ranks;
    var gs := (if fires then [f] else []) + fs;
    if fires {
      forall k | 0 < k < |gs| ensures gs[k] == fs[k - 1] && all[k] == ranks[k - 1] {}
    } else {
      assert gs == fs;
    }
  }

  lemma {:induction false} PhrasesRanked(text: string, normal: string, d: Detector, i: nat) returns (ranks: seq<int>)
    requires i <= |d.phrases|
    ensures Ranked(text, normal, d, PhraseHits(normal, d.phrases[i..]), ranks, i + 2)
    decreases |d.phrases| - i
  {
    hide Contains;
    if i == |d.phrases| {
      ranks := [];
    } else {
      var p := d.phrases[i];
      ranks := PhrasesRanked(text, normal, d, i + 1);
      NextPhrase(normal, d.phrases, i);
      ranks := RankedInFront(
        text, normal, d, Contains(normal, p.sub), PhraseFinding(p), PhraseHits(normal, d.phrases[i + 1..]), ranks, i + 2);
    }
  }

  lemma HitsRanked(text: string, d: Detector) returns (ranks: seq<int>)
    ensures Ranked(text, d.lower(d.nfkc(StripInvisible(text))), d, Hits(text, d), ranks, 0)
  {
    var normal := d.lower(d.nfkc(StripInvisible(text)));
    var shell, invisible := d.shellExfil(text) || d.shellExfil(normal), HasInvisible(text);
    ranks := PhrasesRanked(text, normal, d, 0);
    assert d.phrases[0..] == d.phrases;
    var phrases := PhraseHits(normal, d.phrases);
    ranks := RankedInFront(text, normal, d, shell, SHELL_EXFIL, phrases, ranks, 1);
    ranks := RankedInFront(text, normal, d, invisible, ZERO_WIDTH, (if shell then [SHELL_EXFIL] else []) + phrases, ranks, 0);
    HitsApart(if invisible then [ZERO_WIDTH] else [], if shell then [SHELL_EXFIL] else [], phrases);
  }

  // The findings come in the order of the scan.
  lemma FindingsInOrder(title: string, body: string, d: Detector) returns (ranks: seq<int>)
    ensures var text := title + "\n" + body;
      Ranked(text, d.lower(d.nfkc(StripInvisible(text))), d, Findings(title, body, d), ranks, 0)
  {
    var text := title + "\n" + body;
    var all := HitsRanked(text, d);
    var at := CollectInOrder([], Hits(text, d));
    hide FiresAs;
    hide Hits;
    hide Collect;
    ranks := seq(|at|, k requires 0 <= k < |at| => if 0 <= at[k] < |all| then all[at[k]] else 0);
    assert |Findings(title, body, d)| == |at|;
    forall k | 0 <= k < |at| ensures Findings(title, body, d)[k] == Hits(text, d)[at[k]] && ranks[k] == all[at[k]] {
      assert Collect([], Hits(text, d))[0 + k] == Hits(text, d)[at[k]];
    }
  }

  // The caller's test for findings is the question whether any detector fires.
  lemma FindingsIffSuspicious(title: string, body: string, d: Detector)
    ensures Findings(title, body, d) != [] <==> Suspicious(title, body, d)
  {
    var hits := Hits(title + "\n" + body, d);
    CollectKeeps([], hits);
    if hits != [] { assert hits[0] in hits; }
  }

  lemma {:induction false} PhraseHitsIff(normalized: string, phrases: seq<Phrase>, f: Finding)
    ensures f in PhraseHits(normalized, phrases) <==>
      exists p :: p in phrases && f == PhraseFinding(p) && Contains(normalized, p.sub)
  {
    if phrases != [] {
      PhraseHitsIff(normalized, phrases[1..], f);
      assert phrases == [phrases[0]] + phrases[1..];
    }
  }

  lemma {:induction false} StripConcat(a: string, b: string)
    ensures StripInvisible(a + b) == StripInvisible(a) + StripInvisible(b)
  {
    if a == [] {
      assert a + b == b;
    } else {
      assert (a + b)[1..] == a[1..] + b;
      StripConcat(a[1..], b);
    }
  }

  lemma {:induction false} AllStripped(w: string)
    requires forall i :: 0 <= i < |w| ==> Invisible(w[i])
    ensures StripInvisible(w) == ""
  {
    if w != [] { AllStripped(w[1..]); }
  }

  // Invisible characters hide nothing, wherever they are put: they are a
  // finding themselves, and whatever was found before is still found, except
  // that the shell pattern may no longer match the text as it is written.
  lemma InvisibleHidesNothing(a: string, w: string, b: string, d: Detector, f: Finding)
    requires w != "" && forall i :: 0 <= i < |w| ==> Invisible(w[i])
    ensures ZERO_WIDTH in Hits(a + w + b, d)
    ensures f in Hits(a + b, d) ==>
      f in Hits(a + w + b, d) ||
      (f == SHELL_EXFIL && d.shellExfil(a + b) && !d.shellExfil(NormalizeForMatch(a + b, d)))
  {
    var s := a + w + b;
    assert s[|a|] == w[0];
    assert HasInvisible(s);
    StripConcat(a + w, b);
    StripConcat(a, w);
    StripConcat(a, b);
    AllStripped(w);
    assert StripInvisible(a) + "" == StripInvisible(a);
    assert NormalizeForMatch(s, d) == NormalizeForMatch(a + b, d);
  }
}
