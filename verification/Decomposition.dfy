// Redaction, declaratively: a text has exactly one decomposition into maximal
// spans and gaps, and redaction replaces the qualifying ones.
module Decomposition {
  import opened Rewriting
  import opened Base64Scan

  function SpansFrom(s: string, i: nat): (spans: seq<Cut>)
    requires i <= |s|
    ensures Ordered(s, i, spans)
    decreases |s| - i
  {
    if i == |s| then []
    else if !IsBase64(s[i]) then
      var rest := SpansFrom(s, i + 1);
      Skip(s, i, i + 1, rest, "");
      rest
    else
      var e := i + SpanLen(s[i..]);
      [Cut(i, e)] + SpansFrom(s, e)
  }

  function Spans(s: string): seq<Cut> { SpansFrom(s, 0) }

  // The scanner's span starts at i and nothing reaches over its end.
  lemma ScannedSpan(s: string, i: nat)
    requires i < |s| && IsBase64(s[i])
    ensures IsSpan(s, i, i + SpanLen(s[i..]))
    ensures Boundary(s, i + SpanLen(s[i..]))
  {
    var t, e := s[i..], i + SpanLen(s[i..]);
    SpanLenIsSpan(t);
    forall k | i <= k < e ensures !Barrier(s[k]) { assert s[k] == t[k - i]; }
    forall x, y | IsSpan(s, x, y) ensures !(x < e < y) {
      if x < e < y {
        assert IsBase64(t[y - i - 1]);
        forall k | 0 <= k < y - i ensures !Barrier(t[k]) { assert t[k] == s[i + k]; }
        SpanLenIsLongest(t, y - i);
      }
    }
  }

  lemma {:induction false} SpansFromAreMaximal(s: string, i: nat)
    requires i <= |s| && Boundary(s, i)
    ensures forall c :: c in SpansFrom(s, i) ==> Maximal(s, c.start, c.end)
    ensures forall a, b :: i <= a && Maximal(s, a, b) ==> Cut(a, b) in SpansFrom(s, i)
    decreases |s| - i
  {
    if i < |s| {
      if !IsBase64(s[i]) {
        assert Boundary(s, i + 1);
        SpansFromAreMaximal(s, i + 1);
      } else {
        var e := i + SpanLen(s[i..]);
        ScannedSpan(s, i);
        MaximalIffBoundaries(s, i, e);
        SpansFromAreMaximal(s, e);
        forall a, b | i <= a && Maximal(s, a, b) ensures Cut(a, b) in SpansFrom(s, i) {
          MaximalIffBoundaries(s, a, b);
        }
      }
    }
  }

  // Every text has exactly one decomposition into maximal spans.
  lemma DecompositionUnique(s: string, spans: seq<Cut>)
    ensures IsDecomposition(s, spans) <==> spans == Spans(s)
  {
    assert Boundary(s, 0);
    SpansFromAreMaximal(s, 0);
    assert IsDecomposition(s, Spans(s)) by {
      forall a, b | Maximal(s, a, b) ensures Cut(a, b) in Spans(s) { assert 0 <= a by { assert IsSpan(s, a, b); } }
    }
    if IsDecomposition(s, spans) {
      OrderedBounds(s, 0, spans);
      OrderedBounds(s, 0, Spans(s));
      forall c ensures c in spans <==> c in Spans(s) {
        assert c == Cut(c.start, c.end);
      }
      OrderedUnique(s, 0, spans, Spans(s));
    }
  }

  // The members of an ordered list that satisfy the rule, in order.
  function Qualifying(s: string, from: int, spans: seq<Cut>, rule: Rule): (hits: seq<Cut>)
    requires Ordered(s, from, spans)
    ensures Ordered(s, from, hits)
    decreases |spans|
  {
    if spans == [] then []
    else
      var c := spans[0];
      var rest := Qualifying(s, c.end, spans[1..], rule);
      Skip(s, from, c.end, rest, "");
      if rule.qualifies(s[c.start..c.end]) then [c] + rest else rest
  }

  lemma {:induction false} QualifyingMembers(s: string, from: int, spans: seq<Cut>, rule: Rule)
    requires Ordered(s, from, spans)
    ensures forall c :: c in Qualifying(s, from, spans, rule) <==>
      c in spans && 0 <= c.start <= c.end <= |s| && rule.qualifies(s[c.start..c.end])
    decreases |spans|
  {
    if spans != [] {
      var c := spans[0];
      QualifyingMembers(s, c.end, spans[1..], rule);
      assert spans == [c] + spans[1..];
    }
  }

  function HitsFrom(s: string, i: nat, rule: Rule): (hits: seq<Cut>)
    requires i <= |s|
    ensures Ordered(s, i, hits)
  {
    Qualifying(s, i, SpansFrom(s, i), rule)
  }

  lemma HitsAtSpan(s: string, i: nat, e: nat, rule: Rule)
    requires i < |s| && IsBase64(s[i]) && e == i + SpanLen(s[i..])
    ensures HitsFrom(s, i, rule) == (if rule.qualifies(s[i..e]) then [Cut(i, e)] else []) + HitsFrom(s, e, rule)
  {
    assert ([Cut(i, e)] + SpansFrom(s, e))[1..] == SpansFrom(s, e);
  }

  lemma AssembleAtSpan(s: string, i: nat, e: nat, hit: bool, hits: seq<Cut>, mark: string)
    requires i < e <= |s| && Ordered(s, e, hits)
    ensures var all := (if hit then [Cut(i, e)] else []) + hits;
      Ordered(s, i, all) &&
      Assemble(s, i, all, mark) == (if hit then mark else s[i..e]) + Assemble(s, e, hits, mark)
  {
    if hit {
      assert ([Cut(i, e)] + hits)[1..] == hits;
      assert s[i..i] == "";
    } else {
      assert [] + hits == hits;
      Skip(s, i, e, hits, mark);
    }
  }

  // What the scanner returns from i on is the assembly of the qualifying spans.
  lemma {:induction false} RedactFrom(s: string, i: nat, rule: Rule)
    requires i <= |s|
    ensures Redact(s[i..], rule) == Assemble(s, i, HitsFrom(s, i, rule), rule.mark)
    ensures HitCount(s[i..], rule) == |HitsFrom(s, i, rule)|
    decreases |s| - i
  {
    if i == |s| {
    } else if !IsBase64(s[i]) {
      RedactFrom(s, i + 1, rule);
      GapFrom(s, i, rule);
      assert s[i..i + 1] == [s[i]];
      Skip(s, i, i + 1, HitsFrom(s, i + 1, rule), rule.mark);
    } else {
      var e := i + SpanLen(s[i..]);
      RedactFrom(s, e, rule);
      SpanFrom(s, i, e, rule);
      HitsAtSpan(s, i, e, rule);
      AssembleAtSpan(s, i, e, rule.qualifies(s[i..e]), HitsFrom(s, e, rule), rule.mark);
    }
  }

  // The scanner refines the declarative form: whatever decomposition of s one
  // writes down, its qualifying spans and no others are replaced.
  lemma RedactionIsDeclarative(s: string, spans: seq<Cut>, rule: Rule)
    requires IsDecomposition(s, spans)
    ensures var hits := Qualifying(s, 0, spans, rule);
      Redact(s, rule) == Assemble(s, 0, hits, rule.mark) && HitCount(s, rule) == |hits|
  {
    DecompositionUnique(s, spans);
    RedactFrom(s, 0, rule);
    assert s[0..] == s;
  }

  // Kept as it is exactly when no maximal span qualifies.
  lemma KeptIffNothingQualifies(s: string, rule: Rule)
    requires rule.mark != [] && Barrier(rule.mark[0])
    ensures HitCount(s, rule) == 0 <==> forall a, b :: Maximal(s, a, b) ==> !rule.qualifies(s[a..b])
    ensures HitCount(s, rule) == 0 <==> Redact(s, rule) == s
  {
    DecompositionUnique(s, Spans(s));
    var hits := Qualifying(s, 0, Spans(s), rule);
    QualifyingMembers(s, 0, Spans(s), rule);
    RedactionIsDeclarative(s, Spans(s), rule);
    OrderedBounds(s, 0, hits);
    if hits == [] {
      assert s[0..] == s;
      forall a, b | Maximal(s, a, b) ensures !rule.qualifies(s[a..b]) {
        assert Cut(a, b) in Spans(s) && Cut(a, b) !in hits;
      }
    } else {
      var c := hits[0];
      assert c in hits && Maximal(s, c.start, c.end);
      assert Redact(s, rule)[c.start] == rule.mark[0];
    }
  }

  // No + / = anywhere and one letter case only in every maximal span: kept.
  lemma OneCaseTextKept(s: string, rule: Rule)
    requires rule.qualifies == Looks && rule.mark != [] && Barrier(rule.mark[0])
    requires forall i :: 0 <= i < |s| ==> !IsSpecial(s[i])
    requires forall a, b :: Maximal(s, a, b) ==> OneCase(s[a..b])
    ensures Redact(s, rule) == s && HitCount(s, rule) == 0
  {
    forall a, b | Maximal(s, a, b) ensures !Looks(s[a..b]) {
      OneCaseNeverLooks(s[a..b]);
    }
    KeptIffNothingQualifies(s, rule);
  }

  ghost predicate OneCase(span: string) {
    (forall i :: 0 <= i < |span| ==> !IsUpper(span[i])) || (forall i :: 0 <= i < |span| ==> !IsLower(span[i]))
  }

  lemma OneCaseNeverLooks(span: string)
    requires OneCase(span) && forall i :: 0 <= i < |span| ==> !IsSpecial(span[i])
    ensures !Looks(span)
  {
    CountNone(span, IsSpecial);
    if forall i :: 0 <= i < |span| ==> !IsUpper(span[i]) {
      CountNone(span, IsUpper);
    } else {
      CountNone(span, IsLower);
    }
  }

  lemma ShortTextKept(s: string, rule: Rule)
    requires rule.qualifies == Looks && rule.mark != [] && Barrier(rule.mark[0])
    requires |s| < MIN_LEN
    ensures Redact(s, rule) == s && HitCount(s, rule) == 0
  {
    forall a, b | Maximal(s, a, b) ensures !Looks(s[a..b]) {
      assert IsSpan(s, a, b);
      CountBound(s[a..b], IsBase64);
    }
    KeptIffNothingQualifies(s, rule);
  }

  // Lower case prose is not always kept, although the comment on
  // redactBase64Blocks says so: one slash and MIN_LEN letters are enough for
  // the whole run of words to go.
  lemma ProseWithSlashRedacted(prose: string, k: nat, rule: Rule)
    requires rule.qualifies == Looks
    requires prose != [] && IsSpan(prose, 0, |prose|)
    requires forall i :: 0 <= i < |prose| && i != k ==> IsLower(prose[i]) || IsSpace(prose[i])
    requires k < |prose| && prose[k] == '/' && Count(prose, IsBase64) >= MIN_LEN
    ensures Redact(prose, rule) == rule.mark
  {
    CountBound(prose, IsSpecial);
    SpanLenIsLongest(prose, |prose|);
    assert prose[..|prose|] == prose && prose[|prose|..] == "";
  }
}
