// Base64 redaction of cmd/triage/scan.go: the scanner, and the declarative
// segmentation of a text into maximal base64 spans that it computes.
module Base64Scan {
  import opened Text
  import opened Rewriting

  // What is replaced, and by what. Everything below holds of any rule; the
  // one of the program is BASE64.
  datatype Rule = Rule(qualifies: string -> bool, mark: string)

  const BLOB := "[" + ("base64 blob " + "redacted by prefilter ") + "-" + " not decoded" + "]"
  const MIN_LEN := 40

  predicate IsUpper(c: char) { 'A' <= c <= 'Z' }
  predicate IsLower(c: char) { 'a' <= c <= 'z' }
  predicate IsDigit(c: char) { '0' <= c <= '9' }
  predicate IsSpecial(c: char) { c == '+' || c == '/' || c == '=' }

  // The alphabet of section 4 of RFC 4648, with the padding character.
  predicate IsBase64(c: char) { IsUpper(c) || IsLower(c) || IsDigit(c) || IsSpecial(c) }
  predicate IsSpace(c: char) { c == ' ' || c == '\t' || c == '\r' || c == '\n' }
  predicate Barrier(c: char) { !IsBase64(c) && !IsSpace(c) }

  // The alphabet and the blanks, by their codes.
  lemma ClassesByCode(c: char)
    ensures IsBase64(c) <==> 65 <= c as int <= 90 || 97 <= c as int <= 122 || 48 <= c as int <= 57 || c as int in {43, 47, 61}
    ensures IsSpecial(c) <==> c as int in {43, 47, 61}
    ensures IsSpace(c) <==> c as int in {9, 10, 13, 32}
  {
  }

  // ---- counting ----

  function Count(s: string, p: char -> bool): nat {
    if s == [] then 0 else Count(s[..|s| - 1], p) + (if p(s[|s| - 1]) then 1 else 0)
  }

  lemma {:induction false} CountConcat(a: string, b: string, p: char -> bool)
    ensures Count(a + b, p) == Count(a, p) + Count(b, p)
  {
    if b == [] {
      assert a + b == a;
    } else {
      assert (a + b)[..|a + b| - 1] == a + b[..|b| - 1];
      CountConcat(a, b[..|b| - 1], p);
    }
  }

  lemma {:induction false} CountBound(s: string, p: char -> bool)
    ensures Count(s, p) <= |s|
    ensures Count(s, p) > 0 <==> exists i :: 0 <= i < |s| && p(s[i])
  {
    if s != [] {
      var t := s[..|s| - 1];
      CountBound(t, p);
      if Count(t, p) > 0 {
        var i :| 0 <= i < |t| && p(t[i]);
        assert p(s[i]);
      }
      if i :| 0 <= i < |s| && p(s[i]) {
        assert i < |t| ==> p(t[i]);
      }
    }
  }

  lemma {:induction false} CountNone(s: string, p: char -> bool)
    requires forall i :: 0 <= i < |s| ==> !p(s[i])
    ensures Count(s, p) == 0
  {
    CountBound(s, p);
  }

  // A span counts as encoded data when it has at least MIN_LEN characters of
  // the alphabet and either one of + / = or mixed case with at least a quarter
  // of upper case letters.
  predicate Looks(span: string) {
    var total := Count(span, IsBase64);
    total >= MIN_LEN &&
    (Count(span, IsSpecial) > 0 ||
     (Count(span, IsUpper) > 0 && Count(span, IsLower) > 0 && 4 * Count(span, IsUpper) >= total))
  }

  const BASE64 := Rule(Looks, BLOB)

  lemma {:induction false} KindsAdd(s: string)
    ensures Count(s, IsBase64) == Count(s, IsUpper) + Count(s, IsLower) + Count(s, IsDigit) + Count(s, IsSpecial)
  {
    if s != [] { KindsAdd(s[..|s| - 1]); }
  }

  // Without special characters, a span qualifies when it mixes cases and at
  // most three characters in four are lower case letters or digits.
  lemma LooksIff(span: string)
    ensures var upper, lower, digits, special :=
        Count(span, IsUpper), Count(span, IsLower), Count(span, IsDigit), Count(span, IsSpecial);
      Looks(span) <==>
        upper + lower + digits + special >= 40 && (special > 0 || (lower > 0 && lower + digits <= 3 * upper))
  {
    KindsAdd(span);
  }

  method LooksBase64Block(span: string) returns (r: bool)
    ensures r == Looks(span)
  {
    var nonSpace, upper, lower, special := 0, 0, 0, 0;
    var i := 0;
    while i < |span|
      invariant 0 <= i <= |span|
      invariant nonSpace == Count(span[..i], IsBase64) && special == Count(span[..i], IsSpecial)
      invariant upper == Count(span[..i], IsUpper) && lower == Count(span[..i], IsLower)
    {
      var b := span[i];
      assert span[..i + 1][..i] == span[..i];
      if 'A' <= b <= 'Z' {
        upper, nonSpace := upper + 1, nonSpace + 1;
      } else if 'a' <= b <= 'z' {
        lower, nonSpace := lower + 1, nonSpace + 1;
      } else if '0' <= b <= '9' {
        nonSpace := nonSpace + 1;
      } else if b == '+' || b == '/' || b == '=' {
        special, nonSpace := special + 1, nonSpace + 1;
      }
      i := i + 1;
    }
    assert span[..i] == span;
    if nonSpace < MIN_LEN { return false; }
    if special > 0 { return true; }
    return upper > 0 && lower > 0 && 4 * upper >= nonSpace;
  }

  // ---- spans, declaratively ----

  // s[a..b] starts and ends with a base64 character and holds no barrier.
  ghost predicate IsSpan(s: string, a: int, b: int) {
    0 <= a < b <= |s| && IsBase64(s[a]) && IsBase64(s[b - 1]) &&
    forall i :: a <= i < b ==> !Barrier(s[i])
  }

  ghost predicate Maximal(s: string, a: int, b: int) {
    IsSpan(s, a, b) &&
    forall x, y :: x <= a && b <= y && IsSpan(s, x, y) ==> x == a && y == b
  }

  // The spans of a decomposition: in order, and exactly the maximal ones.
  ghost predicate IsDecomposition(s: string, spans: seq<Cut>) {
    Ordered(s, 0, spans) &&
    (forall c :: c in spans ==> Maximal(s, c.start, c.end)) &&
    (forall a, b :: Maximal(s, a, b) ==> Cut(a, b) in spans)
  }

  // No span reaches over position i.
  ghost predicate Boundary(s: string, i: int) {
    forall x, y :: x < i < y ==> !IsSpan(s, x, y)
  }

  // Overlapping spans merge into one, so a maximal span is never crossed.
  lemma CrossedIsNotMaximal(s: string, a: int, b: int, x: int, y: int)
    requires IsSpan(s, a, b) && IsSpan(s, x, y) && (x < a < y || x < b < y)
    ensures !Maximal(s, a, b)
  {
    assert IsSpan(s, if x < a then x else a, if y < b then b else y);
  }

  lemma MaximalIffBoundaries(s: string, a: int, b: int)
    ensures Maximal(s, a, b) <==> IsSpan(s, a, b) && Boundary(s, a) && Boundary(s, b)
  {
    forall x, y | IsSpan(s, a, b) && IsSpan(s, x, y) && (x < a < y || x < b < y)
      ensures !Maximal(s, a, b)
    {
      CrossedIsNotMaximal(s, a, b, x, y);
    }
  }

  // ---- spans, as the scanner meets them ----

  // The length of the longest prefix of t that holds no barrier and ends with
  // a base64 character.
  function SpanLen(t: string): (e: nat)
    ensures e <= |t| && (t != [] && IsBase64(t[0]) ==> e > 0)
  {
    if t == [] || Barrier(t[0]) then 0
    else if SpanLen(t[1..]) > 0 then 1 + SpanLen(t[1..])
    else if IsBase64(t[0]) then 1
    else 0
  }

  lemma {:induction false} SpanLenIsSpan(t: string)
    ensures SpanLen(t) > 0 ==> IsBase64(t[SpanLen(t) - 1])
    ensures forall i :: 0 <= i < SpanLen(t) ==> !Barrier(t[i])
  {
    if t != [] {
      SpanLenIsSpan(t[1..]);
      forall i | 0 <= i < SpanLen(t) ensures !Barrier(t[i]) {
        if i > 0 { assert t[i] == t[1..][i - 1]; }
      }
    }
  }

  lemma {:induction false} SpanLenIsLongest(t: string, e: nat)
    requires 0 < e <= |t| && IsBase64(t[e - 1])
    requires forall i :: 0 <= i < e ==> !Barrier(t[i])
    ensures e <= SpanLen(t)
  {
    if e > 1 {
      forall i | 0 <= i < e - 1 ensures !Barrier(t[1..][i]) {
        assert t[1..][i] == t[i + 1];
      }
      SpanLenIsLongest(t[1..], e - 1);
    }
  }

  // The text after redaction, and the number of replacements.
  function Redact(t: string, rule: Rule): string {
    if t == [] then []
    else if !IsBase64(t[0]) then [t[0]] + Redact(t[1..], rule)
    else (if rule.qualifies(t[..SpanLen(t)]) then rule.mark else t[..SpanLen(t)]) + Redact(t[SpanLen(t)..], rule)
  }

  function HitCount(t: string, rule: Rule): nat {
    if t == [] then 0
    else if !IsBase64(t[0]) then HitCount(t[1..], rule)
    else (if rule.qualifies(t[..SpanLen(t)]) then 1 else 0) + HitCount(t[SpanLen(t)..], rule)
  }

  lemma GapFrom(s: string, i: nat, rule: Rule)
    requires i < |s| && !IsBase64(s[i])
    ensures Redact(s[i..], rule) == [s[i]] + Redact(s[i + 1..], rule)
    ensures HitCount(s[i..], rule) == HitCount(s[i + 1..], rule)
  {
    assert s[i..][1..] == s[i + 1..];
  }

  lemma NothingToRedact(rule: Rule)
    ensures Redact("", rule) == "" && HitCount("", rule) == 0
  {
  }

  lemma SpanFrom(s: string, i: nat, e: nat, rule: Rule)
    requires i < |s| && IsBase64(s[i]) && e == i + SpanLen(s[i..])
    ensures var hit := rule.qualifies(s[i..e]);
      Redact(s[i..], rule) == (if hit then rule.mark else s[i..e]) + Redact(s[e..], rule) &&
      HitCount(s[i..], rule) == (if hit then 1 else 0) + HitCount(s[e..], rule)
  {
    assert s[i..][..e - i] == s[i..e] && s[i..][e - i..] == s[e..];
  }

  // ---- the scanner ----

  // What the extending loops still aim at when the span so far ends at end and
  // everything up to j has been looked at.
  function Goal(s: string, end: nat, j: nat): nat
    requires j <= |s|
  {
    if SpanLen(s[j..]) > 0 then j + SpanLen(s[j..]) else end
  }

  lemma GoalStep(s: string, end: nat, j: nat)
    requires j < |s|
    ensures IsBase64(s[j]) ==> Goal(s, end, j) == Goal(s, j + 1, j + 1)
    ensures IsSpace(s[j]) ==> Goal(s, end, j) == Goal(s, end, j + 1)
    ensures Barrier(s[j]) ==> Goal(s, end, j) == end
  {
    assert s[j..][1..] == s[j + 1..];
  }

  // The two inner loops: j runs over base64 characters and over interior
  // blanks, end stays behind the last base64 character. visits counts the
  // bytes looked at, ahead how far past the span blanks were looked at.
  method ExtendSpan(s: string, start: nat) returns (end: nat, ghost visits: nat, ghost ahead: nat)
    requires start < |s| && IsBase64(s[start])
    ensures start < end <= |s| && end == start + SpanLen(s[start..])
    ensures end <= ahead <= |s| && forall m :: end <= m < ahead ==> IsSpace(s[m])
    ensures visits <= 2 * (end - start) + 1 + (ahead - end)
  {
    end, visits := start, 0;
    ghost var goal := start + SpanLen(s[start..]);
    var j := start;
    while j < |s|
      invariant start <= end <= j <= |s|
      invariant Goal(s, end, j) == goal
      invariant j != end ==> j < |s| && IsBase64(s[j])
      invariant visits <= 2 * (j - start)
    {
      visits := visits + 1;
      GoalStep(s, end, j);
      if IsBase64(s[j]) {
        j := j + 1;
        end := j;
        continue;
      }
      if IsSpace(s[j]) {
        var k := j;
        while k < |s| && IsSpace(s[k])
          invariant j <= k <= |s| && Goal(s, end, k) == goal
          invariant forall m :: j <= m < k ==> IsSpace(s[m])
          invariant visits <= 2 * (j - start) + 1 + (k - j)
        {
          visits := visits + 1;
          GoalStep(s, end, k);
          k := k + 1;
        }
        if k < |s| && IsBase64(s[k]) {
          j := k;
          continue;
        }
        if k < |s| { GoalStep(s, end, k); }
        return end, visits, k;
      }
      break;
    }
    ahead := end;
  }

  method RedactBase64Blocks(s: string) returns (out: string, n: nat, ghost visits: nat)
    ensures out == Redact(s, BASE64) && n == HitCount(s, BASE64)
    ensures visits <= 4 * |s|
  {
    hide Redact;
    hide HitCount;
    hide SpanLen;
    hide Looks;
    out, n, visits := "", 0, 0;
    var i := 0;
    ghost var ahead := 0;   // blanks before this position were already looked at
    assert s[0..] == s;
    while i < |s|
      invariant 0 <= i <= |s| && ahead <= |s|
      invariant out + Redact(s[i..], BASE64) == Redact(s, BASE64)
      invariant n + HitCount(s[i..], BASE64) == HitCount(s, BASE64)
      invariant forall m :: i <= m < ahead ==> IsSpace(s[m])
      invariant visits <= 4 * i + (if ahead > i then ahead - i else 0)
    {
      if !IsBase64(s[i]) {
        GapFrom(s, i, BASE64);
        Assoc(out, [s[i]], Redact(s[i + 1..], BASE64));
        visits := visits + 1;
        out := out + [s[i]];
        i := i + 1;
        continue;
      }
      var start := i;
      var end;
      ghost var extending;
      end, extending, ahead := ExtendSpan(s, start);
      var span := s[start..end];
      var looks := LooksBase64Block(span);
      visits := visits + extending + |span|;
      SpanFrom(s, i, end, BASE64);
      Assoc(out, if looks then BLOB else span, Redact(s[end..], BASE64));
      if looks {
        out := out + BLOB;
        n := n + 1;
      } else {
        out := out + span;
      }
      i := end;
    }
    assert s[i..] == "";
    NothingToRedact(BASE64);
  }
}
