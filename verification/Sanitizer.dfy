// sanitizeForModel of cmd/triage/scan.go: HTML comments, then base64 data
// URIs, then base64 blocks are replaced by bracketed placeholders.
module Sanitizer {
  import opened Text
  import opened Rewriting
  import opened Base64Scan
  import Decomposition
  import RedactionLaws

  const OPEN := "<!--"
  const CLOSE := "-->"
  const COMMENT_MARK := "[html comment " + "removed by prefilter]"

  // ---- the two patterns ----

  // Case-insensitive matching folds over all of Unicode: LATIN SMALL LETTER
  // LONG S is an s and KELVIN SIGN is a k.
  predicate Folds(c: char, lower: char) {
    c == lower ||
    (IsLower(lower) && c == (lower as int - 32) as char) ||
    (lower == 's' && c == '\U{017F}') || (lower == 'k' && c == '\U{212A}')
  }

  predicate FoldedAt(s: string, i: int, w: string) {
    0 <= i && i + |w| <= |s| && forall k :: 0 <= k < |w| ==> Folds(s[i + k], w[k])
  }

  predicate InPayload(c: char) { IsBase64(c) || c == '\U{017F}' || c == '\U{212A}' }
  predicate InMediaType(c: char) {
    c != ';' && c != '\t' && c != '\n' && c != '\U{000C}' && c != '\r' && c != ' '
  }

  // The classes of the patterns, by their codes.
  lemma ClassesByCode(c: char)
    ensures InPayload(c) <==>
      65 <= c as int <= 90 || 97 <= c as int <= 122 || 48 <= c as int <= 57 || c as int in {43, 47, 61, 0x17F, 0x212A}
    ensures InMediaType(c) <==> c as int !in {9, 10, 12, 13, 32, 59}
  {
  }

  // A letter of the patterns is matched by both its cases, an s by one character more.
  lemma FoldsByCode(c: char, lower: char)
    requires lower in "data:;base64,"
    ensures Folds(c, lower) <==>
      c == lower || (97 <= lower as int <= 122 && c as int == lower as int - 32) || (lower as int == 115 && c as int == 0x17F)
  {
  }

  datatype Pattern = HtmlComment | DataUri

  function RunEnd(s: string, i: int, p: char -> bool): (r: int)
    ensures i <= r && (i <= |s| ==> r <= |s|)
    ensures forall k :: 0 <= i <= k < r ==> k < |s| && p(s[k])
    ensures 0 <= r < |s| ==> !p(s[r])
    decreases |s| - i
  {
    if 0 <= i < |s| && p(s[i]) then RunEnd(s, i + 1, p) else i
  }

  // Where the match of the pattern that starts at i ends, or -1.
  function MatchEnd(p: Pattern, s: string, i: nat): (e: int)
    ensures e >= 0 ==> i < e <= |s|
  {
    match p
    case HtmlComment =>
      if !At(s, i, OPEN) then -1
      else
        var j := IndexFrom(s, CLOSE, i + |OPEN|);
        if j < 0 then -1 else j + |CLOSE|
    case DataUri =>
      if !FoldedAt(s, i, "data:") then -1
      else
        var r := RunEnd(s, i + 5, InMediaType);
        if r == i + 5 || !FoldedAt(s, r, ";base64,") then -1
        else
          var e := RunEnd(s, r + 8, InPayload);
          if e == r + 8 then -1 else e
  }

  function FirstMatch(p: Pattern, s: string, from: nat): (m: int)
    ensures m >= 0 ==> from <= m && MatchEnd(p, s, m) >= 0
    decreases |s| - from
  {
    if from > |s| then -1
    else if MatchEnd(p, s, from) >= 0 then from
    else FirstMatch(p, s, from + 1)
  }

  lemma {:induction false} NoneBefore(p: Pattern, s: string, from: nat)
    ensures var m := FirstMatch(p, s, from);
      forall k: nat :: from <= k && (if m < 0 then k <= |s| else k < m) ==> MatchEnd(p, s, k) < 0
    decreases |s| - from
  {
    hide MatchEnd;
    if from <= |s| && MatchEnd(p, s, from) < 0 { NoneBefore(p, s, from + 1); }
  }

  // The leftmost matches, each searched behind the one before.
  function MatchCuts(p: Pattern, s: string, from: nat): (cuts: seq<Cut>)
    requires from <= |s|
    ensures Ordered(s, from, cuts)
    decreases |s| - from
  {
    var m := FirstMatch(p, s, from);
    if m < 0 then [] else [Cut(m, MatchEnd(p, s, m))] + MatchCuts(p, s, MatchEnd(p, s, m))
  }

  function ReplacedFrom(p: Pattern, s: string, from: nat, mark: string): string
    requires from <= |s|
  {
    Assemble(s, from, MatchCuts(p, s, from), mark)
  }

  function ReplaceAll(p: Pattern, s: string, mark: string): string { ReplacedFrom(p, s, 0, mark) }

  // ---- the pipeline ----

  function Sanitized(s: string): string {
    var s1 := ReplaceAll(HtmlComment, s, COMMENT_MARK);
    var s2 := ReplaceAll(DataUri, s1, BLOB);
    Redact(s2, BASE64)
  }

  function Substitutions(s: string): nat {
    var s1 := ReplaceAll(HtmlComment, s, COMMENT_MARK);
    var s2 := ReplaceAll(DataUri, s1, BLOB);
    |MatchCuts(HtmlComment, s, 0)| + |MatchCuts(DataUri, s1, 0)| + HitCount(s2, BASE64)
  }

  method SanitizeForModel(input: string) returns (out: string, n: nat)
    ensures out == Sanitized(input) && n == Substitutions(input)
    ensures Clean(out) && (n == 0 <==> Clean(input)) && (n == 0 ==> out == input)
  {
    SanitizedIsClean(input);
    UntouchedIffClean(input);
    var s := input;
    n := |MatchCuts(HtmlComment, s, 0)|;
    s := ReplaceAll(HtmlComment, s, COMMENT_MARK);
    n := n + |MatchCuts(DataUri, s, 0)|;
    s := ReplaceAll(DataUri, s, BLOB);
    var m;
    ghost var visits;
    out, m, visits := RedactBase64Blocks(s);
    n := n + m;
  }

  // ---- what the patterns match, declaratively ----

  ghost predicate CommentAt(t: string, i: int, j: int) {
    At(t, i, OPEN) && i + |OPEN| <= j && At(t, j, CLOSE)
  }

  // A data URI from i whose media type ends at r, up to the first character of
  // its payload.
  ghost predicate UriAt(t: string, i: int, r: int) {
    0 <= i && i + 5 < r && r + 8 < |t| &&
    FoldedAt(t, i, "data:") && FoldedAt(t, r, ";base64,") && InPayload(t[r + 8]) &&
    forall k :: i + 5 <= k < r ==> InMediaType(t[k])
  }

  ghost predicate Starts(p: Pattern, t: string, i: int) {
    match p
    case HtmlComment => exists j :: CommentAt(t, i, j)
    case DataUri => exists r :: UriAt(t, i, r)
  }

  ghost predicate Has(p: Pattern, t: string) { exists i :: Starts(p, t, i) }

  // Nothing for the model to be kept from.
  ghost predicate Clean(t: string) {
    !Has(HtmlComment, t) && !Has(DataUri, t) &&
    forall a, b :: Maximal(t, a, b) ==> !Looks(t[a..b])
  }

  lemma MatchesStart(p: Pattern, s: string, i: nat)
    ensures MatchEnd(p, s, i) >= 0 <==> Starts(p, s, i)
  {
    match p
    case HtmlComment =>
      var j := IndexFrom(s, CLOSE, i + |OPEN|);
      if MatchEnd(p, s, i) >= 0 { assert CommentAt(s, i, j); }
    case DataUri =>
      var q := RunEnd(s, i + 5, InMediaType);
      if MatchEnd(p, s, i) >= 0 { assert UriAt(s, i, q); }
      if r :| UriAt(s, i, r) {
        assert Folds(s[r + 0], ";base64,"[0]);
        assert r == q;
      }
  }

  lemma NoMatchIff(p: Pattern, s: string)
    ensures MatchCuts(p, s, 0) == [] <==> !Has(p, s)
    ensures MatchCuts(p, s, 0) == [] ==> forall mark :: ReplaceAll(p, s, mark) == s
  {
    var m := FirstMatch(p, s, 0);
    NoneBefore(p, s, 0);
    if m >= 0 {
      MatchesStart(p, s, m);
    } else {
      forall i ensures !Starts(p, s, i) {
        if 0 <= i <= |s| { MatchesStart(p, s, i); }
      }
      assert s[0..] == s;
    }
  }

  // ---- placeholders never join kept text into something new ----

  ghost predicate Plain(w: string) { '<' !in w && '>' !in w && ':' !in w && ',' !in w }

  ghost predicate Sealed(mark: string) {
    |mark| >= 2 && mark[0] == '[' && mark[|mark| - 1] == ']' && ' ' in mark && Plain(mark)
  }

  lemma MarkChars(a: string, mark: string, b: string) returns (blank: int)
    requires Sealed(mark)
    ensures var t := a + mark + b; var last := |a| + |mark| - 1;
      t[|a|] == '[' && t[last] == ']' && |a| <= blank <= last && t[blank] == ' ' &&
      forall p :: |a| <= p <= last ==> t[p] in mark
  {
    var q :| 0 <= q < |mark| && mark[q] == ' ';
    blank := |a| + q;
    var t := a + mark + b;
    forall p | |a| <= p < |a| + |mark| ensures t[p] in mark { assert t[p] == mark[p - |a|]; }
  }

  // An occurrence of w in a + mark + b lies in a or in b.
  lemma Avoids(a: string, mark: string, b: string, i: int, w: string, c: char)
    requires Sealed(mark) && At(a + mark + b, i, w)
    requires '[' !in w && ']' !in w && c in w && c !in mark
    ensures i + |w| <= |a| || |a| + |mark| <= i
  {
    var t := a + mark + b;
    var blank := MarkChars(a, mark, b);
    AtIndexed(t, i, w);
    assert forall p :: i <= p < i + |w| ==> t[p] == w[p - i] && t[p] in w;
    var k :| 0 <= k < |w| && w[k] == c;
    assert t[i + k] == c;
  }

  lemma UriChars(t: string, i: int, r: int)
    requires UriAt(t, i, r)
    ensures t[i + 4] == ':' && t[r + 7] == ',' && t[r + 8] != '['
    ensures forall p :: i <= p <= i + 4 ==> t[p] != ']'
    ensures forall p :: i <= p < r + 8 ==> t[p] != ' '
  {
    assert Folds(t[i + 4], "data:"[4]) && Folds(t[r + 7], ";base64,"[7]);
    forall p | i <= p <= i + 4 ensures t[p] != ']' && t[p] != ' ' { assert Folds(t[i + (p - i)], "data:"[p - i]); }
    forall p | r <= p <= r + 7 ensures t[p] != ' ' { assert Folds(t[r + (p - r)], ";base64,"[p - r]); }
  }

  lemma UriAvoids(a: string, mark: string, b: string, i: int, r: int)
    requires Sealed(mark) && UriAt(a + mark + b, i, r)
    ensures r + 8 < |a| || |a| + |mark| <= i
  {
    var blank := MarkChars(a, mark, b);
    UriChars(a + mark + b, i, r);
  }

  lemma UriInPart(a: string, mark: string, b: string, i: int, r: int)
    requires Sealed(mark) && UriAt(a + mark + b, i, r)
    ensures var d := |a| + |mark|; UriAt(a, i, r) || UriAt(b, i - d, r - d)
  {
    var t, d := a + mark + b, |a| + |mark|;
    UriAvoids(a, mark, b, i, r);
    if r + 8 < |a| { UriMoves(t, i, r, a, 0); } else { UriMoves(t, i, r, b, -d); }
  }

  // Being a data URI is a matter of the characters it covers.
  lemma UriMoves(t: string, i: int, r: int, u: string, d: int)
    requires UriAt(t, i, r) && 0 <= i + d && r + 8 + d < |u|
    requires forall p :: i <= p <= r + 8 ==> t[p] == u[p + d]
    ensures UriAt(u, i + d, r + d)
  {
    forall k | 0 <= k < 5 ensures Folds(u[i + d + k], "data:"[k]) { assert Folds(t[i + k], "data:"[k]); }
    forall k | 0 <= k < 8 ensures Folds(u[r + d + k], ";base64,"[k]) { assert Folds(t[r + k], ";base64,"[k]); }
    forall k | i + d + 5 <= k < r + d ensures InMediaType(u[k]) { assert InMediaType(t[k - d]); }
  }

  lemma AtMoves(t: string, i: int, w: string, u: string, d: int)
    requires At(t, i, w) && 0 <= i + d && i + |w| + d <= |u|
    requires forall p :: i <= p < i + |w| ==> t[p] == u[p + d]
    ensures At(u, i + d, w)
  {
    AtIndexed(t, i, w);
    forall k | 0 <= k < |w| ensures u[i + d + k] == w[k] { assert t[i + k] == w[k]; }
    AtIndexed(u, i + d, w);
  }

  // ... and is an occurrence there.
  lemma OneSide(a: string, mark: string, b: string, i: int, w: string, c: char)
    requires Sealed(mark) && At(a + mark + b, i, w)
    requires '[' !in w && ']' !in w && c in w && c !in mark
    ensures At(a, i, w) || At(b, i - |a| - |mark|, w)
  {
    Avoids(a, mark, b, i, w, c);
    if i + |w| <= |a| {
      AtMoves(a + mark + b, i, w, a, 0);
    } else {
      AtMoves(a + mark + b, i, w, b, -(|a| + |mark|));
    }
  }

  lemma {:induction false} OccursInSource(s: string, from: int, cuts: seq<Cut>, mark: string, i: int, w: string, c: char)
      returns (k: int)
    requires Ordered(s, from, cuts) && Sealed(mark)
    requires '[' !in w && ']' !in w && c in w && c !in mark
    requires At(Assemble(s, from, cuts, mark), i, w)
    ensures from <= k && At(s, k, w)
    decreases |cuts|
  {
    if cuts == [] {
      AtMoves(s[from..], i, w, s, from);
      return i + from;
    }
    var a, rest := s[from..cuts[0].start], Assemble(s, cuts[0].end, cuts[1..], mark);
    OneSide(a, mark, rest, i, w, c);
    if At(a, i, w) {
      AtMoves(a, i, w, s, from);
      return i + from;
    }
    k := OccursInSource(s, cuts[0].end, cuts[1..], mark, i - |a| - |mark|, w, c);
  }

  // The two ends of a comment in a + mark + b, each in a or in b.
  lemma CommentAvoids(a: string, mark: string, b: string, i: int, j: int)
    requires Sealed(mark) && CommentAt(a + mark + b, i, j)
    ensures var d := |a| + |mark|;
      CommentAt(a, i, j) || (At(a, i, OPEN) && At(b, j - d, CLOSE)) || CommentAt(b, i - d, j - d)
  {
    OneSide(a, mark, b, i, OPEN, '<');
    OneSide(a, mark, b, j, CLOSE, '>');
  }

  // Replacing parts of a text never completes a comment ...
  lemma {:induction false} CommentFromSource(s: string, from: int, cuts: seq<Cut>, mark: string, i: int, j: int)
      returns (k: int, m: int)
    requires Ordered(s, from, cuts) && Sealed(mark)
    requires CommentAt(Assemble(s, from, cuts, mark), i, j)
    ensures from <= k && CommentAt(s, k, m)
    decreases |cuts|
  {
    hide CommentAt;
    hide Sealed;
    if cuts == [] {
      assert s[from..] == s[from..|s|];
      CommentInSlice(s, from, |s|, i, j);
      return i + from, j + from;
    }
    var d := cuts[0].start - from + |mark|;
    if CommentAt(Assemble(s, cuts[0].end, cuts[1..], mark), i - d, j - d) {
      k, m := CommentFromSource(s, cuts[0].end, cuts[1..], mark, i - d, j - d);
    } else {
      k, m := CommentFromFirst(s, from, cuts[0], cuts[1..], mark, i, j);
    }
  }

  lemma CommentFromFirst(s: string, from: int, c: Cut, cuts: seq<Cut>, mark: string, i: int, j: int)
      returns (k: int, m: int)
    requires 0 <= from <= c.start < c.end <= |s| && Ordered(s, c.end, cuts) && Sealed(mark)
    requires CommentAt(s[from..c.start] + mark + Assemble(s, c.end, cuts, mark), i, j)
    requires var d := c.start - from + |mark|; !CommentAt(Assemble(s, c.end, cuts, mark), i - d, j - d)
    ensures from <= k && CommentAt(s, k, m)
  {
    hide At;
    var a, rest := s[from..c.start], Assemble(s, c.end, cuts, mark);
    CommentAvoids(a, mark, rest, i, j);
    k := i + from;
    if CommentAt(a, i, j) {
      CommentInSlice(s, from, c.start, i, j);
      m := j + from;
    } else {
      AtEnds(a, i, OPEN);
      SliceOccurs(s, from, c.start, i, OPEN);
      m := OccursInSource(s, c.end, cuts, mark, j - |a| - |mark|, CLOSE, '>');
    }
  }

  lemma AtEnds(s: string, i: int, w: string)
    requires At(s, i, w)
    ensures 0 <= i && i + |w| <= |s|
  {
  }

  lemma SliceOccurs(s: string, lo: int, hi: int, i: int, w: string)
    requires 0 <= lo <= hi <= |s| && At(s[lo..hi], i, w)
    ensures At(s, i + lo, w)
  {
    AtMoves(s[lo..hi], i, w, s, lo);
  }

  lemma CommentInSlice(s: string, lo: int, hi: int, i: int, j: int)
    requires 0 <= lo <= hi <= |s| && CommentAt(s[lo..hi], i, j)
    ensures lo <= i + lo && CommentAt(s, i + lo, j + lo)
  {
    SliceOccurs(s, lo, hi, i, OPEN);
    SliceOccurs(s, lo, hi, j, CLOSE);
  }

  lemma UriInSlice(s: string, lo: int, hi: int, i: int, r: int)
    requires 0 <= lo <= hi <= |s| && UriAt(s[lo..hi], i, r)
    ensures lo <= i + lo && UriAt(s, i + lo, r + lo)
  {
    UriMoves(s[lo..hi], i, r, s, lo);
  }

  // ... nor a data URI.
  lemma {:induction false} UriFromSource(s: string, from: int, cuts: seq<Cut>, mark: string, i: int, r: int)
      returns (k: int, m: int)
    requires Ordered(s, from, cuts) && Sealed(mark)
    requires UriAt(Assemble(s, from, cuts, mark), i, r)
    ensures from <= k && UriAt(s, k, m)
    decreases |cuts|
  {
    hide UriAt;
    hide Sealed;
    if cuts == [] {
      assert s[from..] == s[from..|s|];
      UriInSlice(s, from, |s|, i, r);
      return i + from, r + from;
    }
    var a, rest := s[from..cuts[0].start], Assemble(s, cuts[0].end, cuts[1..], mark);
    var d := |a| + |mark|;
    UriInPart(a, mark, rest, i, r);
    if UriAt(a, i, r) {
      UriInSlice(s, from, cuts[0].start, i, r);
      return i + from, r + from;
    }
    k, m := UriFromSource(s, cuts[0].end, cuts[1..], mark, i - d, r - d);
  }

  lemma NothingNew(p: Pattern, s: string, cuts: seq<Cut>, mark: string)
    requires Ordered(s, 0, cuts) && Sealed(mark) && !Has(p, s)
    ensures !Has(p, Assemble(s, 0, cuts, mark))
  {
    var t := Assemble(s, 0, cuts, mark);
    if i :| Starts(p, t, i) {
      match p
      case HtmlComment =>
        var j :| CommentAt(t, i, j);
        var k, m := CommentFromSource(s, 0, cuts, mark, i, j);
        assert Starts(p, s, k);
      case DataUri =>
        var r :| UriAt(t, i, r);
        var k, m := UriFromSource(s, 0, cuts, mark, i, r);
        assert Starts(p, s, k);
    }
  }

  // ---- a pass leaves no match of its own pattern ----

  lemma SuffixStarts(p: Pattern, s: string, from: nat, i: int)
    requires from <= |s| && Starts(p, s[from..], i)
    ensures 0 <= i <= |s| - from && Starts(p, s, from + i)
  {
    var t := s[from..];
    match p
    case HtmlComment =>
      var j :| CommentAt(t, i, j);
      assert s[from..] == s[from..|s|];
      CommentInSlice(s, from, |s|, i, j);
    case DataUri =>
      var r :| UriAt(t, i, r);
      assert s[from..] == s[from..|s|];
      UriInSlice(s, from, |s|, i, r);
  }

  // A match in front of the placeholder would have been found before.
  lemma CommentOrigin(s: string, from: nat, m: nat, mark: string, rest: string, i: int)
    requires from <= m <= |s| && Starts(HtmlComment, s, m) && Sealed(mark)
    requires Starts(HtmlComment, s[from..m] + mark + rest, i)
    ensures Starts(HtmlComment, rest, i - (m - from) - |mark|) ||
      (from <= from + i < m && Starts(HtmlComment, s, from + i))
  {
    var a, d := s[from..m], (m - from) + |mark|;
    var j :| CommentAt(a + mark + rest, i, j);
    CommentAvoids(a, mark, rest, i, j);
    if At(a, i, OPEN) {
      AtMoves(a, i, OPEN, s, from);
      var k :| CommentAt(s, m, k);
      assert CommentAt(s, from + i, k);
    } else {
      assert CommentAt(rest, i - d, j - d);
    }
  }

  lemma UriOrigin(s: string, from: nat, m: nat, mark: string, rest: string, i: int)
    requires from <= m <= |s| && Sealed(mark)
    requires Starts(DataUri, s[from..m] + mark + rest, i)
    ensures Starts(DataUri, rest, i - (m - from) - |mark|) ||
      (from <= from + i < m && Starts(DataUri, s, from + i))
  {
    var a, d := s[from..m], (m - from) + |mark|;
    var r :| UriAt(a + mark + rest, i, r);
    UriInPart(a, mark, rest, i, r);
    if UriAt(a, i, r) { UriInSlice(s, from, m, i, r); }
  }

  lemma ReplacedUnfold(p: Pattern, s: string, from: nat, mark: string)
    requires from <= |s|
    ensures var m := FirstMatch(p, s, from);
      ReplacedFrom(p, s, from, mark) ==
        if m < 0 then s[from..] else s[from..m] + mark + ReplacedFrom(p, s, MatchEnd(p, s, m), mark)
  {
    var m := FirstMatch(p, s, from);
    if m >= 0 {
      assert MatchCuts(p, s, from)[1..] == MatchCuts(p, s, MatchEnd(p, s, m));
    }
  }

  lemma FirstMatchStarts(p: Pattern, s: string, from: nat)
    ensures var m := FirstMatch(p, s, from);
      if m < 0 then forall k :: from <= k <= |s| ==> !Starts(p, s, k)
      else Starts(p, s, m) && forall k :: from <= k < m ==> !Starts(p, s, k)
  {
    NoneBefore(p, s, from);
    hide MatchEnd;
    hide Starts;
    forall k: nat ensures MatchEnd(p, s, k) >= 0 <==> Starts(p, s, k) { MatchesStart(p, s, k); }
  }

  lemma NoneAfterLast(p: Pattern, s: string, from: nat, i: int)
    requires from <= |s| && forall k :: from <= k <= |s| ==> !Starts(p, s, k)
    ensures !Starts(p, s[from..], i)
  {
    if Starts(p, s[from..], i) {
      SuffixStarts(p, s, from, i);
    }
  }

  lemma StartOrigin(p: Pattern, s: string, from: nat, m: nat, mark: string, rest: string, i: int)
    requires from <= m <= |s| && Starts(p, s, m) && Sealed(mark)
    requires Starts(p, s[from..m] + mark + rest, i)
    ensures Starts(p, rest, i - (m - from) - |mark|) || (from <= from + i < m && Starts(p, s, from + i))
  {
    match p
    case HtmlComment => CommentOrigin(s, from, m, mark, rest, i);
    case DataUri => UriOrigin(s, from, m, mark, rest, i);
  }

  lemma {:induction false} PassClears(p: Pattern, s: string, from: nat, mark: string, i: int)
    requires from <= |s| && Sealed(mark)
    ensures !Starts(p, ReplacedFrom(p, s, from, mark), i)
    decreases |s| - from
  {
    hide Starts;
    hide ReplacedFrom;
    hide Sealed;
    var m := FirstMatch(p, s, from);
    ReplacedUnfold(p, s, from, mark);
    FirstMatchStarts(p, s, from);
    if m < 0 {
      NoneAfterLast(p, s, from, i);
    } else {
      var e := MatchEnd(p, s, m);
      PassClears(p, s, e, mark, i - (m - from) - |mark|);
      if Starts(p, s[from..m] + mark + ReplacedFrom(p, s, e, mark), i) {
        StartOrigin(p, s, from, m, mark, ReplacedFrom(p, s, e, mark), i);
      }
    }
  }

  lemma PassLeavesNone(p: Pattern, s: string, mark: string)
    requires Sealed(mark)
    ensures !Has(p, ReplaceAll(p, s, mark))
  {
    forall i ensures !Starts(p, ReplaceAll(p, s, mark), i) {
      PassClears(p, s, 0, mark, i);
    }
  }

  // ---- the pipeline ----

  lemma CommentMarkSealed()
    ensures Sealed(COMMENT_MARK)
  {
    var u, v := "[html comment ", "removed by prefilter]";
    FirstPlain();
    SecondPlain();
    PlainConcat(u, v);
    assert COMMENT_MARK[5] == u[5] == ' ';
  }

  lemma FirstPlain()
    ensures Plain("[html comment ")
  {
  }

  lemma SecondPlain()
    ensures Plain("removed by prefilter]")
  {
  }

  lemma BlobSealed()
    ensures Sealed(BLOB)
  {
    var u, v := "base64 blob " + "redacted by prefilter ", " not decoded";
    LeftPlain();
    RightPlain();
    FourPlain(u, v);
    var w := "[" + u + "-";
    assert BLOB == w + (v + "]");
    assert BLOB[|w|] == v[0] == ' ';
  }

  lemma LeftPlain()
    ensures Plain("base64 blob " + "redacted by prefilter ")
  {
    KindPlain();
    ReasonPlain();
    PlainConcat("base64 blob ", "redacted by prefilter ");
  }

  lemma KindPlain()
    ensures Plain("base64 blob ")
  {
  }

  lemma ReasonPlain()
    ensures Plain("redacted by prefilter ")
  {
  }

  lemma RightPlain()
    ensures Plain(" not decoded")
  {
  }

  lemma FourPlain(u: string, v: string)
    requires Plain(u) && Plain(v)
    ensures Plain("[" + u + "-" + v + "]")
  {
    PlainConcat("[", u);
    PlainConcat("[" + u, "-");
    PlainConcat("[" + u + "-", v);
    PlainConcat("[" + u + "-" + v, "]");
  }

  lemma PlainConcat(a: string, b: string)
    ensures Plain(a + b) <==> Plain(a) && Plain(b)
  {
  }

  lemma MarksSealed()
    ensures Sealed(COMMENT_MARK) && Sealed(BLOB)
  {
    CommentMarkSealed();
    BlobSealed();
  }

  lemma BlobInert(rule: Rule)
    requires rule == BASE64
    ensures RedactionLaws.Inert(rule)
  {
    var u, v := "base64 blob " + "redacted by prefilter ", " not decoded";
    BlobSealed();
    PartsKept(u, v, rule);
    assert BLOB == "[" + u + "-" + v + "]";
  }

  lemma PartsKept(u: string, v: string, rule: Rule)
    requires rule.qualifies == Looks && rule.mark != [] && Barrier(rule.mark[0])
    requires |u| < MIN_LEN && |v| < MIN_LEN
    ensures var t := "[" + u + "-" + v + "]"; Redact(t, rule) == t && HitCount(t, rule) == 0
  {
    Decomposition.ShortTextKept(u, rule);
    Decomposition.ShortTextKept(v, rule);
    RedactionLaws.BarrierSplits("", '[', u, rule);
    RedactionLaws.BarrierSplits("[" + u, '-', v, rule);
    RedactionLaws.BarrierSplits("[" + u + "-" + v, ']', "", rule);
    assert "" + "[" + u == "[" + u;
    assert "[" + u + "-" + v + "]" + "" == "[" + u + "-" + v + "]";
  }

  // Redaction, seen as a rewriting, creates neither comments nor data URIs.
  lemma RedactionNothingNew(p: Pattern, s: string)
    requires !Has(p, s)
    ensures !Has(p, Redact(s, BASE64))
  {
    var spans := Decomposition.Spans(s);
    Decomposition.DecompositionUnique(s, spans);
    Decomposition.RedactionIsDeclarative(s, spans, BASE64);
    MarksSealed();
    NothingNew(p, s, Decomposition.Qualifying(s, 0, spans, BASE64), BLOB);
  }

  // Whatever the issue text, the model receives no comment, no base64 data URI
  // and no base64 span that qualifies.
  lemma SanitizedIsClean(s: string)
    ensures Clean(Sanitized(s))
  {
    var s1 := ReplaceAll(HtmlComment, s, COMMENT_MARK);
    var s2 := ReplaceAll(DataUri, s1, BLOB);
    MarksSealed();
    PassLeavesNone(HtmlComment, s, COMMENT_MARK);
    PassLeavesNone(DataUri, s1, BLOB);
    NothingNew(HtmlComment, s1, MatchCuts(DataUri, s1, 0), BLOB);
    RedactionNothingNew(HtmlComment, s2);
    RedactionNothingNew(DataUri, s2);
    BlobInert(BASE64);
    RedactionLaws.RedactionIdempotent(s2, BASE64);
    Decomposition.KeptIffNothingQualifies(Redact(s2, BASE64), BASE64);
  }

  // Only such texts are left alone: the count is zero exactly for clean texts,
  // and then nothing is changed.
  lemma UntouchedIffClean(s: string)
    ensures Substitutions(s) == 0 <==> Clean(s)
    ensures Clean(s) ==> Sanitized(s) == s
  {
    var s1 := ReplaceAll(HtmlComment, s, COMMENT_MARK);
    NoMatchIff(HtmlComment, s);
    NoMatchIff(DataUri, s1);
    var s2 := ReplaceAll(DataUri, s1, BLOB);
    BlobInert(BASE64);
    Decomposition.KeptIffNothingQualifies(s2, BASE64);
  }

  // Sanitising is idempotent.
  lemma SanitizingIdempotent(s: string)
    ensures Sanitized(Sanitized(s)) == Sanitized(s) && Substitutions(Sanitized(s)) == 0
  {
    SanitizedIsClean(s);
    UntouchedIffClean(Sanitized(s));
  }

  // ---- a pass, declaratively ----

  // s[i..j] is a match: a comment up to the first close behind its open, or a
  // data URI with the whole of its payload.
  ghost predicate IsMatch(p: Pattern, s: string, i: int, j: int) {
    match p
    case HtmlComment =>
      CommentAt(s, i, j - |CLOSE|) && forall m :: i + |OPEN| <= m < j - |CLOSE| ==> !At(s, m, CLOSE)
    case DataUri => exists r :: UriUpTo(s, i, r, j)
  }

  ghost predicate UriUpTo(s: string, i: int, r: int, j: int) {
    UriAt(s, i, r) && r + 8 < j <= |s| &&
    (forall k :: r + 8 <= k < j ==> InPayload(s[k])) && (j < |s| ==> !InPayload(s[j]))
  }

  // Matches, in order, that cover every place where the pattern occurs.
  ghost predicate IsPass(p: Pattern, s: string, from: nat, cuts: seq<Cut>) {
    Ordered(s, from, cuts) && (forall c :: c in cuts ==> IsMatch(p, s, c.start, c.end)) &&
    forall k :: from <= k && Starts(p, s, k) ==> Covered(cuts, k)
  }

  ghost predicate Covered(cuts: seq<Cut>, k: int) { exists c :: c in cuts && c.start <= k < c.end }

  lemma MatchStarts(p: Pattern, s: string, i: int, j: int)
    requires IsMatch(p, s, i, j)
    ensures Starts(p, s, i) && 0 <= i < j <= |s|
  {
    if p == HtmlComment { assert CommentAt(s, i, j - |CLOSE|); }
  }

  lemma CommentEnds(s: string, i: nat, j: int)
    ensures MatchEnd(HtmlComment, s, i) == j >= 0 <==> IsMatch(HtmlComment, s, i, j)
  {
    var m := IndexFrom(s, CLOSE, i + |OPEN|);
    if IsMatch(HtmlComment, s, i, j) { assert At(s, j - |CLOSE|, CLOSE); }
  }

  lemma UriEnds(s: string, i: nat, j: int)
    ensures MatchEnd(DataUri, s, i) == j >= 0 <==> IsMatch(DataUri, s, i, j)
  {
    MatchesStart(DataUri, s, i);
    var q := RunEnd(s, i + 5, InMediaType);
    if MatchEnd(DataUri, s, i) == j >= 0 {
      assert UriUpTo(s, i, q, j);
    }
    if r :| UriUpTo(s, i, r, j) {
      assert UriAt(s, i, r);
      assert Folds(s[r + 0], ";base64,"[0]);
      assert r == q;
    }
  }

  // The hand matchers end where the patterns do.
  lemma MatchEndsIff(p: Pattern, s: string, i: nat, j: int)
    ensures MatchEnd(p, s, i) == j >= 0 <==> IsMatch(p, s, i, j)
  {
    match p
    case HtmlComment => CommentEnds(s, i, j);
    case DataUri => UriEnds(s, i, j);
  }

  lemma {:induction false} CutsArePass(p: Pattern, s: string, from: nat)
    requires from <= |s|
    ensures IsPass(p, s, from, MatchCuts(p, s, from))
    decreases |s| - from
  {
    hide Starts;
    hide IsMatch;
    hide Covered;
    hide MatchEnd;
    var m, cuts := FirstMatch(p, s, from), MatchCuts(p, s, from);
    FirstMatchStarts(p, s, from);
    if m < 0 {
      forall k | from <= k ensures !Starts(p, s, k) {
        if k > |s| { StartsInside(p, s, k); }
      }
    } else {
      var e := MatchEnd(p, s, m);
      MatchEndsIff(p, s, m, e);
      CutsArePass(p, s, e);
      assert cuts == [Cut(m, e)] + MatchCuts(p, s, e);
      forall k | from <= k && Starts(p, s, k) ensures Covered(cuts, k) {
        CoveredByMore(Cut(m, e), MatchCuts(p, s, e), k);
      }
    }
  }

  lemma CoveredByMore(c: Cut, cuts: seq<Cut>, k: int)
    ensures c.start <= k < c.end || Covered(cuts, k) ==> Covered([c] + cuts, k)
  {
    assert c in [c] + cuts;
    if Covered(cuts, k) {
      var b :| b in cuts && b.start <= k < b.end;
      assert b in [c] + cuts;
    }
  }

  lemma StartsInside(p: Pattern, s: string, k: int)
    ensures Starts(p, s, k) ==> 0 <= k < |s|
  {
  }

  lemma {:induction false} PassIsCuts(p: Pattern, s: string, from: nat, cuts: seq<Cut>)
    requires from <= |s| && IsPass(p, s, from, cuts)
    ensures cuts == MatchCuts(p, s, from)
    decreases |s| - from
  {
    hide Starts;
    hide IsMatch;
    var m := FirstMatch(p, s, from);
    FirstMatchStarts(p, s, from);
    if cuts == [] {
      assert m >= 0 ==> !Covered(cuts, m);
    } else {
      var c := cuts[0];
      MatchStarts(p, s, c.start, c.end);
      OrderedBounds(s, c.end, cuts[1..]);
      assert cuts == [c] + cuts[1..];
      FirstCutFirst(p, s, from, cuts, m);
      MatchEndsIff(p, s, m, c.end);
      RestIsPass(p, s, from, cuts);
      PassIsCuts(p, s, c.end, cuts[1..]);
    }
  }

  lemma RestIsPass(p: Pattern, s: string, from: nat, cuts: seq<Cut>)
    requires IsPass(p, s, from, cuts) && cuts != [] && 0 <= cuts[0].end
    ensures IsPass(p, s, cuts[0].end, cuts[1..])
  {
    hide Starts;
    hide IsMatch;
    forall k | cuts[0].end <= k && Starts(p, s, k) ensures Covered(cuts[1..], k) {
      var b :| b in cuts && b.start <= k < b.end;
      assert b in cuts[1..];
    }
  }

  // The first place where the pattern occurs is where the first cut starts.
  lemma FirstCutFirst(p: Pattern, s: string, from: nat, cuts: seq<Cut>, m: int)
    requires IsPass(p, s, from, cuts) && cuts != [] && Starts(p, s, cuts[0].start)
    requires from <= cuts[0].start <= |s| && forall b :: b in cuts[1..] ==> cuts[0].end <= b.start
    requires if m < 0 then forall k :: from <= k <= |s| ==> !Starts(p, s, k)
      else from <= m && Starts(p, s, m) && forall k :: from <= k < m ==> !Starts(p, s, k)
    ensures m == cuts[0].start
  {
    hide Starts;
    hide IsMatch;
    if m >= 0 {
      assert cuts == [cuts[0]] + cuts[1..];
      var b :| b in cuts && b.start <= m < b.end;
    }
  }

  // Every text has exactly one pass.
  lemma PassUnique(p: Pattern, s: string, cuts: seq<Cut>)
    ensures IsPass(p, s, 0, cuts) <==> cuts == MatchCuts(p, s, 0)
  {
    CutsArePass(p, s, 0);
    if IsPass(p, s, 0, cuts) { PassIsCuts(p, s, 0, cuts); }
  }

  // The whole pipeline, for any passes and any decomposition: all matches of
  // the comment pattern, then of the data URI pattern, then all qualifying
  // spans are replaced by their marks, nothing else is touched, and the count
  // is the number of replacements.
  lemma SanitizingIsDeclarative(s: string, comments: seq<Cut>, s1: string, uris: seq<Cut>, s2: string, spans: seq<Cut>)
    requires IsPass(HtmlComment, s, 0, comments) && s1 == Assemble(s, 0, comments, "[html comment " + "removed by prefilter]")
    requires IsPass(DataUri, s1, 0, uris) && s2 == Assemble(s1, 0, uris, BLOB)
    requires IsDecomposition(s2, spans)
    ensures var hits := Decomposition.Qualifying(s2, 0, spans, BASE64);
      Sanitized(s) == Assemble(s2, 0, hits, BLOB) && Substitutions(s) == |comments| + |uris| + |hits|
  {
    hide IsPass;
    PassUnique(HtmlComment, s, comments);
    PassUnique(DataUri, s1, uris);
    Decomposition.DecompositionUnique(s2, spans);
    Decomposition.RedactionIsDeclarative(s2, spans, BASE64);
  }

  // What one match does: the text in front of the first one stays, the match
  // goes, and the search goes on behind its end.
  lemma FirstMatchCut(p: Pattern, s: string, i: nat, j: nat, mark: string)
    requires IsMatch(p, s, i, j) && j <= |s| && forall k :: 0 <= k < i ==> !Starts(p, s, k)
    ensures ReplaceAll(p, s, mark) == s[..i] + mark + ReplacedFrom(p, s, j, mark)
    ensures |MatchCuts(p, s, 0)| == 1 + |MatchCuts(p, s, j)|
  {
    MatchStarts(p, s, i, j);
    MatchEndsIff(p, s, i, j);
    FirstMatchStarts(p, s, 0);
    hide Starts;
    hide IsMatch;
    assert FirstMatch(p, s, 0) == i;
    ReplacedUnfold(p, s, 0, mark);
    assert s[0..i] == s[..i];
  }
}
