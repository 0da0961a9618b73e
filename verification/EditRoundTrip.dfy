// Printing an edit script in the format of the prompt, and reading it back.
module EditRoundTrip {
  import opened Text
  import opened EditScript

  // No marker can be mistaken for part of another one in front of it.
  ghost predicate Apart(m: Format) {
    m.begin != "" && m.oldM != "" && m.newM != "" && m.end != "" &&
    !Contains(m.begin, m.oldM) && !Contains(m.begin, m.newM) && !Contains(m.begin, m.end) &&
    !Contains(m.oldM, m.newM) && !Contains(m.oldM, m.end) && !Contains(m.newM, m.end) &&
    '\n' !in m.begin && '\n' !in m.oldM && '\n' !in m.newM && '\n' !in m.end
  }

  // What the marker format can carry.
  ghost predicate Printable(e: Edit, m: Format) {
    Valid(e) && !Contains(e.oldText, m.end) && !Contains(e.newText, m.end) && !Contains(e.oldText, m.newM)
  }

  ghost predicate AllPrintable(edits: seq<Edit>, m: Format) {
    forall e :: e in edits ==> Printable(e, m)
  }

  // From the Old marker to the line break in front of the End marker.
  function Lines(e: Edit, m: Format): string {
    m.oldM + "\n" + (e.oldText + "\n" + (m.newM + "\n" + (e.newText + "\n")))
  }

  // The script with prose[k] in front of block k, and the last prose at the end.
  function Print(edits: seq<Edit>, prose: seq<string>, m: Format): string
    requires |prose| == |edits| + 1
  {
    if edits == [] then prose[0]
    else prose[0] + (m.begin + "\n" + Lines(edits[0], m) + (m.end + Print(edits[1..], prose[1..], m)))
  }

  // ---- searching line by line ----

  lemma NotAcross(u: string, v: string, k: int, w: string)
    requires '\n' !in w && At(u + "\n" + v, k, w)
    ensures At(u, k, w) || (|u| < k && At(v, k - |u| - 1, w))
  {
    var t := u + "\n" + v;
    AtIndexed(t, k, w);
    assert forall p :: k <= p < k + |w| ==> t[p] == w[p - k] && t[p] in w;
    assert t[|u|] == '\n';
    if k + |w| <= |u| {
      AtIndexed(u, k, w);
    } else {
      AtIndexed(v, k - |u| - 1, w);
    }
  }

  // The first occurrence behind a line that does not hold w.
  lemma FirstBehind(u: string, v: string, w: string, i: int)
    requires '\n' !in w && w != "" && !Contains(u, w) && First(v, w, i)
    ensures First(u + "\n" + v, w, |u| + 1 + i)
  {
    var t := u + "\n" + v;
    forall k | 0 <= k < |u| + 1 + i ensures !At(t, k, w) {
      if At(t, k, w) { NotAcross(u, v, k, w); }
    }
    AtInfix(u + "\n", v, "", i, w);
    assert t + "" == t;
  }

  lemma FirstAtStart(w: string, v: string)
    ensures First(w + v, w, 0)
  {
  }

  lemma FirstInPrefix(s: string, n: int, w: string, i: int)
    requires 0 <= n <= |s| && First(s, w, i) && i + |w| <= n
    ensures First(s[..n], w, i)
  {
    assert s[..n] == s[0..n];
    forall k { AtSlice(s, 0, n, k, w); }
  }

  lemma PartContains(s: string, i: int, j: int, w: string)
    requires 0 <= i <= j <= |s| && Contains(s[i..j], w)
    ensures Contains(s, w)
  {
    var k :| At(s[i..j], k, w);
    AtSlice(s, i, j, k, w);
  }

  // ---- one block ----

  // The text from the Old marker of a block on.
  function FromOld(e: Edit, m: Format, tail: string): string {
    m.oldM + "\n" + (e.oldText + "\n" + FromNew(e, m, tail))
  }

  function FromNew(e: Edit, m: Format, tail: string): string {
    m.newM + "\n" + (e.newText + "\n" + (m.end + tail))
  }

  lemma OldMarkerFirst(sfx: string, e: Edit, m: Format, tail: string)
    requires Apart(m) && !Contains(sfx, m.oldM)
    ensures First(sfx + "\n" + FromOld(e, m, tail), m.oldM, |sfx| + 1)
  {
    var later := "\n" + (e.oldText + "\n" + FromNew(e, m, tail));
    FirstAtStart(m.oldM, later);
    Assoc(m.oldM, "\n", e.oldText + "\n" + FromNew(e, m, tail));
    FirstBehind(sfx, FromOld(e, m, tail), m.oldM, 0);
  }

  lemma NewMarkerFirst(sfx: string, e: Edit, m: Format, tail: string)
    requires Apart(m) && Printable(e, m) && !Contains(sfx, m.newM)
    ensures First(sfx + "\n" + FromOld(e, m, tail), m.newM, |sfx| + 1 + |m.oldM| + 1 + |e.oldText| + 1)
  {
    FirstAtStart(m.newM, "\n" + (e.newText + "\n" + (m.end + tail)));
    Assoc(m.newM, "\n", e.newText + "\n" + (m.end + tail));
    FirstBehind(e.oldText, FromNew(e, m, tail), m.newM, 0);
    FirstBehind(m.oldM, e.oldText + "\n" + FromNew(e, m, tail), m.newM, |e.oldText| + 1);
    FirstBehind(sfx, FromOld(e, m, tail), m.newM, |m.oldM| + 1 + |e.oldText| + 1);
  }

  lemma EndMarkerFirst(sfx: string, e: Edit, m: Format, tail: string)
    requires Apart(m) && Printable(e, m) && !Contains(sfx, m.end)
    ensures First(sfx + "\n" + FromOld(e, m, tail), m.end, |sfx| + 1 + |Lines(e, m)|)
  {
    var i := |e.newText| + 1;
    var j := |m.newM| + 1 + i;
    var k := |e.oldText| + 1 + j;
    FirstAtStart(m.end, tail);
    FirstBehind(e.newText, m.end + tail, m.end, 0);
    FirstBehind(m.newM, e.newText + "\n" + (m.end + tail), m.end, i);
    FirstBehind(e.oldText, FromNew(e, m, tail), m.end, j);
    FirstBehind(m.oldM, e.oldText + "\n" + FromNew(e, m, tail), m.end, k);
    FirstBehind(sfx, FromOld(e, m, tail), m.end, |m.oldM| + 1 + k);
  }

  lemma FromOldIsLines(e: Edit, m: Format, tail: string)
    ensures FromOld(e, m, tail) == Lines(e, m) + (m.end + tail)
  {
    var n, t := e.newText + "\n", m.end + tail;
    Assoc(m.newM + "\n", n, t);
    Assoc(e.oldText + "\n", m.newM + "\n" + n, t);
    Assoc(m.oldM + "\n", e.oldText + "\n" + (m.newM + "\n" + n), t);
  }

  lemma StripLines(x: string)
    ensures Strip("\n" + x + "\n") == x
  {
    var s := "\n" + x + "\n";
    assert s[1..] == x + "\n" && s[..1] == "\n";
    assert (x + "\n")[..|x|] == x && (x + "\n")[|x|..] == "\n";
  }

  lemma BlockMarkers(sfx: string, e: Edit, m: Format)
    requires Apart(m) && Printable(e, m) && !Contains(sfx, m.oldM) && !Contains(sfx, m.newM)
    ensures var block := sfx + "\n" + Lines(e, m); var oi := |sfx| + 1;
      Index(block, m.oldM) == oi && Index(block, m.newM) == oi + |m.oldM| + 1 + |e.oldText| + 1
  {
    var block := sfx + "\n" + Lines(e, m);
    var whole := sfx + "\n" + FromOld(e, m, "");
    var oi := |sfx| + 1;
    var ni := oi + |m.oldM| + 1 + |e.oldText| + 1;
    FromOldIsLines(e, m, "");
    Assoc(sfx + "\n", Lines(e, m), m.end + "");
    assert whole[..|block|] == block;
    OldMarkerFirst(sfx, e, m, "");
    NewMarkerFirst(sfx, e, m, "");
    FirstInPrefix(whole, |block|, m.oldM, oi);
    FirstInPrefix(whole, |block|, m.newM, ni);
    IndexIs(block, m.oldM, oi);
    IndexIs(block, m.newM, ni);
  }

  lemma ParseBlockIs(block: string, m: Format, oi: int, ni: int, e: Edit)
    requires oi == Index(block, m.oldM) && ni == Index(block, m.newM)
    requires 0 <= oi <= ni - |m.oldM| && ni + |m.newM| <= |block|
    requires Strip(block[oi + |m.oldM|..ni]) == e.oldText && Strip(block[ni + |m.newM|..]) == e.newText
    ensures ParseBlock(block, m) == Ok(e)
  {
    hide Strip;
  }

  // A printed block parses to its edit, whatever stands in front of its first
  // line break.
  lemma PrintedBlockParses(sfx: string, e: Edit, m: Format)
    requires Apart(m) && Printable(e, m) && !Contains(sfx, m.oldM) && !Contains(sfx, m.newM)
    ensures ParseBlock(sfx + "\n" + Lines(e, m), m) == Ok(e)
  {
    hide Strip;
    hide ParseBlock;
    var oi := |sfx| + 1;
    BlockMarkers(sfx, e, m);
    BlockSlices(sfx, e, m);
    StripLines(e.oldText);
    StripLines(e.newText);
    ParseBlockIs(sfx + "\n" + Lines(e, m), m, oi, oi + |m.oldM| + 1 + |e.oldText| + 1, e);
  }

  lemma BlockSlices(sfx: string, e: Edit, m: Format)
    ensures var block := sfx + "\n" + Lines(e, m); var oi := |sfx| + 1; var ni := oi + |m.oldM| + 1 + |e.oldText| + 1;
      block[oi + |m.oldM|..ni] == "\n" + e.oldText + "\n" && block[ni + |m.newM|..] == "\n" + e.newText + "\n"
  {
    var a := sfx + "\n" + m.oldM;
    var o, n := "\n" + e.oldText + "\n", "\n" + e.newText + "\n";
    assert sfx + "\n" + Lines(e, m) == a + o + m.newM + n;
  }

  // ---- the whole script ----

  // Prose that holds no Begin marker can still end with the start of one; then
  // the search stops early and a tail of the real marker is left in the block.
  lemma BeginFound(p: string, m: Format, later: string) returns (d: nat)
    requires Apart(m) && !Contains(p, m.begin)
    ensures d < |m.begin| && d <= |p| && Index(p + (m.begin + later), m.begin) == |p| - d
    ensures (p + (m.begin + later))[|p| - d + |m.begin|..] == m.begin[|m.begin| - d..] + later
  {
    var t := p + (m.begin + later);
    AtInfix(p, m.begin, later, 0, m.begin);
    Assoc(p, m.begin, later);
    IndexIsFirst(t, m.begin);
    var i := Index(t, m.begin);
    assert At(t, |p|, m.begin);
    if i + |m.begin| <= |p| { AtInLeft(p, m.begin + later, i, m.begin); }
    d := |p| - i;
  }

  lemma AtInLeft(p: string, later: string, i: int, w: string)
    requires At(p + later, i, w) && i + |w| <= |p|
    ensures At(p, i, w)
  {
    AtSlice(p + later, 0, |p|, i, w);
    assert (p + later)[0..|p|] == p;
  }

  lemma BeginTail(m: Format, d: nat)
    requires Apart(m) && d < |m.begin|
    ensures var sfx := m.begin[|m.begin| - d..];
      !Contains(sfx, m.oldM) && !Contains(sfx, m.newM) && !Contains(sfx, m.end)
  {
    var n := |m.begin|;
    var sfx := m.begin[n - d..n];
    if Contains(sfx, m.oldM) { PartContains(m.begin, n - d, n, m.oldM); }
    if Contains(sfx, m.newM) { PartContains(m.begin, n - d, n, m.newM); }
    if Contains(sfx, m.end) { PartContains(m.begin, n - d, n, m.end); }
    assert m.begin[n - d..] == sfx;
  }

  lemma PrintedStep(p: string, e: Edit, m: Format, tail: string)
    requires Apart(m) && Printable(e, m) && !Contains(p, m.begin)
    ensures ParseBlocks(p + (m.begin + "\n" + Lines(e, m) + (m.end + tail)), m) == Follow(Ok(e), ParseBlocks(tail, m))
  {
    hide ParseBlock;
    hide Lines;
    var later := "\n" + Lines(e, m) + (m.end + tail);
    var text := p + (m.begin + later);
    var d := BeginFound(p, m, later);
    BeginTail(m, d);
    var sfx := m.begin[|m.begin| - d..];
    var body := sfx + later;
    var block := sfx + "\n" + Lines(e, m);
    EndMarkerFirst(sfx, e, m, tail);
    FromOldIsLines(e, m, tail);
    BodyRegroup(sfx, Lines(e, m), m.end, tail);
    IndexIs(body, m.end, |block|);
    PrintedBlockParses(sfx, e, m);
    NextBlock(text, m, |p| - d, |block|);
    TextRegroup(p, m.begin, Lines(e, m), m.end + tail);
  }

  lemma BodyRegroup(sfx: string, lines: string, end: string, tail: string)
    ensures var body := sfx + ("\n" + lines + (end + tail)); var block := sfx + "\n" + lines;
      body == sfx + "\n" + (lines + (end + tail)) && body[..|block|] == block && body[|block| + |end|..] == tail
  {
    Assoc(sfx, "\n", lines + (end + tail));
    Assoc("\n", lines, end + tail);
    Assoc(sfx + "\n", lines, end + tail);
  }

  lemma TextRegroup(p: string, begin: string, lines: string, rest: string)
    ensures p + (begin + ("\n" + lines + rest)) == p + (begin + "\n" + lines + rest)
  {
    Assoc(begin, "\n" + lines, rest);
    Assoc(begin, "\n", lines);
  }

  // Reading a printed script gives the edits back.
  lemma {:induction false} PrintedParses(edits: seq<Edit>, prose: seq<string>, m: Format)
    requires Apart(m) && AllPrintable(edits, m) && |prose| == |edits| + 1
    requires forall p :: p in prose ==> !Contains(p, m.begin)
    ensures ParseBlocks(Print(edits, prose, m), m) == Ok(edits)
    decreases |edits|
  {
    hide ParseBlock;
    hide Lines;
    hide Printable;
    if edits == [] {
      assert prose[0] in prose;
      IndexIsFirst(prose[0], m.begin);
      NoBlock(prose[0], m);
    } else {
      var tail := Print(edits[1..], prose[1..], m);
      PrintedParses(edits[1..], prose[1..], m);
      PrintedStep(prose[0], edits[0], m, tail);
      assert Print(edits, prose, m) == prose[0] + (m.begin + "\n" + Lines(edits[0], m) + (m.end + tail));
      assert [edits[0]] + edits[1..] == edits;
    }
  }

  // ---- what parsing can return ----

  lemma StripPart(x: string) returns (i: nat, j: nat)
    ensures i <= j <= |x| && Strip(x) == x[i..j]
  {
    i := if StartsWith(x, "\n") then 1 else 0;
    var y := TrimPrefix(x, "\n");
    assert y == x[i..];
    var z := TrimSuffix(y, "\n");
    j := i + |z|;
    assert z == y[..|z|];
  }

  lemma StripContains(x: string, w: string)
    requires Contains(Strip(x), w)
    ensures Contains(x, w)
  {
    var i, j := StripPart(x);
    PartContains(x, i, j, w);
  }

  lemma StripPartContains(s: string, i: int, j: int, w: string)
    requires 0 <= i <= j <= |s| && Contains(Strip(s[i..j]), w)
    ensures Contains(s, w)
  {
    hide Strip;
    StripContains(s[i..j], w);
    PartContains(s, i, j, w);
  }

  lemma NotBeforeFirst(s: string, w: string, i: int, lo: int)
    requires First(s, w, i) && 0 <= lo <= i && w != ""
    ensures !Contains(Strip(s[lo..i]), w)
  {
    hide Strip;
    if Contains(Strip(s[lo..i]), w) {
      StripContains(s[lo..i], w);
      var k :| At(s[lo..i], k, w);
      AtSlice(s, lo, i, k, w);
    }
  }

  // The texts of an edit hold no marker that would have ended them.
  lemma BlockImage(block: string, m: Format)
    requires !Contains(block, m.end) && ParseBlock(block, m).Ok? && m.newM != ""
    ensures var e := ParseBlock(block, m).value;
      !Contains(e.oldText, m.end) && !Contains(e.newText, m.end) && !Contains(e.oldText, m.newM)
  {
    hide Strip;
    IndexIsFirst(block, m.oldM);
    IndexIsFirst(block, m.newM);
    var oi, ni := Index(block, m.oldM), Index(block, m.newM);
    var lo, hi := oi + |m.oldM|, ni + |m.newM|;
    assert block[hi..] == block[hi..|block|];
    if Contains(Strip(block[lo..ni]), m.end) { StripPartContains(block, lo, ni, m.end); }
    if Contains(Strip(block[hi..|block|]), m.end) { StripPartContains(block, hi, |block|, m.end); }
    NotBeforeFirst(block, m.newM, ni, lo);
  }

  lemma BeforeFirst(s: string, w: string, i: int)
    requires First(s, w, i) && w != ""
    ensures !Contains(s[..i], w)
  {
    assert s[..i] == s[0..i];
    if k :| At(s[..i], k, w) { AtSlice(s, 0, i, k, w); }
  }

  lemma {:induction false} BlocksImage(rest: string, m: Format)
    requires m.begin != "" && m.end != "" && m.newM != "" && ParseBlocks(rest, m).Ok?
    ensures forall e :: e in ParseBlocks(rest, m).value ==>
      !Contains(e.oldText, m.end) && !Contains(e.newText, m.end) && !Contains(e.oldText, m.newM)
    decreases |rest|
  {
    hide ParseBlock;
    IndexIsFirst(rest, m.begin);
    var i := Index(rest, m.begin);
    if i >= 0 {
      var body := rest[i + |m.begin|..];
      IndexIsFirst(body, m.end);
      var e := Index(body, m.end);
      if e >= 0 {
        BeforeFirst(body, m.end, e);
        BlockImage(body[..e], m);
        BlocksImage(body[e + |m.end|..], m);
      }
    }
  }

  // Parsing returns exactly the non-empty lists that can be printed: each one
  // comes back from its print, and nothing else is ever returned.
  lemma ParseImage(edits: seq<Edit>, m: Format)
    requires Apart(m)
    ensures (exists raw :: ParsedMarkers(raw, m) == Ok(edits)) <==> edits != [] && AllPrintable(edits, m)
  {
    if raw :| ParsedMarkers(raw, m) == Ok(edits) {
      BlocksImage(raw, m);
    }
    if edits != [] && AllPrintable(edits, m) {
      var prose := seq(|edits| + 1, i => "");
      PrintedParses(edits, prose, m);
      assert ParsedMarkers(Print(edits, prose, m), m) == Ok(edits);
    }
  }
}
