// The round trip through the entry point, and the inputs the parser panics on.
module EditEntry {
  import opened Text
  import opened Wrappers
  import opened EditScript
  import opened EditRoundTrip

  // ---- the program's markers ----

  lemma ForeignCharAt(s: string, w: string, c: char, i: int)
    requires c in w && At(s, i, w)
    ensures c in s
  {
    AtIndexed(s, i, w);
    var k :| 0 <= k < |w| && w[k] == c;
    assert s[i + k] == c;
  }

  lemma ForeignChar(s: string, w: string, c: char)
    requires c in w && c !in s
    ensures !Contains(s, w)
  {
    if i :| At(s, i, w) { ForeignCharAt(s, w, c, i); }
  }

  lemma EndNotInBegin()
    ensures !Contains("*** Begin Edit ***", "*** End Edit ***")
  {
    var b, e := "*** Begin Edit ***", "*** End Edit ***";
    assert b[4] == 'B' && b[5] == 'e' && b[6] == 'g' && e[4] == 'E';
    forall i ensures !At(b, i, e) {
      if 0 <= i <= 2 { AtIndexed(b, i, e); }
    }
  }

  lemma OldAndNewApart()
    ensures !Contains("*** Begin Edit ***", "*** Old ***") && !Contains("*** Begin Edit ***", "*** New ***")
    ensures !Contains("*** Old ***", "*** New ***")
  {
    var b, o, n := "*** Begin Edit ***", "*** Old ***", "*** New ***";
    assert o[4] == 'O' && n[4] == 'N';
    assert 'O' !in b && 'N' !in b && 'N' !in o;
    ForeignChar(b, o, 'O');
    ForeignChar(b, n, 'N');
    ForeignChar(o, n, 'N');
  }

  lemma NoLineBreaks()
    ensures '\n' !in "*** Begin Edit ***" && '\n' !in "*** Old ***"
    ensures '\n' !in "*** New ***" && '\n' !in "*** End Edit ***"
  {
  }

  lemma MarkersApart()
    ensures Apart(MARKERS) && Bracketed(MARKERS)
  {
    OldAndNewApart();
    EndNotInBegin();
    NoLineBreaks();
    assert |MARKERS.begin| == 18 && |MARKERS.oldM| == |MARKERS.newM| == 11 && |MARKERS.end| == 16;
  }

  // ---- trimming a printed script trims its outer prose ----

  lemma {:induction false} TrimLeftOnto(p: string, c: char, rest: string)
    requires !IsWhite(c)
    ensures TrimLeft(p + ([c] + rest)) == TrimLeft(p) + ([c] + rest)
  {
    hide IsWhite;
    var t := p + ([c] + rest);
    if p == [] {
      assert t == [c] + rest;
    } else if IsWhite(p[0]) {
      assert t[1..] == p[1..] + ([c] + rest);
      TrimLeftOnto(p[1..], c, rest);
    }
  }

  lemma {:induction false} TrimRightOnto(a: string, q: string)
    requires a != [] && !IsWhite(a[|a| - 1])
    ensures TrimRight(a + q) == a + TrimRight(q)
  {
    hide IsWhite;
    var t := a + q;
    if q == [] {
      assert t == a;
    } else if IsWhite(q[|q| - 1]) {
      assert t[..|t| - 1] == a + q[..|q| - 1];
      TrimRightOnto(a, q[..|q| - 1]);
    }
  }

  lemma {:induction false} TrimmedSlice(p: string) returns (i: nat, j: nat)
    ensures i <= |p| && TrimLeft(p) == p[i..] && j <= |p| && TrimRight(p) == p[..j]
  {
    hide IsWhite;
    i, j := 0, |p|;
    assert p[0..] == p && p[..|p|] == p;
    while i < |p| && IsWhite(p[i])
      invariant i <= |p| && TrimLeft(p) == TrimLeft(p[i..])
    {
      i := i + 1;
    }
    while j > 0 && IsWhite(p[j - 1])
      invariant j <= |p| && TrimRight(p) == TrimRight(p[..j])
    {
      assert p[..j][..j - 1] == p[..j - 1];
      j := j - 1;
    }
  }

  lemma TrimmedFree(p: string, w: string)
    requires !Contains(p, w)
    ensures !Contains(TrimLeft(p), w) && !Contains(TrimRight(p), w)
  {
    var i, j := TrimmedSlice(p);
    assert p[i..] == p[i..|p|] && p[..j] == p[0..j];
    if Contains(p[i..|p|], w) { PartContains(p, i, |p|, w); }
    if Contains(p[0..j], w) { PartContains(p, 0, j, w); }
  }

  ghost predicate Bracketed(m: Format) {
    m.begin != "" && m.end != "" && !IsWhite(m.begin[0]) && !IsWhite(m.end[|m.end| - 1])
  }

  lemma TrimLeftPrint(edits: seq<Edit>, prose: seq<string>, m: Format)
    requires |prose| == |edits| + 1 && Bracketed(m)
    ensures TrimLeft(Print(edits, prose, m)) == Print(edits, prose[0 := TrimLeft(prose[0])], m)
  {
    hide Lines;
    hide IsWhite;
    if edits != [] {
      var more := Lines(edits[0], m) + (m.end + Print(edits[1..], prose[1..], m));
      var later := m.begin[1..] + ("\n" + more);
      BlockRegroup(m.begin, Lines(edits[0], m), m.end + Print(edits[1..], prose[1..], m));
      TrimLeftOnto(prose[0], m.begin[0], later);
      assert m.begin == [m.begin[0]] + m.begin[1..];
      Assoc([m.begin[0]], m.begin[1..], "\n" + more);
    }
  }

  lemma BlockRegroup(begin: string, lines: string, rest: string)
    ensures begin + "\n" + lines + rest == begin + ("\n" + (lines + rest))
  {
    Assoc(begin, "\n", lines);
    Assoc(begin, "\n" + lines, rest);
    Assoc("\n", lines, rest);
  }

  lemma {:induction false} TrimRightPrint(edits: seq<Edit>, prose: seq<string>, m: Format)
    requires |prose| == |edits| + 1 && Bracketed(m)
    ensures var k := |edits|; TrimRight(Print(edits, prose, m)) == Print(edits, prose[k := TrimRight(prose[k])], m)
    decreases |edits|
  {
    hide Lines;
    hide IsWhite;
    if edits != [] {
      var k := |edits|;
      var trimmed := prose[k := TrimRight(prose[k])];
      var front := prose[0] + (m.begin + "\n" + Lines(edits[0], m) + m.end);
      FrontRegroup(prose[0], m.begin + "\n" + Lines(edits[0], m), m.end, Print(edits[1..], prose[1..], m));
      FrontRegroup(prose[0], m.begin + "\n" + Lines(edits[0], m), m.end, Print(edits[1..], trimmed[1..], m));
      assert front[|front| - 1] == m.end[|m.end| - 1];
      TrimRightOnto(front, Print(edits[1..], prose[1..], m));
      TrimRightPrint(edits[1..], prose[1..], m);
      assert trimmed[1..] == prose[1..][k - 1 := TrimRight(prose[1..][k - 1])];
    }
  }

  lemma FrontRegroup(p: string, b: string, end: string, tail: string)
    ensures p + (b + (end + tail)) == p + (b + end) + tail
  {
    Assoc(b, end, tail);
    Assoc(p, b + end, tail);
  }

  // The answer of a model that follows the prompt, with any prose around its
  // blocks, is read as the edits it prints.
  lemma RoundTrip(edits: seq<Edit>, prose: seq<string>, m: Format)
    requires Apart(m) && Bracketed(m) && AllPrintable(edits, m) && |prose| == |edits| + 1
    requires forall p :: p in prose ==> !Contains(p, m.begin)
    ensures ParseBlocks(TrimSpace(Print(edits, prose, m)), m) == Ok(edits)
  {
    hide Lines;
    hide ParseBlock;
    hide IsWhite;
    var left := prose[0 := TrimLeft(prose[0])];
    var k := |edits|;
    var both := left[k := TrimRight(left[k])];
    TrimLeftPrint(edits, prose, m);
    TrimRightPrint(edits, left, m);
    TrimmedFree(prose[0], m.begin);
    TrimmedFree(left[k], m.begin);
    PrintedParses(edits, both, m);
  }

  lemma ParseUndoesPrint(edits: seq<Edit>, prose: seq<string>, unmarshal: string -> Option<seq<Edit>>)
    requires edits != [] && AllPrintable(edits, MARKERS) && |prose| == |edits| + 1
    requires forall p :: p in prose ==> !Contains(p, MARKERS.begin)
    requires var t := TrimSpace(Print(edits, prose, MARKERS)); LooksLikeJson(t) ==> !JsonEdits(t, unmarshal).Ok?
    ensures Parsed(Print(edits, prose, MARKERS), unmarshal) == Ok(edits)
  {
    hide Lines;
    MarkersApart();
    RoundTrip(edits, prose, MARKERS);
  }

  // ---- panics ----

  // The complete blocks of a text, up to the first one without End marker.
  ghost function Blocks(rest: string, m: Format): seq<string>
    requires m.begin != ""
    decreases |rest|
  {
    IndexIsFirst(rest, m.begin);
    var i := Index(rest, m.begin);
    if i < 0 then []
    else
      var body := rest[i + |m.begin|..];
      IndexIsFirst(body, m.end);
      var e := Index(body, m.end);
      if e < 0 then [] else [body[..e]] + Blocks(body[e + |m.end|..], m)
  }

  // The first New marker starts inside the first Old marker.
  ghost predicate Overlapping(block: string, m: Format) {
    0 <= Index(block, m.oldM) <= Index(block, m.newM) < Index(block, m.oldM) + |m.oldM|
  }

  // The first New marker starts behind the first Old marker.
  ghost predicate InOrder(block: string, m: Format) {
    0 <= Index(block, m.oldM) && Index(block, m.oldM) + |m.oldM| <= Index(block, m.newM)
  }

  // Some block overlaps, and the blocks in front of it are in order.
  ghost predicate Reached(blocks: seq<string>, m: Format) {
    exists k :: 0 <= k < |blocks| && Overlapping(blocks[k], m) && forall j :: 0 <= j < k ==> InOrder(blocks[j], m)
  }

  lemma ReachedAtHead(block: string, later: seq<string>, m: Format)
    ensures Reached([block] + later, m) <==>
      Overlapping(block, m) || (InOrder(block, m) && Reached(later, m))
  {
    hide InOrder;
    hide Overlapping;
    var all := [block] + later;
    if InOrder(block, m) && Reached(later, m) {
      var k :| 0 <= k < |later| && Overlapping(later[k], m) && forall j :: 0 <= j < k ==> InOrder(later[j], m);
      assert all[k + 1] == later[k];
      forall j | 0 <= j < k + 1 ensures InOrder(all[j], m) { if j > 0 { assert all[j] == later[j - 1]; } }
    }
    if Reached(all, m) {
      var k :| 0 <= k < |all| && Overlapping(all[k], m) && forall j :: 0 <= j < k ==> InOrder(all[j], m);
      assert all[0] == block;
      if k > 0 {
        assert all[k] == later[k - 1];
        forall j | 0 <= j < k - 1 ensures InOrder(later[j], m) { assert later[j] == all[j + 1]; }
      }
    }
    if Overlapping(block, m) { assert all[0] == block; }
  }

  lemma BlockPanics(block: string, m: Format)
    ensures ParseBlock(block, m).Crashed? <==> Overlapping(block, m)
    ensures ParseBlock(block, m).Ok? <==> InOrder(block, m)
  {
    hide Strip;
    IndexIsFirst(block, m.oldM);
    IndexIsFirst(block, m.newM);
  }

  // The parser panics exactly when it reaches such a block.
  lemma {:induction false} PanicsIff(raw: string, m: Format)
    requires m.begin != ""
    ensures ParseBlocks(raw, m).Crashed? <==> Reached(Blocks(raw, m), m)
    decreases |raw|
  {
    hide ParseBlock;
    hide Overlapping;
    hide InOrder;
    hide Reached;
    IndexIsFirst(raw, m.begin);
    var i := Index(raw, m.begin);
    if i < 0 {
      NoneReached(m);
    } else {
      var body := raw[i + |m.begin|..];
      IndexIsFirst(body, m.end);
      var e := Index(body, m.end);
      if e < 0 {
        NoneReached(m);
      } else {
        PanicsIff(body[e + |m.end|..], m);
        BlockPanics(body[..e], m);
        ReachedAtHead(body[..e], Blocks(body[e + |m.end|..], m), m);
      }
    }
  }

  // At the entry point: the answer is not taken as JSON, and its blocks reach
  // such a block.
  lemma EntryPanicsIff(raw: string, unmarshal: string -> Option<seq<Edit>>)
    ensures var t := TrimSpace(raw);
      Parsed(raw, unmarshal).Crashed? <==>
      !(LooksLikeJson(t) && JsonEdits(t, unmarshal).Ok?) && Reached(Blocks(t, MARKERS), MARKERS)
  {
    hide Reached;
    hide ParseBlocks;
    PanicsIff(TrimSpace(raw), MARKERS);
  }

  lemma NoneReached(m: Format)
    ensures !Reached([], m)
  {
  }

  // A family of such inputs: the two markers share their stars. Whatever
  // follows the block, and however JSON is decoded, the worker panics.
  lemma SharedStarsPanic(z: string, tail: string, unmarshal: string -> Option<seq<Edit>>)
    requires !Contains(z, MARKERS.end)
    ensures Parsed(Shared(z, tail, "*** Old " + "*** New ***", MARKERS), unmarshal).Crashed?
  {
    var u, n, m := "*** Old ", "*** New ***", MARKERS;
    MarkersApart();
    SharedLine(u, n);
    SharedBlockPanics(z, TrimRight(tail), u + n, m);
    SharedTrimmed(z, tail, u + n, m);
    NotJsonText(Shared(z, TrimRight(tail), u + n, m));
  }

  // A block whose first line is `line`, and what follows it.
  function Shared(z: string, tail: string, line: string, m: Format): string {
    m.begin + ("\n" + (line + "\n" + (z + "\n" + (m.end + tail))))
  }

  lemma NotJsonText(t: string)
    requires t != "" && t[0] == '*'
    ensures !LooksLikeJson(t)
  {
    assert "{"[0] == '{' && "```json"[0] == '`';
  }

  lemma SharedTrimmed(z: string, tail: string, line: string, m: Format)
    requires Bracketed(m)
    ensures TrimSpace(Shared(z, tail, line, m)) == Shared(z, TrimRight(tail), line, m)
  {
    hide IsWhite;
    hide TrimRight;
    var front := m.begin + ("\n" + (line + "\n" + (z + "\n" + m.end)));
    SharedFront(z, tail, line, m);
    SharedFront(z, TrimRight(tail), line, m);
    TrimRightOnto(front, tail);
    assert Shared(z, tail, line, m)[0] == m.begin[0];
    assert TrimLeft(Shared(z, tail, line, m)) == Shared(z, tail, line, m);
  }

  lemma SharedFront(z: string, tail: string, line: string, m: Format)
    ensures var front := m.begin + ("\n" + (line + "\n" + (z + "\n" + m.end)));
      Shared(z, tail, line, m) == front + tail && (m.end != "" ==> front[|front| - 1] == m.end[|m.end| - 1])
  {
    Assoc(z + "\n", m.end, tail);
    Assoc(line + "\n", z + "\n" + m.end, tail);
    Assoc("\n", line + "\n" + (z + "\n" + m.end), tail);
    Assoc(m.begin, "\n" + (line + "\n" + (z + "\n" + m.end)), tail);
  }

  lemma SharedLine(u: string, n: string)
    requires u == "*** Old " && n == "*** New ***"
    ensures First(u + n, "*** Old ***", 0) && First(u + n, n, 8) && !Contains(u + n, "*** End Edit ***")
  {
    OldInShared(u, n);
    NewInShared(u, n);
    NoEndInShared(u, n);
  }

  lemma OldInShared(u: string, n: string)
    requires u == "*** Old " && n == "*** New ***"
    ensures First(u + n, "*** Old ***", 0)
  {
    assert "*** Old ***" == u + "***" && n[..3] == "***";
    assert (u + n)[..11] == u + n[..3];
  }

  lemma NewInShared(u: string, n: string)
    requires u == "*** Old " && n == "*** New ***"
    ensures First(u + n, n, 8)
  {
    var line := u + n;
    assert 'N' !in u && n[0] != 'N' && n[1] != 'N' && n[2] != 'N' && n[3] != 'N' && n[4] == 'N';
    assert forall j :: 4 <= j < 8 ==> line[j] in u;
    assert forall j :: 8 <= j < 12 ==> line[j] == n[j - 8];
    assert forall j :: 4 <= j < 12 ==> line[j] != n[4];
    forall k | 0 <= k < 8 ensures !At(line, k, n) {
      AtIndexed(line, k, n);
      assert line[k + 4] != n[4];
    }
    assert line[8..8 + |n|] == n;
  }

  lemma NoEndInShared(u: string, n: string)
    requires u == "*** Old " && n == "*** New ***"
    ensures !Contains(u + n, "*** End Edit ***")
  {
    var e := "*** End Edit ***";
    assert e[4] == 'E' && 'E' !in u && 'E' !in n;
    ForeignChar(u + n, e, 'E');
  }

  // Where the markers of such a block are.
  lemma SharedBlock(z: string, tail: string, line: string, m: Format)
    requires Apart(m) && First(line, m.oldM, 0) && First(line, m.newM, 8)
    requires !Contains(z, m.end) && !Contains(line, m.end)
    ensures var body := "" + "\n" + (line + "\n" + (z + "\n" + (m.end + tail))); var e := 1 + |line| + 1 + |z| + 1;
      First(body, m.end, e) && First(body, m.oldM, 1) && First(body, m.newM, 9)
  {
    var l2 := z + "\n" + (m.end + tail);
    var l1 := line + "\n" + l2;
    FirstAtStart(m.end, tail);
    FirstBehind(z, m.end + tail, m.end, 0);
    FirstBehind(line, l2, m.end, |z| + 1);
    FirstBehind("", l1, m.end, |line| + 1 + |z| + 1);
    FirstInLeft(line, "\n" + l2, m.oldM, 0);
    FirstInLeft(line, "\n" + l2, m.newM, 8);
    Assoc(line, "\n", l2);
    FirstBehind("", l1, m.oldM, 0);
    FirstBehind("", l1, m.newM, 8);
  }

  lemma SharedBlockPanics(z: string, tail: string, line: string, m: Format)
    requires Apart(m) && First(line, m.oldM, 0) && First(line, m.newM, 8) && 8 < |m.oldM|
    requires !Contains(z, m.end) && !Contains(line, m.end)
    ensures ParsedMarkers(Shared(z, tail, line, m), m).Crashed?
  {
    hide ParseBlock;
    hide First;
    var l1 := line + "\n" + (z + "\n" + (m.end + tail));
    var body, e := "" + "\n" + l1, 1 + |line| + 1 + |z| + 1;
    var raw := m.begin + ("\n" + l1);
    FirstAtStart(m.begin, "\n" + l1);
    IndexIs(raw, m.begin, 0);
    assert raw[|m.begin|..] == body;
    SharedBlock(z, tail, line, m);
    IndexIs(body, m.end, e);
    MarkersFit(line, m);
    FirstInPrefix(body, e, m.oldM, 1);
    FirstInPrefix(body, e, m.newM, 9);
    IndexIs(body[..e], m.oldM, 1);
    IndexIs(body[..e], m.newM, 9);
    BlockPanics(body[..e], m);
    NextBlock(raw, m, 0, e);
  }

  lemma MarkersFit(line: string, m: Format)
    requires First(line, m.oldM, 0) && First(line, m.newM, 8)
    ensures |m.oldM| <= |line| && 8 + |m.newM| <= |line|
  {
  }

  lemma FirstInLeft(s: string, t: string, w: string, i: int)
    requires First(s, w, i)
    ensures First(s + t, w, i)
  {
    forall k | 0 <= k < i ensures !At(s + t, k, w) {
      if At(s + t, k, w) { AtInLeft(s, t, k, w); }
    }
    AtInfix("", s, t, i, w);
    assert "" + s + t == s + t;
  }
}
