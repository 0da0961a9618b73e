// What the parser takes an answer apart into, and which fault it reports.
module EditLaws {
  import opened Text
  import opened Wrappers
  import opened EditScript
  import opened EditRoundTrip
  import opened EditEntry

  // ---- trimming ----

  lemma WhiteByCode(c: char)
    ensures IsWhite(c) <==>
      9 <= c as int <= 13 || 0x2000 <= c as int <= 0x200A ||
      c as int in {0x20, 0x85, 0xA0, 0x1680, 0x2028, 0x2029, 0x202F, 0x205F, 0x3000}
  {
  }

  ghost predicate AllWhite(s: string) { forall i :: 0 <= i < |s| ==> IsWhite(s[i]) }

  ghost predicate Trimmed(s: string) { s == "" || (!IsWhite(s[0]) && !IsWhite(s[|s| - 1])) }

  lemma {:induction false} TrimLeftIs(s: string) returns (u: string)
    ensures s == u + TrimLeft(s) && AllWhite(u) && (TrimLeft(s) == "" || !IsWhite(TrimLeft(s)[0]))
  {
    hide IsWhite;
    if s != [] && IsWhite(s[0]) {
      u := TrimLeftIs(s[1..]);
      u := [s[0]] + u;
      assert s == [s[0]] + s[1..];
    } else {
      u := "";
    }
  }

  lemma {:induction false} TrimRightIs(s: string) returns (v: string)
    ensures s == TrimRight(s) + v && AllWhite(v) && (TrimRight(s) == "" || !IsWhite(TrimRight(s)[|TrimRight(s)| - 1]))
  {
    hide IsWhite;
    if s != [] && IsWhite(s[|s| - 1]) {
      v := TrimRightIs(s[..|s| - 1]);
      v := v + [s[|s| - 1]];
      assert s == s[..|s| - 1] + [s[|s| - 1]];
    } else {
      v := "";
    }
  }

  // White space goes at both ends, and nothing else.
  lemma TrimSpaceIs(s: string) returns (u: string, v: string)
    ensures s == u + TrimSpace(s) + v && AllWhite(u) && AllWhite(v) && Trimmed(TrimSpace(s))
  {
    u := TrimLeftIs(s);
    v := TrimRightIs(TrimLeft(s));
    hide IsWhite;
    var t := TrimSpace(s);
    assert t + v == TrimLeft(s);
    Assoc(u, t, v);
    if t != "" { assert t[0] == TrimLeft(s)[0]; }
  }

  // At most one line break goes at each end: it does when there is one.
  lemma StripIs(x: string) returns (u: string, v: string)
    ensures x == u + Strip(x) + v && u in {"", "\n"} && v in {"", "\n"}
    ensures u == "" ==> x == "" || x[0] != '\n'
    ensures v == "" ==> Strip(x) == "" || Strip(x)[|Strip(x)| - 1] != '\n'
  {
    var y := TrimPrefix(x, "\n");
    u := if StartsWith(x, "\n") then "\n" else "";
    if x != "" && x[0] == '\n' { assert x[..1] == "\n"; }
    assert x == u + y;
    var z := TrimSuffix(y, "\n");
    v := if |z| < |y| then "\n" else "";
    if y != "" && y[|y| - 1] == '\n' { assert y[|y| - 1..] == "\n"; }
    assert y == z + v;
    Assoc(u, z, v);
  }

  // ---- one block ----

  // Old text is what stands between the first Old and the first New marker, new
  // text what stands behind that, each without its outer line breaks; what
  // stands in front of the Old marker does not matter.
  lemma BlockIs(block: string, a: string, x: string, y: string, m: Format)
    requires block == a + m.oldM + x + m.newM + y
    requires First(block, m.oldM, |a|) && First(block, m.newM, |a| + |m.oldM| + |x|)
    ensures ParseBlock(block, m) == Ok(Edit(Strip(x), Strip(y)))
  {
    hide ParseBlock;
    hide Strip;
    hide First;
    var oi, ni := |a|, |a| + |m.oldM| + |x|;
    IndexIs(block, m.oldM, oi);
    IndexIs(block, m.newM, ni);
    BlockCuts(a, m.oldM, x, m.newM, y);
    ParseBlockIs(block, m, oi, ni, Edit(Strip(x), Strip(y)));
  }

  lemma BlockCuts(a: string, o: string, x: string, n: string, y: string)
    ensures var block, i := a + o + x + n + y, |a| + |o|; block[i..i + |x|] == x && block[i + |x| + |n|..] == y
  {
  }

  // ---- all blocks ----

  // Behind the last complete block a block begins that has no end.
  ghost predicate Unclosed(rest: string, m: Format)
    requires m.begin != ""
    decreases |rest|
  {
    IndexIsFirst(rest, m.begin);
    var i := Index(rest, m.begin);
    i >= 0 &&
    var body := rest[i + |m.begin|..];
    IndexIsFirst(body, m.end);
    var e := Index(body, m.end);
    e < 0 || Unclosed(body[e + |m.end|..], m)
  }

  ghost predicate AllInOrder(blocks: seq<string>, m: Format) {
    forall k :: 0 <= k < |blocks| ==> InOrder(blocks[k], m)
  }

  // Some block lacks a marker or has them the wrong way round, and the blocks
  // in front of it are in order.
  ghost predicate Misses(blocks: seq<string>, m: Format) {
    exists k :: MissesAt(blocks, m, k)
  }

  ghost predicate MissesAt(blocks: seq<string>, m: Format, k: int) {
    0 <= k < |blocks| && !InOrder(blocks[k], m) && !Overlapping(blocks[k], m) &&
    forall j :: 0 <= j < k ==> InOrder(blocks[j], m)
  }

  // One block in front moves every other one by one place.
  lemma MissesLater(block: string, later: seq<string>, m: Format, k: nat)
    ensures MissesAt([block] + later, m, k + 1) <==> InOrder(block, m) && MissesAt(later, m, k)
  {
    hide InOrder;
    hide Overlapping;
    var all := [block] + later;
    assert all[0] == block;
    if k < |later| {
      assert all[k + 1] == later[k];
      forall j | 0 <= j < k ensures all[j + 1] == later[j] {}
      if MissesAt(all, m, k + 1) {
        assert InOrder(all[0], m);
        forall j | 0 <= j < k ensures InOrder(later[j], m) { assert InOrder(all[j + 1], m); }
      }
      if InOrder(block, m) && MissesAt(later, m, k) {
        forall j | 0 <= j < k + 1 ensures InOrder(all[j], m) { if j > 0 { assert all[j] == later[j - 1]; } }
      }
    }
  }

  lemma MissesAtHead(block: string, later: seq<string>, m: Format)
    ensures Misses([block] + later, m) <==>
      (!InOrder(block, m) && !Overlapping(block, m)) || (InOrder(block, m) && Misses(later, m))
  {
    hide InOrder;
    hide Overlapping;
    var all := [block] + later;
    assert all[0] == block;
    if k :| MissesAt(later, m, k) { MissesLater(block, later, m, k); }
    if k :| MissesAt(all, m, k) {
      if k > 0 { MissesLater(block, later, m, k - 1); }
    }
    if !InOrder(block, m) && !Overlapping(block, m) { assert MissesAt(all, m, 0); }
  }

  lemma InOrderAtHead(block: string, later: seq<string>, m: Format)
    ensures AllInOrder([block] + later, m) <==> InOrder(block, m) && AllInOrder(later, m)
  {
    hide InOrder;
    var all := [block] + later;
    if AllInOrder(all, m) {
      assert InOrder(all[0], m);
      forall k | 0 <= k < |later| ensures InOrder(later[k], m) { assert InOrder(all[k + 1], m); }
    }
    if InOrder(block, m) && AllInOrder(later, m) {
      forall k | 0 <= k < |all| ensures InOrder(all[k], m) { if k > 0 { assert all[k] == later[k - 1]; } }
    }
  }

  lemma BlockMisses(block: string, m: Format)
    ensures ParseBlock(block, m) == Failed(MissingMarkers) <==> !InOrder(block, m) && !Overlapping(block, m)
    ensures ParseBlock(block, m).Failed? ==> ParseBlock(block, m) == Failed(MissingMarkers)
  {
    hide Strip;
    IndexIsFirst(block, m.oldM);
    IndexIsFirst(block, m.newM);
  }

  // The text is read when all its blocks are in order and the last one is
  // closed, block by block; else the first thing that is wrong decides.
  lemma {:induction false} BlocksDecide(raw: string, m: Format)
    requires m.begin != ""
    ensures var r, blocks := ParseBlocks(raw, m), Blocks(raw, m);
      (r.Ok? <==> AllInOrder(blocks, m) && !Unclosed(raw, m)) &&
      (r == Failed(MissingEnd) <==> AllInOrder(blocks, m) && Unclosed(raw, m)) &&
      (r == Failed(MissingMarkers) <==> Misses(blocks, m)) &&
      (r.Ok? ==> |r.value| == |blocks| && forall k :: 0 <= k < |blocks| ==> ParseBlock(blocks[k], m) == Ok(r.value[k]))
    decreases |raw|
  {
    hide ParseBlock;
    hide Overlapping;
    hide InOrder;
    hide Misses;
    hide AllInOrder;
    IndexIsFirst(raw, m.begin);
    var i := Index(raw, m.begin);
    NothingMissing(m);
    if i >= 0 {
      var body := raw[i + |m.begin|..];
      IndexIsFirst(body, m.end);
      var e := Index(body, m.end);
      if e >= 0 {
        BlocksDecide(body[e + |m.end|..], m);
        BlockPanics(body[..e], m);
        BlockMisses(body[..e], m);
        MissesAtHead(body[..e], Blocks(body[e + |m.end|..], m), m);
        InOrderAtHead(body[..e], Blocks(body[e + |m.end|..], m), m);
      }
    }
  }

  lemma NothingMissing(m: Format)
    ensures AllInOrder([], m) && !Misses([], m)
  {
  }

  // ---- validation and JSON ----

  // The first edit that may not be applied decides, and an empty old text
  // comes before one that equals the new text.
  lemma FaultIs(edits: seq<Edit>, i: nat)
    ensures Validated(edits) == Failed(NoEdits) <==> edits == []
    ensures Validated(edits) == Failed(EmptyOld(i)) <==>
      i < |edits| && edits[i].oldText == "" && forall k :: 0 <= k < i ==> Valid(edits[k])
    ensures Validated(edits) == Failed(Identical(i)) <==>
      i < |edits| && edits[i].oldText == edits[i].newText != "" && forall k :: 0 <= k < i ==> Valid(edits[k])
  {
    if i < |edits| && !Valid(edits[i]) && forall k :: 0 <= k < i ==> Valid(edits[k]) {
      assert FirstInvalid(edits, 0) == Some(i) by {
        var r := FirstInvalid(edits, 0);
        assert r.Some?;
      }
    }
  }

  // An answer that looks like JSON and decodes to a non-empty list of edits that
  // may be applied is that list; every other answer is read by its markers.
  lemma JsonFirst(raw: string, unmarshal: string -> Option<seq<Edit>>)
    ensures var t := TrimSpace(raw);
      var json := unmarshal(t);
      var taken := (StartsWith(t, "{") || StartsWith(t, "```json")) && json.Some? && json.value != [] &&
        forall e :: e in json.value ==> e.oldText != "" && e.oldText != e.newText;
      Parsed(raw, unmarshal) == if taken then Ok(json.value) else ParsedMarkers(t, MARKERS)
  {
    hide ParsedMarkers;
    hide TrimSpace;
  }
}
