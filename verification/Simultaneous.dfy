// Edits at disjoint places: applying them one after another is replacing all
// of them at once, so their order does not matter.
module Simultaneous {
  import opened Text
  import opened EditScript
  import opened ApplyEdits

  // A text cut up into kept parts and the places of edits.
  datatype Piece = Kept(text: string) | Hole(edit: Edit)

  function Show(p: Piece, done: set<Edit>): string {
    match p
    case Kept(text) => text
    case Hole(e) => if e in done then e.newText else e.oldText
  }

  // The text when exactly the edits of `done` have been made, all at once.
  function Render(pieces: seq<Piece>, done: set<Edit>): string {
    if pieces == [] then "" else Show(pieces[0], done) + Render(pieces[1..], done)
  }

  // No proper suffix is a prefix: two occurrences never overlap.
  ghost predicate SelfFree(w: string) {
    forall d :: 0 < d < |w| ==> w[d..] != w[..|w| - d]
  }

  ghost predicate Distinct(edits: seq<Edit>) {
    forall i, j :: 0 <= i < j < |edits| ==> edits[i] != edits[j]
  }

  // Every edit is valid, does not overlap itself and has a place of its own.
  ghost predicate Placed(edits: seq<Edit>, pieces: seq<Piece>) {
    forall e :: e in edits ==> Valid(e) && SelfFree(e.oldText) && Hole(e) in pieces
  }

  lemma {:induction false} RenderConcat(a: seq<Piece>, b: seq<Piece>, done: set<Edit>)
    ensures Render(a + b, done) == Render(a, done) + Render(b, done)
  {
    if a == [] {
      assert a + b == b;
    } else {
      assert (a + b)[1..] == a[1..] + b;
      RenderConcat(a[1..], b, done);
      Assoc(Show(a[0], done), Render(a[1..], done), Render(b, done));
    }
  }

  lemma {:induction false} RenderSame(pieces: seq<Piece>, done: set<Edit>, e: Edit)
    requires Hole(e) !in pieces
    ensures Render(pieces, done + {e}) == Render(pieces, done)
  {
    if pieces != [] {
      RenderSame(pieces[1..], done, e);
    }
  }

  // What stands before and after place k.
  lemma RenderAround(pieces: seq<Piece>, k: nat, done: set<Edit>)
    requires k < |pieces|
    ensures Render(pieces, done) ==
      Render(pieces[..k], done) + Show(pieces[k], done) + Render(pieces[k + 1..], done)
  {
    assert pieces == pieces[..k] + [pieces[k]] + pieces[k + 1..];
    RenderConcat(pieces[..k] + [pieces[k]], pieces[k + 1..], done);
    RenderConcat(pieces[..k], [pieces[k]], done);
    assert Render([pieces[k]], done) == Show(pieces[k], done) + "";
  }

  // The sole occurrence of a text that does not overlap itself is its only one.
  lemma OnlyOccurrence(s: string, w: string, i: int, p: int)
    requires Sole(s, w, i) && SelfFree(w) && w != "" && At(s, p, w)
    ensures p == i
  {
    if i < p < i + |w| {
      var d := p - i;
      OverlapIsBorder(s, w, i, d);
    }
  }

  lemma OverlapIsBorder(s: string, w: string, i: int, d: int)
    requires At(s, i, w) && At(s, i + d, w) && 0 < d < |w|
    ensures w[d..] == w[..|w| - d]
  {
    AtIndexed(s, i, w);
    AtIndexed(s, i + d, w);
    forall k | 0 <= k < |w| - d ensures w[d + k] == w[k] {
      assert s[i + (d + k)] == w[d + k] && s[i + d + k] == w[k];
    }
  }

  // The place of an edit that is not made yet is an occurrence of its old text.
  lemma HoleOccurs(pieces: seq<Piece>, k: nat, done: set<Edit>, e: Edit)
    requires k < |pieces| && pieces[k] == Hole(e) && e !in done
    ensures At(Render(pieces, done), |Render(pieces[..k], done)|, e.oldText)
  {
    RenderAround(pieces, k, done);
    AtInfix(Render(pieces[..k], done), e.oldText, Render(pieces[k + 1..], done), 0, e.oldText);
  }

  lemma {:induction false} RenderLonger(pieces: seq<Piece>, j: nat, k: nat, done: set<Edit>)
    requires j < k <= |pieces|
    ensures |Render(pieces[..j], done)| + |Show(pieces[j], done)| <= |Render(pieces[..k], done)|
  {
    RenderAround(pieces[..k], j, done);
    assert pieces[..k][..j] == pieces[..j];
  }

  // Two places of the same edit would be two occurrences.
  lemma SolePlace(pieces: seq<Piece>, k: nat, done: set<Edit>, e: Edit, i: int)
    requires k < |pieces| && pieces[k] == Hole(e) && e !in done && Valid(e) && SelfFree(e.oldText)
    requires Sole(Render(pieces, done), e.oldText, i)
    ensures i == |Render(pieces[..k], done)|
    ensures Hole(e) !in pieces[..k] && Hole(e) !in pieces[k + 1..]
  {
    HoleOccurs(pieces, k, done, e);
    OnlyOccurrence(Render(pieces, done), e.oldText, i, |Render(pieces[..k], done)|);
    forall j | 0 <= j < |pieces| && j != k ensures pieces[j] != Hole(e) {
      if pieces[j] == Hole(e) {
        HoleOccurs(pieces, j, done, e);
        OnlyOccurrence(Render(pieces, done), e.oldText, i, |Render(pieces[..j], done)|);
        if j < k { RenderLonger(pieces, j, k, done); } else { RenderLonger(pieces, k, j, done); }
      }
    }
  }

  // One step of the loop makes one more edit.
  lemma StepMakesEdit(pieces: seq<Piece>, done: set<Edit>, e: Edit)
    requires Hole(e) in pieces && e !in done && Valid(e) && SelfFree(e.oldText)
    requires Matches(Render(pieces, done), e.oldText) == 1
    ensures Replaced(Render(pieces, done), e) == Render(pieces, done + {e})
  {
    var k :| 0 <= k < |pieces| && pieces[k] == Hole(e);
    var s := Render(pieces, done);
    MatchesOnceIff(s, e.oldText);
    var i :| Sole(s, e.oldText, i);
    SolePlace(pieces, k, done, e, i);
    IndexIs(s, e.oldText, i);
    RenderAround(pieces, k, done);
    RenderAround(pieces, k, done + {e});
    RenderSame(pieces[..k], done, e);
    RenderSame(pieces[k + 1..], done, e);
    assert s[..i] == Render(pieces[..k], done);
    assert s[i + |e.oldText|..] == Render(pieces[k + 1..], done);
  }

  function From(edits: seq<Edit>, i: nat): set<Edit>
    requires i <= |edits|
  {
    set e | e in edits[i..]
  }

  lemma {:induction false} RunMakesEdits(pieces: seq<Piece>, done: set<Edit>, edits: seq<Edit>, from: nat)
    requires from <= |edits| && Placed(edits, pieces) && Distinct(edits)
    requires forall k :: from <= k < |edits| ==> edits[k] !in done
    requires Rewritten(Render(pieces, done), edits, from).Done?
    ensures Rewritten(Render(pieces, done), edits, from).text == Render(pieces, done + From(edits, from))
    decreases |edits| - from
  {
    hide Render;
    hide Replaced;
    hide Matches;
    hide SelfFree;
    if from == |edits| {
      assert done + From(edits, from) == done;
    } else {
      var e := edits[from];
      StepMakesEdit(pieces, done, e);
      RunMakesEdits(pieces, done + {e}, edits, from + 1);
      assert edits[from..] == [e] + edits[from + 1..];
      assert done + {e} + From(edits, from + 1) == done + From(edits, from);
    }
  }

  // Edits at disjoint places of a file, when they apply, are made as if all at
  // once.
  lemma AppliesAtOnce(pieces: seq<Piece>, edits: seq<Edit>)
    requires Placed(edits, pieces) && Distinct(edits)
    requires Applied(Render(pieces, {}), edits).Done?
    ensures Applied(Render(pieces, {}), edits).text == Render(pieces, set e | e in edits)
  {
    RunMakesEdits(pieces, {}, edits, 0);
    assert edits[0..] == edits;
    assert {} + From(edits, 0) == set e | e in edits;
  }

  // So two orders that both apply give the same file.
  lemma OrderIrrelevant(pieces: seq<Piece>, edits: seq<Edit>, reordered: seq<Edit>)
    requires Placed(edits, pieces) && Distinct(edits) && Distinct(reordered)
    requires forall e :: e in edits <==> e in reordered
    requires Applied(Render(pieces, {}), edits).Done? && Applied(Render(pieces, {}), reordered).Done?
    ensures Applied(Render(pieces, {}), edits) == Applied(Render(pieces, {}), reordered)
  {
    AppliesAtOnce(pieces, edits);
    AppliesAtOnce(pieces, reordered);
    assert (set e | e in edits) == (set e | e in reordered);
  }

  // ---- old texts that overlap themselves ----

  // w laid over itself, d characters further on, matches where both are.
  ghost predicate Overlaps(w: string, d: nat) {
    0 < d < |w| && forall k :: d <= k < |w| ==> w[k] == w[k - d]
  }

  lemma SelfFreeIff(w: string)
    ensures SelfFree(w) <==> forall d: nat :: !Overlaps(w, d)
  {
    forall d: nat | 0 < d < |w| ensures Overlaps(w, d) <==> w[d..] == w[..|w| - d] {
      var x, y := w[d..], w[..|w| - d];
      if Overlaps(w, d) {
        forall k | 0 <= k < |x| ensures x[k] == y[k] { assert x[k] == w[d + k] && y[k] == w[d + k - d]; }
      }
      if x == y {
        forall k | d <= k < |w| ensures w[k] == w[k - d] { assert x[k - d] == w[k] && y[k - d] == w[k - d]; }
      }
    }
  }

  // A text in which w stands twice, d characters apart.
  function Doubled(w: string, d: nat): string
    requires d <= |w|
  {
    w[..d] + w
  }

  lemma DoubledIs(w: string, d: nat)
    requires Overlaps(w, d)
    ensures Doubled(w, d) == w + w[|w| - d..]
  {
    var s, t := Doubled(w, d), w + w[|w| - d..];
    forall k | 0 <= k < |s| ensures s[k] == t[k] {}
  }

  lemma DoubledOccurs(w: string, d: nat)
    requires Overlaps(w, d)
    ensures var s := Doubled(w, d); At(s, 0, w) && At(s, d, w) && Matches(s, w) == 1
  {
    DoubledIs(w, d);
    FoundOnce(w, w[|w| - d..]);
    assert Doubled(w, d)[d..d + |w|] == w;
  }

  lemma FoundOnce(w: string, v: string)
    requires 0 < |v| < |w|
    ensures At(w + v, 0, w) && Index(w + v, w) == 0 && Matches(w + v, w) == 1
  {
    var s := w + v;
    assert s[0..|w|] == w && s[|w|..] == v;
    IndexIs(s, w, 0);
    IndexIsFirst(v, w);
  }

  // A count of one means a single occurrence, in every text, exactly for the
  // old texts that do not overlap themselves.
  lemma OneMatchIff(w: string)
    requires w != ""
    ensures (forall s, i, j :: Matches(s, w) == 1 && At(s, i, w) && At(s, j, w) ==> i == j) <==> SelfFree(w)
  {
    if SelfFree(w) {
      forall s, i, j | Matches(s, w) == 1 && At(s, i, w) && At(s, j, w) ensures i == j {
        MatchesOnceIff(s, w);
        var k :| Sole(s, w, k);
        OnlyOccurrence(s, w, k, i);
        OnlyOccurrence(s, w, k, j);
      }
    } else {
      SelfFreeIff(w);
      var d: nat :| Overlaps(w, d);
      DoubledOccurs(w, d);
    }
  }

  // The edits of w are made where they belong: an edit that is alone, and has a
  // place in the file, is made there when it applies.
  ghost predicate MadeInPlace(w: string) {
    forall n: string, pieces: seq<Piece> ::
      Valid(Edit(w, n)) && Hole(Edit(w, n)) in pieces && Applied(Render(pieces, {}), [Edit(w, n)]).Done? ==>
        Applied(Render(pieces, {}), [Edit(w, n)]).text == Render(pieces, {Edit(w, n)})
  }

  // This, too, holds exactly for the old texts that do not overlap themselves.
  lemma MadeInPlaceIff(w: string)
    requires w != ""
    ensures MadeInPlace(w) <==> SelfFree(w)
  {
    if SelfFree(w) {
      forall n: string, pieces: seq<Piece> | Valid(Edit(w, n)) && Hole(Edit(w, n)) in pieces &&
        Applied(Render(pieces, {}), [Edit(w, n)]).Done?
        ensures Applied(Render(pieces, {}), [Edit(w, n)]).text == Render(pieces, {Edit(w, n)})
      {
        AppliesAtOnce(pieces, [Edit(w, n)]);
        assert (set e | e in [Edit(w, n)]) == {Edit(w, n)};
      }
    } else {
      SelfFreeIff(w);
      var d: nat :| Overlaps(w, d);
      Misplaced(w, d);
    }
  }

  // The replacement begins with a character that w does not begin with, so it
  // shows where it was put.
  lemma Misplaced(w: string, d: nat)
    requires Overlaps(w, d)
    ensures !MadeInPlace(w)
  {
    var c := if w[0] == 'a' then 'b' else 'a';
    var e := Edit(w, [c]);
    var pieces := [Kept(w[..d]), Hole(e)];
    var v := w[|w| - d..];
    RenderTwo(Kept(w[..d]), Hole(e), {});
    RenderTwo(Kept(w[..d]), Hole(e), {e});
    DoubledIs(w, d);
    assert Render(pieces, {}) == w + v;
    AppliedInFront(w, v, e);
    assert Render(pieces, {e})[0] == w[0] && ([c] + v)[0] == c;
    assert pieces[1] == Hole(e);
  }

  lemma AppliedInFront(w: string, v: string, e: Edit)
    requires 0 < |v| < |w| && e.oldText == w && |e.newText| == 1
    ensures Applied(w + v, [e]) == Done(e.newText + v)
  {
    var s := w + v;
    FoundOnce(w, v);
    assert s[..0] + e.newText + s[|w|..] == e.newText + v;
    assert Rewritten(e.newText + v, [e], 1) == Done(e.newText + v);
    assert Rewritten(s, [e], 0) == Done(e.newText + v);
  }

  // For example, the place behind the first character of "aaa" is missed.
  lemma OverlapMisplaces()
    ensures var e := Edit("aa", "b"); var pieces := [Kept("a"), Hole(e)];
      Render(pieces, {}) == "aaa" && Render(pieces, {e}) == "ab" && Applied("aaa", [e]) == Done("ba")
  {
    var e := Edit("aa", "b");
    RenderTwo(Kept("a"), Hole(e), {});
    RenderTwo(Kept("a"), Hole(e), {e});
    AppliedInFront("aa", "a", e);
    assert "aa" + "a" == "aaa";
  }

  lemma RenderTwo(p: Piece, q: Piece, done: set<Edit>)
    ensures Render([p, q], done) == Show(p, done) + Show(q, done)
  {
    assert [p, q][1..] == [q];
    assert Render([q], done) == Show(q, done) + Render([], done);
  }
}
