// Replacing parts of a text by a fixed placeholder. Each sanitising pass is
// described by the list of intervals it cuts out of its input.
module Rewriting {
  import opened Text

  datatype Cut = Cut(start: int, end: int)

  // The intervals are non-empty, inside s[from..], in order and disjoint.
  predicate Ordered(s: string, from: int, cuts: seq<Cut>)
    decreases |cuts|
  {
    if cuts == [] then 0 <= from <= |s|
    else 0 <= from <= cuts[0].start < cuts[0].end <= |s| && Ordered(s, cuts[0].end, cuts[1..])
  }

  // s[from..] with every cut replaced by mark.
  function Assemble(s: string, from: int, cuts: seq<Cut>, mark: string): string
    requires Ordered(s, from, cuts)
    decreases |cuts|
  {
    if cuts == [] then s[from..]
    else s[from..cuts[0].start] + mark + Assemble(s, cuts[0].end, cuts[1..], mark)
  }

  lemma {:induction false} OrderedBounds(s: string, from: int, cuts: seq<Cut>)
    requires Ordered(s, from, cuts)
    ensures forall c :: c in cuts ==> from <= c.start < c.end <= |s|
    ensures 0 <= from <= |s|
    decreases |cuts|
  {
    if cuts != [] {
      OrderedBounds(s, cuts[0].end, cuts[1..]);
      forall c | c in cuts ensures from <= c.start < c.end <= |s| {
        assert c == cuts[0] || c in cuts[1..];
      }
    }
  }

  lemma Skip(s: string, i: int, j: int, cuts: seq<Cut>, mark: string)
    requires 0 <= i <= j && Ordered(s, j, cuts)
    ensures Ordered(s, i, cuts)
    ensures Assemble(s, i, cuts, mark) == s[i..j] + Assemble(s, j, cuts, mark)
  {
    OrderedBounds(s, j, cuts);
    var k := if cuts == [] then |s| else cuts[0].start;
    assert s[i..k] == s[i..j] + s[j..k];
    if cuts != [] {
      Assoc(s[i..j], s[j..k], mark);
      Assoc(s[i..j], s[j..k] + mark, Assemble(s, cuts[0].end, cuts[1..], mark));
    }
  }

  lemma HasMember(cuts: seq<Cut>)
    ensures cuts != [] ==> exists c :: c in cuts
  {
    if cuts != [] { assert cuts[0] in cuts; }
  }

  // Two ordered lists with the same members are the same list.
  lemma {:induction false} OrderedUnique(s: string, from: int, xs: seq<Cut>, ys: seq<Cut>)
    requires Ordered(s, from, xs) && Ordered(s, from, ys)
    requires forall c :: c in xs <==> c in ys
    ensures xs == ys
    decreases |xs|
  {
    OrderedBounds(s, from, xs);
    OrderedBounds(s, from, ys);
    if xs == [] {
      HasMember(ys);
    } else {
      assert xs[0] in ys;
      OrderedBounds(s, xs[0].end, xs[1..]);
      OrderedBounds(s, ys[0].end, ys[1..]);
      assert forall c :: c in xs <==> c == xs[0] || c in xs[1..];
      assert forall c :: c in ys <==> c == ys[0] || c in ys[1..];
      assert ys[0] in xs;
      assert xs[0] == ys[0];
      forall c ensures c in xs[1..] <==> c in ys[1..] {}
      OrderedUnique(s, xs[0].end, xs[1..], ys[1..]);
      assert xs == [xs[0]] + xs[1..] && ys == [ys[0]] + ys[1..];
    }
  }
}
