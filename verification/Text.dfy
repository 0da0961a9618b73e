// Search in texts. A text is the sequence of its characters.
module Text {

  // w occurs in s at position i.
  predicate At(s: string, i: int, w: string) {
    0 <= i && i + |w| <= |s| && s[i..i + |w|] == w
  }

  ghost predicate Contains(s: string, w: string) {
    exists i :: At(s, i, w)
  }

  // The first position at or after `from` where w occurs, or -1.
  function IndexFrom(s: string, w: string, from: nat): (r: int)
    ensures r == -1 || from <= r
    ensures r >= 0 ==> At(s, r, w) && forall k :: from <= k < r ==> !At(s, k, w)
    ensures r == -1 ==> forall k :: from <= k ==> !At(s, k, w)
    decreases |s| - from
  {
    if from + |w| > |s| then -1
    else if s[from..from + |w|] == w then from
    else IndexFrom(s, w, from + 1)
  }

  ghost predicate First(s: string, w: string, i: int) {
    At(s, i, w) && forall k :: 0 <= k < i ==> !At(s, k, w)
  }

  // Where w first occurs in s, or -1.
  ghost function Index(s: string, w: string): int {
    if i :| First(s, w, i) then i else -1
  }

  method FindFirst(s: string, w: string) returns (i: int)
    ensures i == Index(s, w) && (i == -1 || 0 <= i <= |s| - |w|)
  {
    i := IndexFrom(s, w, 0);
    IndexIsFirst(s, w);
  }

  lemma IndexIsFirst(s: string, w: string)
    ensures var r := Index(s, w);
      (r == -1 && !Contains(s, w)) || (0 <= r <= |s| - |w| && First(s, w, r))
  {
    var i := IndexFrom(s, w, 0);
    if i >= 0 { assert First(s, w, i); }
  }

  predicate StartsWith(s: string, w: string) { |w| <= |s| && s[..|w|] == w }

  // An occurrence is a property of the window it covers: it can be carried
  // into any text that agrees on that window.
  lemma AtInfix(a: string, m: string, b: string, i: int, w: string)
    requires 0 <= i && i + |w| <= |m|
    ensures At(a + m + b, |a| + i, w) <==> At(m, i, w)
  {
    assert (a + m + b)[|a| + i..|a| + i + |w|] == m[i..i + |w|];
  }

  lemma AtIndexed(s: string, i: int, w: string)
    requires 0 <= i && i + |w| <= |s|
    ensures At(s, i, w) <==> forall k :: 0 <= k < |w| ==> s[i + k] == w[k]
  {
    if forall k :: 0 <= k < |w| ==> s[i + k] == w[k] {
      assert s[i..i + |w|] == w;
    }
    if At(s, i, w) {
      forall k | 0 <= k < |w| ensures s[i + k] == w[k] {
        assert s[i..i + |w|][k] == s[i + k];
      }
    }
  }

  lemma IndexIs(s: string, w: string, r: int)
    requires First(s, w, r)
    ensures Index(s, w) == r
  {
    IndexIsFirst(s, w);
  }

  lemma Assoc(a: string, b: string, c: string)
    ensures a + (b + c) == (a + b) + c
  {
  }

  lemma AtSlice(s: string, i: int, j: int, k: int, w: string)
    requires 0 <= i <= j <= |s|
    ensures At(s[i..j], k, w) <==> 0 <= k && k + |w| <= j - i && At(s, i + k, w)
  {
    if 0 <= k && k + |w| <= j - i {
      AtIndexed(s[i..j], k, w);
      AtIndexed(s, i + k, w);
      assert forall q :: i + k <= q < i + k + |w| ==> s[q] == s[i..j][q - i];
    }
  }
}
