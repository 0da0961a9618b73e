// Job and branch names of the controller and of the fix worker.
module Names {

  function Digit(d: nat): char
    requires d < 10
  {
    ('0' as int + d) as char
  }

  // The number in decimal, as %d prints it.
  function Decimal(n: nat): (s: string)
    ensures (|s| == 1 <==> n < 10) && s != "" && '-' !in s && '0' <= s[|s| - 1] <= '9'
  {
    if n < 10 then [Digit(n)] else Decimal(n / 10) + [Digit(n % 10)]
  }

  function TriageJobName(name: string): string { name + "-triage" }
  function FixJobName(name: string, attempt: nat): string { name + "-fix-" + Decimal(attempt) }
  function FixBranchName(issue: nat, attempt: nat): string {
    "bugfix/issue-" + Decimal(issue) + "-attempt-" + Decimal(attempt)
  }

  // The fix worker's own default; it gets the issue number as a text.
  function DefaultBranchName(issue: string, attempt: nat): string {
    "bugfix/issue-" + issue + "-attempt-" + Decimal(attempt)
  }

  // The value of a text of decimal digits.
  function Value(s: string): int {
    if s == [] then 0 else 10 * Value(s[..|s| - 1]) + (s[|s| - 1] as int - '0' as int)
  }

  lemma {:induction false} DecimalMeans(n: nat)
    ensures Value(Decimal(n)) == n && (n > 0 ==> Decimal(n)[0] != '0')
  {
    if n < 10 {
      assert Decimal(n)[..0] == [];
    } else {
      DecimalMeans(n / 10);
      assert Decimal(n)[..|Decimal(n)| - 1] == Decimal(n / 10);
    }
  }

  lemma {:induction false} DecimalInjective(m: nat, n: nat)
    requires Decimal(m) == Decimal(n)
    ensures m == n
  {
    var s, t := Decimal(m), Decimal(n);
    assert s[|s| - 1] == Digit(m % 10) && t[|t| - 1] == Digit(n % 10);
    assert m % 10 == n % 10;
    if m >= 10 && n >= 10 {
      assert s[..|s| - 1] == Decimal(m / 10) && t[..|t| - 1] == Decimal(n / 10);
      DecimalInjective(m / 10, n / 10);
    }
  }

  lemma LastAt(x: string, d: string, c: char)
    requires c !in d
    ensures var s := x + [c] + d; s[|x|] == c && forall k :: |x| < k < |s| ==> s[k] != c
  {
    var s := x + [c] + d;
    forall k | |x| < k < |s| ensures s[k] != c { assert s[k] == d[k - |x| - 1]; }
  }

  // A text splits in one way only at its last c.
  lemma SplitAtLast(x: string, d: string, y: string, e: string, c: char)
    requires c !in d && c !in e
    requires x + [c] + d == y + [c] + e
    ensures x == y && d == e
  {
    var s := x + [c] + d;
    LastAt(x, d, c);
    LastAt(y, e, c);
    assert |x| == |y|;
    assert s[..|x|] == x && (y + [c] + e)[..|y|] == y;
    assert s[|x| + 1..] == d && (y + [c] + e)[|y| + 1..] == e;
  }

  lemma FixJobNameParts(name: string, attempt: nat)
    ensures FixJobName(name, attempt) == (name + "-fix") + ['-'] + Decimal(attempt)
  {
  }

  lemma NamesLookLike()
    ensures TriageJobName("issue-7") == "issue-7-triage" && FixJobName("issue-7", 2) == "issue-7-fix-2"
    ensures FixBranchName(7, 2) == "bugfix/issue-7-attempt-2"
  {
    assert Decimal(7) == "7" && Decimal(2) == "2";
  }

  // Jobs of different resources or attempts never share a name.
  lemma FixJobNamesInjective(n: string, a: nat, m: string, b: nat)
    requires FixJobName(n, a) == FixJobName(m, b)
    ensures n == m && a == b
  {
    FixJobNameParts(n, a);
    FixJobNameParts(m, b);
    SplitAtLast(n + "-fix", Decimal(a), m + "-fix", Decimal(b), '-');
    DecimalInjective(a, b);
    assert (n + "-fix")[..|n|] == n && (m + "-fix")[..|m|] == m;
  }

  lemma TriageJobNamesInjective(n: string, m: string)
    requires TriageJobName(n) == TriageJobName(m)
    ensures n == m
  {
    assert TriageJobName(n)[..|n|] == n && TriageJobName(m)[..|m|] == m;
  }

  // One ends in a digit, the other in a letter.
  lemma RolesApart(n: string, a: nat, m: string)
    ensures FixJobName(n, a) != TriageJobName(m)
  {
    var f, t := FixJobName(n, a), TriageJobName(m);
    assert f[|f| - 1] == Decimal(a)[|Decimal(a)| - 1];
    assert t[|t| - 1] == 'e';
  }

  lemma BranchNamesInjective(i: nat, a: nat, j: nat, b: nat)
    requires FixBranchName(i, a) == FixBranchName(j, b)
    ensures i == j && a == b
  {
    var p := "bugfix/issue-";
    var x, y := p + Decimal(i) + "-attempt", p + Decimal(j) + "-attempt";
    assert FixBranchName(i, a) == x + ['-'] + Decimal(a);
    assert FixBranchName(j, b) == y + ['-'] + Decimal(b);
    SplitAtLast(x, Decimal(a), y, Decimal(b), '-');
    DecimalInjective(a, b);
    assert x[|p|..|x| - 8] == Decimal(i) && y[|p|..|y| - 8] == Decimal(j);
    DecimalInjective(i, j);
  }

  // Controller and worker name the branch alike.
  lemma BranchNamesAgree(issue: nat, attempt: nat)
    ensures FixBranchName(issue, attempt) == DefaultBranchName(Decimal(issue), attempt)
  {
  }
}
