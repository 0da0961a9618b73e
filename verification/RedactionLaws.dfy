// Laws of redaction, for every text.
module RedactionLaws {
  import opened Text
  import opened Base64Scan

  // ---- barriers separate ----

  lemma {:induction false} SpanLenStopsAtBarrier(a: string, c: char, b: string)
    requires Barrier(c)
    ensures SpanLen(a + [c] + b) == SpanLen(a)
  {
    if a == [] {
      assert (a + [c] + b)[0] == c;
    } else {
      assert (a + [c] + b)[1..] == a[1..] + [c] + b;
      SpanLenStopsAtBarrier(a[1..], c, b);
    }
  }

  lemma SpanThen(u: string, v: string, rule: Rule)
    requires u != [] && IsBase64(u[0]) && SpanLen(u + v) == |u|
    ensures Redact(u + v, rule) == (if rule.qualifies(u) then rule.mark else u) + Redact(v, rule)
    ensures HitCount(u + v, rule) == (if rule.qualifies(u) then 1 else 0) + HitCount(v, rule)
  {
    assert (u + v)[..|u|] == u && (u + v)[|u|..] == v;
  }

  lemma FourParts(x: string, r: string, c: string, q: string)
    ensures x + (r + c + q) == x + r + c + q
  {
  }

  // Redaction works between barriers: a barrier character is kept, and the
  // texts on its two sides are redacted independently.
  lemma {:induction false} BarrierSplits(a: string, c: char, b: string, rule: Rule)
    requires Barrier(c)
    ensures Redact(a + [c] + b, rule) == Redact(a, rule) + [c] + Redact(b, rule)
    ensures HitCount(a + [c] + b, rule) == HitCount(a, rule) + HitCount(b, rule)
    decreases |a|
  {
    var s := a + [c] + b;
    if a == [] {
      assert s[1..] == b;
    } else if !IsBase64(a[0]) {
      assert s[1..] == a[1..] + [c] + b;
      BarrierSplits(a[1..], c, b, rule);
    } else {
      SpanLenStopsAtBarrier(a, c, b);
      var e := SpanLen(a);
      var u, v := a[..e], a[e..];
      assert a == u + v && s == u + (v + [c] + b);
      SpanThen(u, v, rule);
      SpanThen(u, v + [c] + b, rule);
      BarrierSplits(v, c, b, rule);
      FourParts(if rule.qualifies(u) then rule.mark else u, Redact(v, rule), [c], Redact(b, rule));
    }
  }

  lemma SplitsAfterBarrier(a: string, b: string, rule: Rule)
    requires a != [] && Barrier(a[|a| - 1])
    ensures Redact(a + b, rule) == Redact(a, rule) + Redact(b, rule)
    ensures HitCount(a + b, rule) == HitCount(a, rule) + HitCount(b, rule)
  {
    var u, c := a[..|a| - 1], a[|a| - 1];
    BarrierSplits(u, c, "", rule);
    BarrierSplits(u, c, b, rule);
    assert u + [c] == a && a + "" == a;
    assert Redact("", rule) == "" && Redact(u, rule) + [c] + "" == Redact(u, rule) + [c];
  }

  lemma SplitsBeforeBarrier(a: string, b: string, rule: Rule)
    requires b != [] && Barrier(b[0])
    ensures Redact(a + b, rule) == Redact(a, rule) + Redact(b, rule)
    ensures HitCount(a + b, rule) == HitCount(a, rule) + HitCount(b, rule)
  {
    var c, v := b[0], b[1..];
    BarrierSplits(a, c, v, rule);
    assert b == [c] + v;
    Assoc(a, [c], v);
    assert HitCount(a + b, rule) == HitCount(a, rule) + HitCount(v, rule);
    assert !IsBase64(b[0]);
    assert HitCount(b, rule) == HitCount(v, rule);
    Assoc(Redact(a, rule), [c], Redact(v, rule));
  }

  // ---- between two barriers ----

  ghost predicate Blank(s: string) { forall i :: 0 <= i < |s| ==> IsSpace(s[i]) }
  ghost predicate Free(s: string) { forall i :: 0 <= i < |s| ==> !Barrier(s[i]) }
  ghost predicate IsCore(s: string) { s != [] && IsSpan(s, 0, |s|) }

  lemma {:induction false} BlankKept(lead: string, t: string, rule: Rule)
    requires Blank(lead)
    ensures Redact(lead + t, rule) == lead + Redact(t, rule)
    ensures HitCount(lead + t, rule) == HitCount(t, rule)
  {
    if lead == [] {
      assert lead + t == t;
    } else {
      assert (lead + t)[1..] == lead[1..] + t;
      BlankKept(lead[1..], t, rule);
    }
  }

  lemma SpanLenOfCore(core: string, trail: string)
    requires IsCore(core) && Blank(trail)
    ensures SpanLen(core + trail) == |core|
  {
    var t := core + trail;
    SpanLenIsSpan(t);
    SpanLenIsLongest(t, |core|);
    assert forall i :: |core| <= i < |t| ==> t[i] == trail[i - |core|];
  }

  // Blanks around a span stay, the span is replaced exactly when it qualifies.
  lemma Field(lead: string, core: string, trail: string, rule: Rule)
    requires Blank(lead) && Blank(trail) && IsCore(core)
    ensures Redact(lead + core + trail, rule) ==
      lead + (if rule.qualifies(core) then rule.mark else core) + trail
    ensures HitCount(lead + core + trail, rule) == if rule.qualifies(core) then 1 else 0
  {
    var t := core + trail;
    SpanLenOfCore(core, trail);
    assert t[..|core|] == core && t[|core|..] == trail;
    BlankKept(trail, "", rule);
    assert trail + "" == trail;
    BlankKept(lead, t, rule);
    assert lead + core + trail == lead + t;
  }

  // Every text is, between its barriers, blank or a span with blanks around.
  lemma {:induction false} SplitField(f: string) returns (lead: string, core: string, trail: string)
    requires Free(f)
    ensures f == lead + core + trail && Blank(lead) && Blank(trail)
    ensures core == [] || IsCore(core)
    decreases |f|
  {
    if f == [] {
      lead, core, trail := [], [], [];
    } else if IsSpace(f[0]) {
      lead, core, trail := SplitField(f[1..]);
      lead := [f[0]] + lead;
      assert f == [f[0]] + f[1..];
    } else if IsSpace(f[|f| - 1]) {
      lead, core, trail := SplitField(f[..|f| - 1]);
      trail := trail + [f[|f| - 1]];
      assert f == f[..|f| - 1] + [f[|f| - 1]];
    } else {
      lead, core, trail := [], f, [];
    }
  }

  // ---- idempotence ----

  // A mark is inert when redaction keeps it and it is closed by barriers.
  ghost predicate Inert(rule: Rule) {
    var m := rule.mark;
    |m| >= 2 && Barrier(m[0]) && Barrier(m[|m| - 1]) && Redact(m, rule) == m && HitCount(m, rule) == 0
  }

  lemma InertBetweenBlanks(lead: string, trail: string, rule: Rule)
    requires Inert(rule) && Blank(lead) && Blank(trail)
    ensures var t := lead + rule.mark + trail; Redact(t, rule) == t && HitCount(t, rule) == 0
  {
    var m := rule.mark;
    NothingToRedact(rule);
    hide Redact;
    hide HitCount;
    BlankKept(lead, "", rule);
    BlankKept(trail, "", rule);
    assert trail + "" == trail && lead + "" == lead;
    SplitsBeforeBarrier(lead, m, rule);
    SplitsAfterBarrier(lead + m, trail, rule);
  }

  lemma FieldIdempotent(f: string, rule: Rule)
    requires Free(f) && Inert(rule)
    ensures var r := Redact(f, rule); Redact(r, rule) == r && HitCount(r, rule) == 0
  {
    var lead, core, trail := SplitField(f);
    if core == [] {
      assert f == (lead + trail) + "";
      BlankKept(lead + trail, "", rule);
    } else {
      Field(lead, core, trail, rule);
      if rule.qualifies(core) {
        InertBetweenBlanks(lead, trail, rule);
      }
    }
  }

  // Redacting twice is redacting once; the second pass finds nothing.
  lemma {:induction false} RedactionIdempotent(s: string, rule: Rule)
    requires Inert(rule)
    ensures var r := Redact(s, rule); Redact(r, rule) == r && HitCount(r, rule) == 0
    decreases |s|
  {
    if i :| 0 <= i < |s| && Barrier(s[i]) {
      var a, c, b := s[..i], s[i], s[i + 1..];
      assert s == a + [c] + b;
      BarrierSplits(a, c, b, rule);
      RedactionIdempotent(a, rule);
      RedactionIdempotent(b, rule);
      BarrierSplits(Redact(a, rule), c, Redact(b, rule), rule);
    } else {
      FieldIdempotent(s, rule);
    }
  }

  // ---- chunking ----

  // The surroundings of a maximal span: up to the barriers on both sides only
  // blanks, so the text splits into three independent parts.
  lemma LeftOfField(p: string, f: string, rule: Rule)
    requires p == [] || Barrier(p[|p| - 1])
    ensures Redact(p + f, rule) == Redact(p, rule) + Redact(f, rule)
    ensures HitCount(p + f, rule) == HitCount(p, rule) + HitCount(f, rule)
  {
    if p == [] { assert p + f == f; } else { SplitsAfterBarrier(p, f, rule); }
  }

  lemma AroundField(p: string, f: string, q: string, rule: Rule)
    requires p == [] || Barrier(p[|p| - 1])
    requires q == [] || Barrier(q[0])
    ensures Redact(p + f + q, rule) == Redact(p, rule) + Redact(f, rule) + Redact(q, rule)
    ensures HitCount(p + f + q, rule) == HitCount(p, rule) + HitCount(f, rule) + HitCount(q, rule)
  {
    LeftOfField(p, f, rule);
    if q == [] {
      assert p + f + q == p + f;
    } else {
      SplitsBeforeBarrier(p + f, q, rule);
    }
  }

  lemma NoBase64Before(s: string, a: int, b: int, l: int)
    requires IsSpan(s, a, b) && 0 < l <= a && Blank(s[l..a]) && IsBase64(s[l - 1])
    ensures !Maximal(s, a, b)
  {
    assert forall i :: l <= i < a ==> s[i] == s[l..a][i - l];
    assert IsSpan(s, l - 1, b);
  }

  lemma NoBase64After(s: string, a: int, b: int, r: int)
    requires IsSpan(s, a, b) && b <= r < |s| && Blank(s[b..r]) && IsBase64(s[r])
    ensures !Maximal(s, a, b)
  {
    assert forall i :: b <= i < r ==> s[i] == s[b..r][i - b];
    assert IsSpan(s, a, r + 1);
  }

  // The barriers nearest to a maximal span: only blanks lie between.
  lemma FieldOf(s: string, a: int, b: int) returns (l: int, r: int)
    requires Maximal(s, a, b)
    ensures 0 <= l <= a && b <= r <= |s|
    ensures Blank(s[l..a]) && Blank(s[b..r])
    ensures (l == 0 || Barrier(s[l - 1])) && (r == |s| || Barrier(s[r]))
  {
    l, r := a, b;
    while l > 0 && !Barrier(s[l - 1])
      invariant 0 <= l <= a && Blank(s[l..a])
    {
      if IsBase64(s[l - 1]) { NoBase64Before(s, a, b, l); }
      assert s[l - 1..a] == [s[l - 1]] + s[l..a];
      l := l - 1;
    }
    while r < |s| && !Barrier(s[r])
      invariant b <= r <= |s| && Blank(s[b..r])
    {
      if IsBase64(s[r]) { NoBase64After(s, a, b, r); }
      assert s[b..r + 1] == s[b..r] + [s[r]];
      r := r + 1;
    }
  }

  // What surrounds u in p + u + q: blanks up to the barriers in p and in q.
  ghost predicate Encloses(p: string, q: string, l: int, r: int) {
    0 <= l <= |p| && 0 <= r <= |q| && Blank(p[l..]) && Blank(q[..r]) &&
    (l == 0 || Barrier(p[l - 1])) && (r == |q| || Barrier(q[r]))
  }

  lemma MaximalIsEnclosed(p: string, u: string, q: string) returns (l: int, r: int)
    requires Maximal(p + u + q, |p|, |p| + |u|)
    ensures Encloses(p, q, l, r) && IsCore(u)
  {
    var s, b := p + u + q, |p| + |u|;
    var hi;
    l, hi := FieldOf(s, |p|, b);
    r := hi - b;
    PartsOf(p, u, q, l, r);
    SpanIsCore(s, |p|, b);
  }

  lemma PartsOf(p: string, u: string, q: string, l: int, r: int)
    requires 0 <= l <= |p| && 0 <= r <= |q|
    ensures var s, b := p + u + q, |p| + |u|;
      s[l..|p|] == p[l..] && s[|p|..b] == u && s[b..b + r] == q[..r] &&
      (l > 0 ==> s[l - 1] == p[l - 1]) && (r < |q| ==> s[b + r] == q[r])
  {
  }

  lemma SpanIsCore(s: string, a: int, b: int)
    requires IsSpan(s, a, b)
    ensures IsCore(s[a..b])
  {
  }

  lemma EnclosedIsMaximal(p: string, v: string, q: string, l: int, r: int)
    requires Encloses(p, q, l, r) && IsCore(v)
    ensures Maximal(p + v + q, |p|, |p| + |v|)
  {
    var t, a, b := p + v + q, |p|, |p| + |v|;
    assert forall i :: a <= i < b ==> t[i] == v[i - a];
    assert IsSpan(t, a, b);
    forall x, y | x <= a && b <= y && IsSpan(t, x, y) ensures x == a && y == b {
      Assoc(p, v, q);
      NothingBefore(p, v + q, l, x, y);
      NothingBehind(p + v, q, r, x, y);
    }
  }

  // A span cannot start in the blanks in front of position |p|, nor reach over
  // them and the barrier.
  lemma NothingBefore(p: string, rest: string, l: int, x: int, y: int)
    requires 0 <= l <= |p| && Blank(p[l..]) && (l == 0 || Barrier(p[l - 1]))
    requires IsSpan(p + rest, x, y) && x <= |p| < y
    ensures x == |p|
  {
    var t := p + rest;
    assert l > 0 ==> Barrier(t[l - 1]);
    forall i | l <= i < |p| ensures IsSpace(t[i]) { assert t[i] == p[l..][i - l]; }
  }

  lemma NothingBehind(front: string, q: string, r: int, x: int, y: int)
    requires 0 <= r <= |q| && Blank(q[..r]) && (r == |q| || Barrier(q[r]))
    requires IsSpan(front + q, x, y) && x < |front| <= y
    ensures y == |front|
  {
    var t, n := front + q, |front|;
    assert r < |q| ==> Barrier(t[n + r]);
    forall i | n <= i < n + r ensures IsSpace(t[i]) { assert t[i] == q[..r][i - n]; }
  }

  lemma RegroupField(p: string, u: string, q: string, l: int, r: int)
    requires 0 <= l <= |p| && 0 <= r <= |q|
    ensures p + u + q == p[..l] + (p[l..] + u + q[..r]) + q[r..]
  {
  }

  lemma EnclosedField(p: string, u: string, q: string, l: int, r: int, rule: Rule)
    requires Encloses(p, q, l, r) && IsCore(u)
    ensures Redact(p + u + q, rule) ==
      Redact(p[..l], rule) + (p[l..] + (if rule.qualifies(u) then rule.mark else u) + q[..r]) + Redact(q[r..], rule)
    ensures HitCount(p + u + q, rule) ==
      HitCount(p[..l], rule) + (if rule.qualifies(u) then 1 else 0) + HitCount(q[r..], rule)
  {
    hide Redact;
    hide HitCount;
    RegroupField(p, u, q, l, r);
    Field(p[l..], u, q[..r], rule);
    AroundField(p[..l], p[l..] + u + q[..r], q[r..], rule);
  }

  // The characters of a text that are not blanks.
  function Solid(s: string): string {
    if s == [] then [] else Solid(s[..|s| - 1]) + (if IsSpace(s[|s| - 1]) then [] else [s[|s| - 1]])
  }

  lemma {:induction false} SolidConcat(a: string, b: string)
    ensures Solid(a + b) == Solid(a) + Solid(b)
  {
    if b == [] {
      assert a + b == a;
    } else {
      assert (a + b)[..|a + b| - 1] == a + b[..|b| - 1];
      SolidConcat(a, b[..|b| - 1]);
    }
  }

  lemma {:induction false} SolidOfBlank(w: string)
    requires Blank(w)
    ensures Solid(w) == ""
  {
    if w != [] { SolidOfBlank(w[..|w| - 1]); }
  }

  lemma SolidChunks(c1: string, w: string, c2: string)
    requires Blank(w)
    ensures Solid(c1 + w + c2) == Solid(c1 + c2)
  {
    SolidConcat(c1, c2);
    SolidConcat(c1 + w, c2);
    SolidConcat(c1, w);
    SolidOfBlank(w);
    assert Solid(c1) + "" == Solid(c1);
  }

  lemma {:induction false} CountSolid(s: string, p: char -> bool)
    requires forall c :: IsSpace(c) ==> !p(c)
    ensures Count(Solid(s), p) == Count(s, p)
  {
    if s != [] {
      var front, last := s[..|s| - 1], s[|s| - 1];
      CountSolid(front, p);
      if IsSpace(last) {
        assert Solid(s) == Solid(front);
      } else {
        CountConcat(Solid(front), [last], p);
        assert [last][..0] == [];
      }
    }
  }

  lemma LooksSolid(u: string, v: string)
    requires Solid(u) == Solid(v)
    ensures Looks(u) <==> Looks(v)
  {
    hide Solid;
    SameCount(u, v, IsBase64);
    SameCount(u, v, IsSpecial);
    SameCount(u, v, IsUpper);
    SameCount(u, v, IsLower);
  }

  lemma SameCount(u: string, v: string, p: char -> bool)
    requires Solid(u) == Solid(v) && forall c :: IsSpace(c) ==> !p(c)
    ensures Count(u, p) == Count(v, p)
  {
    CountSolid(u, p);
    CountSolid(v, p);
  }

  // However a maximal span is broken up by blanks, and put together again in
  // another way: it stays a maximal span, it qualifies as before, and when it
  // qualifies redaction returns the same, in any surroundings.
  lemma RechunkingInvariant(p: string, u: string, v: string, q: string, rule: Rule)
    requires rule.qualifies == Looks
    requires Maximal(p + u + q, |p|, |p| + |u|) && IsCore(v) && Solid(u) == Solid(v)
    ensures Maximal(p + v + q, |p|, |p| + |v|) && (Looks(v) <==> Looks(u))
    ensures HitCount(p + v + q, rule) == HitCount(p + u + q, rule)
    ensures Looks(u) ==> Redact(p + v + q, rule) == Redact(p + u + q, rule)
  {
    var l, r := MaximalIsEnclosed(p, u, q);
    EnclosedIsMaximal(p, v, q, l, r);
    LooksSolid(u, v);
    hide Looks;
    hide Redact;
    hide HitCount;
    hide Maximal;
    EnclosedField(p, u, q, l, r, rule);
    EnclosedField(p, v, q, l, r, rule);
  }

  // In particular, blanks put at one place strictly inside a qualifying span,
  // and so at any number of places, one after another, change nothing.
  lemma ChunkingInvariant(x: string, w: string, y: string, a: int, b: int, rule: Rule)
    requires rule.qualifies == Looks
    requires Maximal(x + y, a, b) && Looks((x + y)[a..b]) && a < |x| < b
    requires Blank(w)
    ensures Redact(x + w + y, rule) == Redact(x + y, rule)
    ensures HitCount(x + w + y, rule) == HitCount(x + y, rule)
    ensures Maximal(x + w + y, a, b + |w|) && Looks((x + w + y)[a..b + |w|])
  {
    var p, u, v, q := Chunked(x, w, y, a, b);
    Rechunked(x + y, x + w + y, p, u, v, q, rule);
  }

  // Lines that end in CR LF, or start with a tab, are such blanks.
  lemma LinesAreChunks(x: string, y: string, a: int, b: int, rule: Rule)
    requires rule.qualifies == Looks
    requires Maximal(x + y, a, b) && Looks((x + y)[a..b]) && a < |x| < b
    ensures Redact(x + "\r\n\t" + y, rule) == Redact(x + y, rule)
  {
    ChunkingInvariant(x, "\r\n\t", y, a, b, rule);
  }

  lemma Rechunked(s: string, t: string, p: string, u: string, v: string, q: string, rule: Rule)
    requires s == p + u + q && t == p + v + q && rule.qualifies == Looks && Looks(u)
    requires Maximal(s, |p|, |p| + |u|) && IsCore(v) && Solid(u) == Solid(v)
    ensures Maximal(t, |p|, |p| + |v|) && Looks(v)
    ensures Redact(t, rule) == Redact(s, rule) && HitCount(t, rule) == HitCount(s, rule)
  {
    RechunkingInvariant(p, u, v, q, rule);
  }

  // The span before and behind the insertion, and what surrounds it.
  lemma Chunked(x: string, w: string, y: string, a: int, b: int) returns (p: string, u: string, v: string, q: string)
    requires IsSpan(x + y, a, b) && a < |x| < b && Blank(w)
    ensures x + y == p + u + q && |p| == a && |p| + |u| == b && u == (x + y)[a..b]
    ensures x + w + y == p + v + q && |p| + |v| == b + |w| && v == (x + w + y)[a..b + |w|]
    ensures IsCore(v) && Solid(u) == Solid(v)
  {
    var front, c1, c2, behind := x[..a], x[a..], y[..b - |x|], y[b - |x|..];
    assert x == front + c1 && y == c2 + behind;
    SpanIsCore(x + y, a, b);
    CutAround(front, c1, w, c2, behind);
    p, u, v, q := front, c1 + c2, c1 + w + c2, behind;
    ChunkedIsCore(c1, w, c2);
    SolidChunks(c1, w, c2);
  }

  lemma CutAround(p: string, c1: string, w: string, c2: string, q: string)
    ensures var s, a, b := p + c1 + (c2 + q), |p|, |p| + |c1| + |c2|; s == p + (c1 + c2) + q && s[a..b] == c1 + c2
    ensures var t, a, b := p + c1 + w + (c2 + q), |p|, |p| + |c1| + |w| + |c2|;
      t == p + (c1 + w + c2) + q && t[a..b] == c1 + w + c2
  {
  }

  lemma ChunkedIsCore(c1: string, w: string, c2: string)
    requires IsCore(c1 + c2) && Blank(w) && c1 != [] && c2 != []
    ensures IsCore(c1 + w + c2)
  {
    var t, u := c1 + c2, c1 + w + c2;
    assert u[0] == t[0] && u[|u| - 1] == t[|t| - 1];
    forall i | 0 <= i < |u| ensures !Barrier(u[i]) {
      if i < |c1| { assert u[i] == t[i]; }
      else if i < |c1| + |w| { assert u[i] == w[i - |c1|]; }
      else { assert u[i] == t[i - |w|]; }
    }
  }

  // ---- bounds ----

  // Each replacement costs at least MIN_LEN characters and, but for the last,
  // a separator; the placeholder is nine characters longer than that.
  lemma {:induction false} RedactionBounds(t: string)
    ensures (MIN_LEN + 1) * HitCount(t, BASE64) <= |t| + 1
    ensures |Redact(t, BASE64)| <= |t| + (|BLOB| - MIN_LEN) * HitCount(t, BASE64)
    ensures |BLOB| - MIN_LEN == 9
    decreases |t|
  {
    assert |BLOB| == 49;
    if t != [] {
      if !IsBase64(t[0]) {
        RedactionBounds(t[1..]);
      } else {
        var e := SpanLen(t);
        CountBound(t[..e], IsBase64);
        RedactionBounds(t[e..]);
        if e < |t| {
          GapAfterSpan(t);
          RedactionBounds(t[e + 1..]);
          assert t[e..][1..] == t[e + 1..];
        }
      }
    }
  }

  lemma {:induction false} GapAfterSpan(t: string)
    requires SpanLen(t) < |t|
    ensures !IsBase64(t[SpanLen(t)])
  {
    if !Barrier(t[0]) && SpanLen(t[1..]) > 0 {
      GapAfterSpan(t[1..]);
    }
  }
}
