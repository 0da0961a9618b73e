// The edit script of cmd/fix/main.go: parsing the model's answer.
module EditScript {
  import opened Text
  import opened Wrappers

  datatype Edit = Edit(oldText: string, newText: string)

  datatype Fault = MissingEnd | MissingMarkers | NoEdits | EmptyOld(index: nat) | Identical(index: nat) | NotJson

  // Crashed is Go's panic: a slice with its bounds the wrong way round.
  datatype Result<T> = Ok(value: T) | Failed(fault: Fault) | Crashed

  // The four markers of a format; the program's are MARKERS.
  datatype Format = Format(begin: string, oldM: string, newM: string, end: string)

  const MARKERS := Format("*** Begin Edit ***", "*** Old ***", "*** New ***", "*** End Edit ***")

  function TrimPrefix(s: string, p: string): string { if StartsWith(s, p) then s[|p|..] else s }
  function TrimSuffix(s: string, p: string): string {
    if |p| <= |s| && s[|s| - |p|..] == p then s[..|s| - |p|] else s
  }

  // One line break off each end, where there is one.
  function Strip(s: string): string { TrimSuffix(TrimPrefix(s, "\n"), "\n") }

  ghost function ParseBlock(block: string, m: Format): Result<Edit> {
    var oi, ni := Index(block, m.oldM), Index(block, m.newM);
    IndexIsFirst(block, m.oldM);
    IndexIsFirst(block, m.newM);
    if oi < 0 || ni < 0 || ni < oi then Failed(MissingMarkers)
    else if ni < oi + |m.oldM| then Crashed
    else Ok(Edit(Strip(block[oi + |m.oldM|..ni]), Strip(block[ni + |m.newM|..])))
  }

  // A block's edit in front of what the rest of the text gives.
  function Follow(first: Result<Edit>, later: Result<seq<Edit>>): Result<seq<Edit>> {
    match first
    case Failed(f) => Failed(f)
    case Crashed => Crashed
    case Ok(edit) => if later.Ok? then Ok([edit] + later.value) else later
  }

  ghost function ParseBlocks(rest: string, m: Format): Result<seq<Edit>>
    requires m.begin != ""
    decreases |rest|
  {
    IndexIsFirst(rest, m.begin);
    var i := Index(rest, m.begin);
    if i < 0 then Ok([])
    else
      var body := rest[i + |m.begin|..];
      IndexIsFirst(body, m.end);
      var e := Index(body, m.end);
      if e < 0 then Failed(MissingEnd)
      else Follow(ParseBlock(body[..e], m), ParseBlocks(body[e + |m.end|..], m))
  }

  predicate Valid(e: Edit) { e.oldText != "" && e.oldText != e.newText }

  // The first edit that may not be applied decides the fault.
  function Validated(edits: seq<Edit>): (r: Result<seq<Edit>>)
    ensures r == Ok(edits) <==> edits != [] && forall e :: e in edits ==> Valid(e)
    ensures r.Ok? ==> r.value == edits
  {
    if edits == [] then Failed(NoEdits)
    else match FirstInvalid(edits, 0)
         case None => Ok(edits)
         case Some(i) => Failed(if edits[i].oldText == "" then EmptyOld(i) else Identical(i))
  }

  function FirstInvalid(edits: seq<Edit>, from: nat): (r: Option<nat>)
    requires from <= |edits|
    ensures r.None? <==> forall k :: from <= k < |edits| ==> Valid(edits[k])
    ensures r.Some? ==> from <= r.value < |edits| && !Valid(edits[r.value])
    ensures r.Some? ==> forall k :: from <= k < r.value ==> Valid(edits[k])
    decreases |edits| - from
  {
    if from == |edits| then None
    else if !Valid(edits[from]) then Some(from)
    else FirstInvalid(edits, from + 1)
  }

  ghost function ParsedMarkers(raw: string, m: Format): Result<seq<Edit>>
    requires m.begin != ""
  {
    match ParseBlocks(raw, m)
    case Ok(edits) => Validated(edits)
    case other => other
  }

  method ValidateEdits(edits: seq<Edit>) returns (r: Result<seq<Edit>>)
    ensures r == Validated(edits)
  {
    if |edits| == 0 { return Failed(NoEdits); }
    for i := 0 to |edits|
      invariant forall k :: 0 <= k < i ==> Valid(edits[k])
    {
      var e := edits[i];
      if e.oldText == "" { return Failed(EmptyOld(i)); }
      if e.oldText == e.newText { return Failed(Identical(i)); }
    }
    return Ok(edits);
  }

  // A parse that has collected `edits` so far and found `later` in the rest.
  function Prepend(edits: seq<Edit>, later: Result<seq<Edit>>): Result<seq<Edit>> {
    if later.Ok? then Ok(edits + later.value) else later
  }

  lemma PrependFollow(edits: seq<Edit>, edit: Edit, later: Result<seq<Edit>>)
    ensures Prepend(edits, Follow(Ok(edit), later)) == Prepend(edits + [edit], later)
  {
    if later.Ok? {
      assert edits + ([edit] + later.value) == edits + [edit] + later.value;
    }
  }

  lemma PrependUnits(edits: seq<Edit>, later: Result<seq<Edit>>)
    ensures Prepend([], later) == later && Prepend(edits, Ok([])) == Ok(edits)
  {
    assert edits + [] == edits;
    if later.Ok? { assert [] + later.value == later.value; }
  }

  lemma NextBlock(rest: string, m: Format, i: int, e: int)
    requires m.begin != "" && i == Index(rest, m.begin) && 0 <= i <= |rest| - |m.begin|
    requires e == Index(rest[i + |m.begin|..], m.end) && 0 <= e <= |rest| - (i + |m.begin|) - |m.end|
    ensures var body := rest[i + |m.begin|..];
      ParseBlocks(rest, m) == Follow(ParseBlock(body[..e], m), ParseBlocks(body[e + |m.end|..], m))
  {
    hide ParseBlock;
  }

  lemma NoBlock(rest: string, m: Format)
    requires m.begin != ""
    ensures Index(rest, m.begin) == -1 ==> ParseBlocks(rest, m) == Ok([])
    ensures var i := Index(rest, m.begin);
      0 <= i <= |rest| - |m.begin| && Index(rest[i + |m.begin|..], m.end) == -1 ==>
        ParseBlocks(rest, m) == Failed(MissingEnd)
  {
  }

  // The part of the loop body that takes one block apart.
  method SplitBlock(block: string, m: Format) returns (r: Result<Edit>)
    ensures r == ParseBlock(block, m)
  {
    hide TrimPrefix;
    hide TrimSuffix;
    var oi := FindFirst(block, m.oldM);
    var ni := FindFirst(block, m.newM);
    if oi < 0 || ni < 0 || ni < oi { return Failed(MissingMarkers); }
    if ni < oi + |m.oldM| { return Crashed; }
    var oldPart := TrimPrefix(block[oi + |m.oldM|..ni], "\n");
    oldPart := TrimSuffix(oldPart, "\n");
    var newPart := TrimPrefix(block[ni + |m.newM|..], "\n");
    newPart := TrimSuffix(newPart, "\n");
    assert ParseBlock(block, m).Ok?;
    r := Ok(Edit(oldPart, newPart));
  }

  method ParseMarkerEdits(raw: string, m: Format) returns (r: Result<seq<Edit>>)
    requires m.begin != ""
    ensures r == ParsedMarkers(raw, m)
  {
    hide ParseBlock;
    hide ParseBlocks;
    var edits: seq<Edit> := [];
    var rest := raw;
    ghost var goal := ParseBlocks(raw, m);
    PrependUnits(edits, goal);
    while true
      invariant goal == Prepend(edits, ParseBlocks(rest, m))
      decreases |rest|
    {
      NoBlock(rest, m);
      var i := FindFirst(rest, m.begin);
      if i < 0 { break; }
      var body := rest[i + |m.begin|..];
      var end := FindFirst(body, m.end);
      if end < 0 { return Failed(MissingEnd); }
      var block := body[..end];
      NextBlock(rest, m, i, end);
      rest := body[end + |m.end|..];
      var first := SplitBlock(block, m);
      if first.Failed? { return Failed(first.fault); }
      if first.Crashed? { return Crashed; }
      PrependFollow(edits, first.value, ParseBlocks(rest, m));
      edits := edits + [first.value];
    }
    PrependUnits(edits, Ok([]));
    r := ValidateEdits(edits);
  }

  // ---- the entry point: JSON first when the answer looks like JSON ----

  // White space in the sense of Unicode.
  predicate IsWhite(c: char) {
    '\U{0009}' <= c <= '\U{000D}' || c == ' ' || c == '\U{0085}' || c == '\U{00A0}' || c == '\U{1680}' ||
    '\U{2000}' <= c <= '\U{200A}' || c == '\U{2028}' || c == '\U{2029}' || c == '\U{202F}' ||
    c == '\U{205F}' || c == '\U{3000}'
  }

  function TrimLeft(s: string): string { if s != [] && IsWhite(s[0]) then TrimLeft(s[1..]) else s }
  function TrimRight(s: string): string {
    if s != [] && IsWhite(s[|s| - 1]) then TrimRight(s[..|s| - 1]) else s
  }
  function TrimSpace(s: string): string { TrimRight(TrimLeft(s)) }

  predicate LooksLikeJson(s: string) { StartsWith(s, "{") || StartsWith(s, "```json") }

  // unmarshal stands for cutting out the JSON object and decoding it.
  function JsonEdits(s: string, unmarshal: string -> Option<seq<Edit>>): Result<seq<Edit>> {
    match unmarshal(s)
    case None => Failed(NotJson)
    case Some(edits) => Validated(edits)
  }

  ghost function Parsed(raw: string, unmarshal: string -> Option<seq<Edit>>): Result<seq<Edit>> {
    var trimmed := TrimSpace(raw);
    if LooksLikeJson(trimmed) && JsonEdits(trimmed, unmarshal).Ok? then JsonEdits(trimmed, unmarshal)
    else ParsedMarkers(trimmed, MARKERS)
  }

  method ParseEdits(raw: string, unmarshal: string -> Option<seq<Edit>>) returns (r: Result<seq<Edit>>)
    ensures r == Parsed(raw, unmarshal)
    ensures r.Ok? ==> r.value != [] && forall e :: e in r.value ==> Valid(e)
    ensures var t := TrimSpace(raw);
      LooksLikeJson(t) && unmarshal(t).Some? && unmarshal(t).value != [] && (forall e :: e in unmarshal(t).value ==> Valid(e)) ==>
        r == Ok(unmarshal(t).value)
  {
    var trimmed := TrimSpace(raw);
    if StartsWith(trimmed, "{") || StartsWith(trimmed, "```json") {
      var decoded := unmarshal(trimmed);
      if decoded.Some? {
        var edits := ValidateEdits(decoded.value);
        if edits.Ok? { return edits; }
      }
    }
    r := ParseMarkerEdits(trimmed, MARKERS);
  }
}
