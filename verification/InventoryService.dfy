/** The walk as the program has it: a loop over the lines that carries the brace depth and the string state
    along, and looks ahead over several lines for a `pub use`. */
module InventoryService {
  import opened Common
  import opened Text
  import opened InventoryText
  import opened InventoryScan
  import opened InventoryModel

  method PopImpls(stack: ImplStack, depth: int) returns (r: ImplStack)
    ensures r == PopEnded(stack, depth)
  {
    r := stack;
    while r != [] && depth <= r[|r| - 1].0
      invariant PopEnded(stack, depth) == PopEnded(r, depth)
    {
      r := r[..|r| - 1];
    }
  }

  method PushUseItems(items: seq<Item>, names: seq<string>, visibility: string, line: nat) returns (r: seq<Item>)
    ensures r == items + UseItems(names, visibility, line)
  {
    r := items;
    for k := 0 to |names|
      invariant r == items + UseItems(names, visibility, line)[..k]
    {
      r := r + [Item(names[k], Use, visibility, line)];
    }
    assert UseItems(names, visibility, line)[..|names|] == UseItems(names, visibility, line);
  }

  method PushUse(p: Parsers, items: seq<Item>, stmt: string, line: nat) returns (r: seq<Item>)
    ensures r == items + UseStatement(p, stmt, line)
  {
    var parsed := p.pubUse(stmt);
    match parsed
    case Some((visibility, names)) => r := PushUseItems(items, names, visibility, line);
    case None =>
      r := items;
      assert items + [] == items;
  }

  method PushLine(p: Parsers, items: seq<Item>, stack: ImplStack, trimmed: string, line: nat) returns (r: seq<Item>)
    ensures r == items + LineItems(p, stack, trimmed, line)
  {
    var parsed := p.pubItem(trimmed);
    match parsed
    case Some((visibility, kind, name)) =>
      if !kind.Use? {
        r := items + [Item(Qualified(stack, kind, name), kind, visibility, line)];
      } else {
        r := PushUse(p, items, trimmed, line);
      }
    case None =>
      r := items;
      assert items + [] == items;
  }

  /** What the loops carry along: before line i the depth is the sum over the lines so far, and the string
      state the one those lines end in. */
  ghost predicate Carried(scans: seq<Scan>, i: nat, depth: int, state: StringState)
    requires i <= |scans|
  {
    depth == DepthAt(scans, i) && state == EndState(scans[..i])
  }

  method ReadLine(lines: seq<string>, ghost scans: seq<Scan>, i: nat, depth: int, state: StringState)
    returns (scan: Scan)
    requires Scanned(lines, scans) && i < |lines| && Carried(scans, i, depth, state)
    ensures scan == scans[i] && Carried(scans, i + 1, depth + scan.net, scan.state)
  {
    assert LineScanned(lines, scans, i);
    scan := ScanLineCode(lines[i], state);
  }

  /** The lookahead.  It carries its own depth and string state. */
  method GatherUse(lines: seq<string>, ghost scans: seq<Scan>, start: nat, first: string, depth: int,
                   state: StringState)
    returns (end: nat, stmt: string, accDepth: int, accState: StringState)
    requires Scanned(lines, scans) && start < |lines| && Carried(scans, start + 1, depth, state)
    ensures (end, stmt) == Gather(scans, start, first)
    ensures end < |lines| && Carried(scans, end + 1, accDepth, accState)
  {
    end, stmt, accDepth, accState := start, first, depth, state;
    while true
      invariant start <= end < |lines|
      invariant Gather(scans, start, first) == Gather(scans, end, stmt)
      invariant Carried(scans, end + 1, accDepth, accState)
      decreases |lines| - end
    {
      var complete := StatementCompleteAtSemi(stmt);
      if complete || end + 1 >= |lines| {
        return;
      }
      var more := ReadLine(lines, scans, end + 1, accDepth, accState);
      end := end + 1;
      accState := more.state;
      accDepth := accDepth + more.net;
      stmt := PushCode(stmt, more.code);
    }
  }

  method PushCode(stmt: string, code: string) returns (r: string)
    ensures r == AddLine(stmt, code)
  {
    r := stmt;
    if Trim(code) != "" {
      r := r + " ";
      r := r + Trim(code);
    }
  }

  /** The part of the loop body behind all the early exits. */
  method DeclareLine(p: Parsers, lines: seq<string>, ghost scans: seq<Scan>, w: Walk, trimmed: string,
                     depth: int, net: int, state: StringState)
    returns (r: Walk, newDepth: int, newState: StringState)
    requires Scanned(lines, scans) && w.i < |lines| && depth == DepthAt(scans, w.i)
    requires Carried(scans, w.i + 1, depth + net, state)
    ensures r == CodeLine(p, scans, w, trimmed)
    ensures Carried(scans, r.i, newDepth, newState)
  {
    var inside := w;
    var ty := p.implType(trimmed);
    if ty.Some? {
      inside := w.(stack := w.stack + [(depth, ty.value)]);
    }
    if p.isPubUse(trimmed) {
      r, newDepth, newState := DeclareUse(p, lines, scans, inside, trimmed, depth + net, state);
      return;
    }
    newDepth, newState := depth + net, state;
    var items := PushLine(p, inside.items, inside.stack, trimmed, w.i + 1);
    var stack := PopImpls(inside.stack, newDepth);
    r := inside.(i := w.i + 1, stack := stack, items := items);
  }

  method DeclareUse(p: Parsers, lines: seq<string>, ghost scans: seq<Scan>, w: Walk, trimmed: string, depth: int,
                    state: StringState)
    returns (r: Walk, newDepth: int, newState: StringState)
    requires Scanned(lines, scans) && w.i < |lines| && Carried(scans, w.i + 1, depth, state)
    ensures r == UseLines(p, scans, w, trimmed)
    ensures Carried(scans, r.i, newDepth, newState)
  {
    var end, stmt;
    end, stmt, newDepth, newState := GatherUse(lines, scans, w.i, trimmed, depth, state);
    var items := PushUse(p, w.items, stmt, w.i + 1);
    var stack := PopImpls(w.stack, newDepth);
    r := w.(i := end + 1, stack := stack, items := items);
  }

  /** Behind a test attribute.  Where the line is a lone brace the program adds one to the depth, not the net
      count; on such a line the two are the same. */
  method SkipOrResume(lines: seq<string>, ghost scans: seq<Scan>, w: Walk, trimmed: string, depth: int, net: int)
    returns (r: Walk, newDepth: int)
    requires Scanned(lines, scans) && w.i < |lines| && net == scans[w.i].net && trimmed == Trim(scans[w.i].code)
    ensures r == AfterAttribute(scans, w, trimmed) && newDepth == depth + net
  {
    newDepth := depth + net;
    r := w.(i := w.i + 1);
    if "mod " <= trimmed {
      if '{' in trimmed {
        r := r.(skip := if net > 1 then net else 1, pending := false);
        return;
      }
      if trimmed[|trimmed| - 1] == ';' {
        r := r.(pending := false);
        return;
      }
      return;
    }
    if trimmed == "{" {
      LoneBrace(lines, scans, w.i);
      newDepth := depth + 1;
      r := r.(skip := 1, pending := false);
      return;
    }
    r := r.(pending := false);
  }

  /** One turn of the loop. */
  method TakeLine(p: Parsers, lines: seq<string>, ghost scans: seq<Scan>, w: Walk, depth: int, state: StringState)
    returns (r: Walk, newDepth: int, newState: StringState)
    requires Scanned(lines, scans) && w.i < |lines| && Carried(scans, w.i, depth, state)
    ensures r == Advance(p, scans, w) && Carried(scans, r.i, newDepth, newState)
  {
    var scan := ReadLine(lines, scans, w.i, depth, state);
    newDepth, newState := depth + scan.net, scan.state;
    var trimmed := Trim(scan.code);
    if w.skip > 0 {
      var skip := w.skip + scan.net;
      var stack := PopImpls(w.stack, newDepth);
      r := w.(i := w.i + 1, skip := if skip <= 0 then 0 else skip, stack := stack);
      return;
    }
    r := w.(i := w.i + 1);
    if trimmed == "" && newState.Code? {
      return;
    }
    if newState.Code? || trimmed != "" {
      if p.isCfgTest(trimmed) {
        r := r.(pending := true);
        return;
      }
      if "#[" <= trimmed {
        return;
      }
    }
    if w.pending && newState.Code? {
      r, newDepth := SkipOrResume(lines, scans, w, trimmed, depth, scan.net);
      return;
    }
    if newState.Code? || trimmed != "" {
      r, newDepth, newState := DeclareLine(p, lines, scans, w, trimmed, depth, scan.net, newState);
      return;
    }
    var stack := PopImpls(w.stack, newDepth);
    r := r.(stack := stack);
  }

  method ParsePublicItems(p: Parsers, lines: seq<string>) returns (items: seq<Item>)
    ensures items == Inventory(p, lines)
  {
    ghost var scans := Scans(lines);
    ScansAreScanned(lines);
    var w := Walk(0, 0, false, [], []);
    var fileBraceDepth := 0;
    var strState := Code;
    while w.i < |lines|
      invariant w.i <= |lines|
      invariant Carried(scans, w.i, fileBraceDepth, strState)
      invariant Inventory(p, lines) == Finish(p, scans, w)
      decreases |lines| - w.i
    {
      w, fileBraceDepth, strState := TakeLine(p, lines, scans, w, fileBraceDepth, strState);
    }
    return w.items;
  }

  // ---- a lone brace counts one -------------------------------------------------------------

  lemma {:induction false} TrimKeepsDepth(s: string)
    ensures Depth(Trim(s), '{', '}') == Depth(s, '{', '}')
  {
    TrimStartKeepsDepth(s);
    TrimEndKeepsDepth(TrimStart(s));
  }

  lemma {:induction false} TrimStartKeepsDepth(s: string)
    ensures Depth(TrimStart(s), '{', '}') == Depth(s, '{', '}')
  {
    if s != "" && IsWhitespace(s[0]) {
      TrimStartKeepsDepth(s[1..]);
      DepthCons(s[0], s[1..]);
      assert s == [s[0]] + s[1..];
    }
  }

  lemma {:induction false} TrimEndKeepsDepth(s: string)
    ensures Depth(TrimEnd(s), '{', '}') == Depth(s, '{', '}')
  {
    if s != "" && IsWhitespace(s[|s| - 1]) {
      TrimEndKeepsDepth(s[..|s| - 1]);
    }
  }

  lemma LoneBrace(lines: seq<string>, scans: seq<Scan>, i: nat)
    requires Scanned(lines, scans) && i < |lines| && Trim(scans[i].code) == "{"
    ensures scans[i].net == 1
  {
    assert LineScanned(lines, scans, i);
    NetIsDepthOfCode(lines[i], EndState(scans[..i]));
    TrimKeepsDepth(scans[i].code);
    assert "{"[..0] == "";
  }
}
