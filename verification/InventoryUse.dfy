/** A `pub use` over several lines: what the lookahead takes, where the walk goes on, and that the way the statement is
    broken into lines does not matter. */
module InventoryUse {
  import opened Common
  import opened Text
  import opened InventoryText
  import opened InventoryScan
  import opened InventoryModel
  import opened InventoryTheorems
  import opened InventoryInstances
  import S = InventoryService

  // ---- what the lookahead takes ------------------------------------------------------------

  /** The statement as far as line `end`: its trimmed lines joined by single spaces, blank ones left out. */
  function Upto(scans: seq<Scan>, start: nat, first: string, end: nat): string
    requires start <= end < |scans|
    decreases end
  {
    if end == start then first
    else
      var front, last := Upto(scans, start, first, end - 1), Trim(scans[end].code);
      if last == "" then front else front + " " + last
  }

  /** The lookahead takes the lines up to the first at which the statement is complete, or to the end of the file, and
      puts them together. */
  lemma {:induction false} GatherStopsAtTheSemicolon(scans: seq<Scan>, start: nat, first: string)
    requires start < |scans|
    ensures var (end, stmt) := Gather(scans, start, first);
      && stmt == Upto(scans, start, first, end)
      && (StatementComplete(stmt) || end == |scans| - 1)
      && forall e :: start <= e < end ==> !StatementComplete(Upto(scans, start, first, e))
  {
    GatherFrom(scans, start, first, start, first);
  }

  ghost predicate Incomplete(scans: seq<Scan>, start: nat, first: string, from: nat, to: nat)
    requires start <= from && to <= |scans|
  {
    forall e :: from <= e < to ==> !StatementComplete(Upto(scans, start, first, e))
  }

  lemma {:induction false} GatherFrom(scans: seq<Scan>, start: nat, first: string, at: nat, stmt: string)
    requires start <= at < |scans| && stmt == Upto(scans, start, first, at)
    ensures var (end, all) := Gather(scans, at, stmt);
      && all == Upto(scans, start, first, end)
      && (StatementComplete(all) || end == |scans| - 1)
      && Incomplete(scans, start, first, at, end)
    decreases |scans| - at
  {
    if !StatementComplete(stmt) && at + 1 < |scans| {
      GatherFrom(scans, start, first, at + 1, AddLine(stmt, scans[at + 1].code));
      IncompleteFrom(scans, start, first, at, Gather(scans, at, stmt).0);
    }
  }

  lemma {:induction false} IncompleteFrom(scans: seq<Scan>, start: nat, first: string, at: nat, end: nat)
    requires start <= at < end <= |scans| && !StatementComplete(Upto(scans, start, first, at))
    requires Incomplete(scans, start, first, at + 1, end)
    ensures Incomplete(scans, start, first, at, end)
  {
  }

  /** And it is the only such end. */
  lemma {:induction false} GatherEndsAt(scans: seq<Scan>, start: nat, first: string, end: nat, stmt: string)
    requires start <= end < |scans| && stmt == Upto(scans, start, first, end) && StatementComplete(stmt)
    requires Incomplete(scans, start, first, start, end)
    ensures Gather(scans, start, first) == (end, stmt)
  {
    GatherStopsAtTheSemicolon(scans, start, first);
  }

  // ---- where the walk goes on --------------------------------------------------------------

  /** A trimmed line that begins a `pub use` and is nothing else. */
  predicate BeginsUse(p: Parsers, trimmed: string) {
    trimmed != "" && !p.isCfgTest(trimmed) && !("#[" <= trimmed) && p.implType(trimmed).None? && p.isPubUse(trimmed)
  }

  /** The walk stands, in plain code, on a line with this text. */
  ghost predicate StandsOn(scans: seq<Scan>, w: Walk, trimmed: string) {
    w.i < |scans| && w.skip == 0 && !w.pending && scans[w.i].state.Code? && Trim(scans[w.i].code) == trimmed
  }

  lemma {:induction false} UseIsTaken(p: Parsers, scans: seq<Scan>, w: Walk, trimmed: string, end: nat, stmt: string)
    requires StandsOn(scans, w, trimmed) && BeginsUse(p, trimmed) && Gather(scans, w.i, trimmed) == (end, stmt)
    ensures Advance(p, scans, w) == BehindUse(p, scans, w, end, stmt)
  {
  }

  /** The names of the statement are listed next, in their order, each with its visibility and with the number of the
      statement's first line. */
  lemma {:induction false} UseNamesAreListed(p: Parsers, scans: seq<Scan>, w: Walk, trimmed: string, end: nat,
                                             stmt: string, visibility: string, names: seq<string>, k: nat)
    requires StandsOn(scans, w, trimmed) && BeginsUse(p, trimmed)
    requires w.i <= end < |scans| && stmt == Upto(scans, w.i, trimmed, end) && StatementComplete(stmt)
    requires Incomplete(scans, w.i, trimmed, w.i, end)
    requires p.pubUse(stmt) == Some((visibility, names)) && k < |names|
    ensures |w.items| + k < |Finish(p, scans, w)|
    ensures Finish(p, scans, w)[|w.items| + k] == Item(names[k], Use, visibility, w.i + 1)
  {
    GatherEndsAt(scans, w.i, trimmed, end, stmt);
    UseIsTaken(p, scans, w, trimmed, end, stmt);
    NamesBehind(p, scans, w, end, stmt, visibility, names, k);
    ListedStays(p, scans, BehindUse(p, scans, w, end, stmt));
    assert Finish(p, scans, w) == Finish(p, scans, BehindUse(p, scans, w, end, stmt));
  }

  lemma {:induction false} NamesBehind(p: Parsers, scans: seq<Scan>, w: Walk, end: nat, stmt: string,
                                       visibility: string, names: seq<string>, k: nat)
    requires end < |scans| && p.pubUse(stmt) == Some((visibility, names)) && k < |names|
    ensures var items := BehindUse(p, scans, w, end, stmt).items;
      |w.items| + k < |items| && items[|w.items| + k] == Item(names[k], Use, visibility, w.i + 1)
  {
  }

  /** The walk resumes on the line behind the one whose semicolon completes the statement: the names of the statement
      are listed, and so is what that next line declares. */
  lemma {:induction false} DeclarationBehindUseIsListed(p: Parsers, scans: seq<Scan>, w: Walk, trimmed: string,
                                                        end: nat, stmt: string, next: string, name: string,
                                                        kind: ItemKind, visibility: string)
    requires StandsOn(scans, w, trimmed) && BeginsUse(p, trimmed)
    requires w.i <= end < |scans| && stmt == Upto(scans, w.i, trimmed, end) && StatementComplete(stmt)
    requires Incomplete(scans, w.i, trimmed, w.i, end)
    requires StandsOn(scans, BehindUse(p, scans, w, end, stmt), next)
    requires next != "" && !("#[" <= next) && Declares(p, next, name, kind, visibility)
    ensures var behind := BehindUse(p, scans, w, end, stmt);
      behind.items + [Item(Qualified(behind.stack, kind, name), kind, visibility, end + 2)] <= Finish(p, scans, w)
  {
    GatherEndsAt(scans, w.i, trimmed, end, stmt);
    ListedBehindUse(p, scans, w, trimmed, end, stmt, next, name, kind, visibility);
  }

  lemma {:induction false} ListedBehindUse(p: Parsers, scans: seq<Scan>, w: Walk, trimmed: string, end: nat,
                                           stmt: string, next: string, name: string, kind: ItemKind,
                                           visibility: string)
    requires StandsOn(scans, w, trimmed) && BeginsUse(p, trimmed) && Gather(scans, w.i, trimmed) == (end, stmt)
    requires StandsOn(scans, BehindUse(p, scans, w, end, stmt), next)
    requires next != "" && !("#[" <= next) && Declares(p, next, name, kind, visibility)
    ensures var behind := BehindUse(p, scans, w, end, stmt);
      behind.items + [Item(Qualified(behind.stack, kind, name), kind, visibility, end + 2)] <= Finish(p, scans, w)
  {
    UseIsTaken(p, scans, w, trimmed, end, stmt);
    ListedBehind(p, scans, w, BehindUse(p, scans, w, end, stmt), next, name, kind, visibility);
  }

  lemma {:induction false} ListedBehind(p: Parsers, scans: seq<Scan>, w: Walk, behind: Walk, next: string,
                                        name: string, kind: ItemKind, visibility: string)
    requires w.i < |scans| && behind == Advance(p, scans, w)
    requires StandsOn(scans, behind, next) && next != "" && !("#[" <= next) && Declares(p, next, name, kind, visibility)
    ensures behind.items + [Item(Qualified(behind.stack, kind, name), kind, visibility, behind.i + 1)]
      <= Finish(p, scans, w)
  {
    DeclaringLine(p, scans, behind, next, name, kind, visibility);
    ListedTwoOn(p, scans, w, behind);
  }

  lemma {:induction false} ListedTwoOn(p: Parsers, scans: seq<Scan>, w: Walk, behind: Walk)
    requires w.i < |scans| && behind == Advance(p, scans, w) && behind.i < |scans|
    ensures Advance(p, scans, behind).items <= Finish(p, scans, w)
  {
    var after := Advance(p, scans, behind);
    ListedStays(p, scans, after);
    assert Finish(p, scans, behind) == Finish(p, scans, after);
    assert Finish(p, scans, w) == Finish(p, scans, behind);
  }

  lemma {:induction false} DeclaringLine(p: Parsers, scans: seq<Scan>, w: Walk, next: string, name: string,
                                         kind: ItemKind, visibility: string)
    requires StandsOn(scans, w, next) && next != "" && !("#[" <= next) && Declares(p, next, name, kind, visibility)
    ensures Advance(p, scans, w) ==
      w.(i := w.i + 1, stack := PopEnded(w.stack, DepthAt(scans, w.i + 1)),
         items := w.items + [Item(Qualified(w.stack, kind, name), kind, visibility, w.i + 1)])
  {
  }

  // ---- text without strings and comments ---------------------------------------------------

  predicate SlashPair(s: string, k: nat)
    requires k + 1 < |s|
  {
    s[k] == '/' && s[k + 1] == '/'
  }

  /** No string and no line comment begins in the text. */
  predicate Bare(s: string) {
    '\"' !in s && forall k :: 0 <= k < |s| - 1 ==> !SlashPair(s, k)
  }

  lemma {:induction false} NoRawStart(s: string)
    requires '\"' !in s
    ensures !OpensRaw(s)
  {
    var n := LeadingHashes(s);
    assert n < |s| ==> s[n] in s;
  }

  lemma {:induction false} BareScan(s: string)
    requires Bare(s)
    ensures ScanFrom(s, Code) == Scan(s, Depth(s, '{', '}'), Code)
  {
    if s != "" {
      BareTail(s);
      BareScan(s[1..]);
      DepthCons(s[0], s[1..]);
      assert s == [s[0]] + s[1..];
      BareStep(s);
    }
  }

  lemma {:induction false} BareTail(s: string)
    requires Bare(s) && s != ""
    ensures Bare(s[1..]) && s[0] != '\"' && !OpensRaw(s[1..]) && (|s| > 1 ==> !(s[0] == '/' && s[1] == '/'))
  {
    assert s[0] in s;
    assert |s| > 1 ==> !SlashPair(s, 0);
    forall k | 0 <= k < |s[1..]| - 1 ensures !SlashPair(s[1..], k) {
      assert !SlashPair(s, k + 1);
    }
    NoRawStart(s[1..]);
  }

  lemma {:induction false} BareStep(s: string)
    requires s != "" && s[0] != '\"' && !OpensRaw(s[1..]) && (|s| > 1 ==> !(s[0] == '/' && s[1] == '/'))
    ensures ScanFrom(s, Code) == CodeChar(s[0], ScanFrom(s[1..], Code))
  {
  }

  lemma {:induction false} TrimIsBare(s: string)
    requires Bare(s)
    ensures Bare(Trim(s))
  {
    TrimStartIsBare(s);
    TrimEndIsBare(TrimStart(s));
  }

  lemma {:induction false} TrimStartIsBare(s: string)
    requires Bare(s)
    ensures Bare(TrimStart(s))
  {
    if s != "" && IsWhitespace(s[0]) {
      BareTail(s);
      TrimStartIsBare(s[1..]);
    }
  }

  lemma {:induction false} TrimEndIsBare(s: string)
    requires Bare(s)
    ensures Bare(TrimEnd(s))
  {
    if s != "" && IsWhitespace(s[|s| - 1]) {
      var front := s[..|s| - 1];
      forall k | 0 <= k < |front| - 1 ensures !SlashPair(front, k) {
        assert !SlashPair(s, k);
      }
      TrimEndIsBare(front);
    }
  }

  lemma {:induction false} SpacedIsBare(a: string, b: string)
    requires Bare(a) && Bare(b)
    ensures Bare(a + " " + b)
  {
    var s := a + " " + b;
    forall k | 0 <= k < |s| - 1 ensures !SlashPair(s, k) {
      if k < |a| - 1 {
        assert !SlashPair(a, k);
      } else if k > |a| {
        assert !SlashPair(b, k - |a| - 1);
      }
    }
  }

  /** No white space at either end. */
  predicate Trimmed(s: string) {
    s == "" || (!IsWhitespace(s[0]) && !IsWhitespace(s[|s| - 1]))
  }

  lemma {:induction false} TrimTrims(s: string)
    ensures Trimmed(Trim(s))
  {
    TrimStartTrims(s);
    TrimEndTrims(TrimStart(s));
  }

  lemma {:induction false} TrimStartTrims(s: string)
    ensures TrimStart(s) == "" || !IsWhitespace(TrimStart(s)[0])
  {
    if s != "" && IsWhitespace(s[0]) { TrimStartTrims(s[1..]); }
  }

  lemma {:induction false} TrimEndTrims(s: string)
    ensures TrimEnd(s) <= s
    ensures TrimEnd(s) == "" || !IsWhitespace(TrimEnd(s)[|TrimEnd(s)| - 1])
  {
    if s != "" && IsWhitespace(s[|s| - 1]) { TrimEndTrims(s[..|s| - 1]); }
  }

  lemma {:induction false} TrimmedStays(s: string)
    requires Trimmed(s)
    ensures Trim(s) == s
  {
  }

  /** The first lines, as far as line k, on one line: trimmed and joined by single spaces, blank ones left out. */
  function Joined(lines: seq<string>, k: nat): string
    requires k < |lines|
  {
    if k == 0 then Trim(lines[0])
    else
      var front, last := Joined(lines, k - 1), Trim(lines[k]);
      if last == "" then front else front + " " + last
  }

  ghost predicate AllBare(lines: seq<string>) {
    forall i :: 0 <= i < |lines| ==> Bare(lines[i])
  }

  /** These are the scans of bare lines. */
  ghost predicate Reads(lines: seq<string>, scans: seq<Scan>) {
    |scans| == |lines| && forall i :: 0 <= i < |lines| ==> scans[i] == Scan(lines[i], Depth(lines[i], '{', '}'), Code)
  }

  /** The lines on one line are bare and trimmed, and as deep as the lines. */
  lemma {:induction false} JoinedKeeps(lines: seq<string>, scans: seq<Scan>, k: nat)
    requires AllBare(lines) && Reads(lines, scans) && k < |lines| && Trim(lines[0]) != ""
    ensures Joined(lines, k) != "" && Trimmed(Joined(lines, k)) && Bare(Joined(lines, k))
    ensures Depth(Joined(lines, k), '{', '}') == DepthAt(scans, k + 1)
  {
    TrimIsBare(lines[k]);
    TrimTrims(lines[k]);
    S.TrimKeepsDepth(lines[k]);
    assert DepthAt(scans, k + 1) == DepthAt(scans, k) + Depth(Trim(lines[k]), '{', '}');
    if k > 0 {
      JoinedKeeps(lines, scans, k - 1);
      SpacedKeeps(Joined(lines, k - 1), Trim(lines[k]));
    }
  }

  lemma {:induction false} SpacedKeeps(a: string, b: string)
    requires Bare(a) && Trimmed(a) && a != "" && Bare(b) && Trimmed(b)
    ensures Bare(a + " " + b) && (b != "" ==> Trimmed(a + " " + b))
    ensures Depth(a + " " + b, '{', '}') == Depth(a, '{', '}') + Depth(b, '{', '}')
  {
    SpacedIsBare(a, b);
    DepthConcat(a + " ", b, '{', '}');
    DepthConcat(a, " ", '{', '}');
    assert " "[..0] == "";
  }

  // ---- one statement, one line or many -----------------------------------------------------

  lemma {:induction false} BareLines(lines: seq<string>)
    requires AllBare(lines)
    ensures Reads(lines, Scans(lines)) && EndState(Scans(lines)) == Code
  {
    if lines != [] {
      var front, last := lines[..|lines| - 1], lines[|lines| - 1];
      BareLines(front);
      BareScan(last);
      assert lines == front + [last];
      OneMoreRead(front, Scans(front), last, Scan(last, Depth(last, '{', '}'), Code));
    }
  }

  lemma {:induction false} OneMoreRead(lines: seq<string>, scans: seq<Scan>, line: string, scan: Scan)
    requires Reads(lines, scans) && scan == Scan(line, Depth(line, '{', '}'), Code)
    ensures Reads(lines + [line], scans + [scan])
  {
  }

  /** Behind a text that ends in code the rest scans as on its own. */
  lemma {:induction false} ScansConcat(a: seq<string>, b: seq<string>)
    requires EndState(Scans(a)) == Code
    ensures Scans(a + b) == Scans(a) + Scans(b)
  {
    if b == [] {
      assert a + b == a;
    } else {
      var n := |b| - 1;
      ScansConcat(a, b[..n]);
      assert (a + b)[..|a + b| - 1] == a + b[..n];
      EndOfBoth(Scans(a), Scans(b[..n]));
    }
  }

  lemma {:induction false} EndOfBoth(a: seq<Scan>, b: seq<Scan>)
    requires EndState(a) == Code
    ensures EndState(a + b) == EndState(b)
  {
  }

  /** The depths of two files put together. */
  lemma {:induction false} DepthOfBoth(a: seq<Scan>, b: seq<Scan>, i: nat)
    requires i <= |a| + |b|
    ensures DepthAt(a + b, i) == if i <= |a| then DepthAt(a, i) else DepthAt(a, |a|) + DepthAt(b, i - |a|)
  {
    if i > 0 { DepthOfBoth(a, b, i - 1); }
  }

  /** Bare lines put in where the text is code scan as they are, and what follows scans as it does on its own. */
  lemma {:induction false} PlacedScans(before: seq<string>, lines: seq<string>, after: seq<string>)
    requires EndState(Scans(before)) == Code && AllBare(lines)
    ensures Scans(before + lines + after) == Scans(before) + Scans(lines) + Scans(after)
  {
    BareLines(lines);
    ScansConcat(before, lines);
    EndOfBoth(Scans(before), Scans(lines));
    ScansConcat(before + lines, after);
  }

  // ---- the walk up to the statement --------------------------------------------------------

  function Start(): Walk {
    Walk(0, 0, false, [], [])
  }

  /** Read on its own, this text brings the walk along this path to its end, with nothing unfinished: no open string,
      test module, attribute or `pub use`. */
  ghost predicate Settled(p: Parsers, before: seq<string>, path: seq<Walk>) {
    && EndState(Scans(before)) == Code
    && Path(p, Scans(before), path)
    && var w := path[|path| - 1];
       w.i == |before| && w.skip == 0 && !w.pending
  }

  /** The walks from the first line on, each a step from the one before. */
  ghost predicate Path(p: Parsers, scans: seq<Scan>, path: seq<Walk>) {
    if |path| <= 1 then path == [Start()]
    else Path(p, scans, path[..|path| - 1]) && Steps(p, scans, path[|path| - 2], path[|path| - 1])
  }

  ghost predicate Steps(p: Parsers, scans: seq<Scan>, v: Walk, w: Walk) {
    v.i < |scans| && w == Advance(p, scans, v) && Unhurried(p, scans, v)
  }

  /** If the line is the first of a `pub use`, the statement is complete where the lookahead ends. */
  ghost predicate Unhurried(p: Parsers, scans: seq<Scan>, v: Walk)
    requires v.i < |scans|
  {
    StatementComplete(Gather(scans, v.i, Trim(scans[v.i].code)).1) || !p.isPubUse(Trim(scans[v.i].code))
  }

  lemma {:induction false} GatherInside(scans: seq<Scan>, more: seq<Scan>, end: nat, stmt: string)
    requires end < |scans| && StatementComplete(Gather(scans, end, stmt).1)
    ensures Gather(scans + more, end, stmt) == Gather(scans, end, stmt)
    decreases |scans| - end
  {
    if !StatementComplete(stmt) && end + 1 < |scans| {
      GatherInside(scans, more, end + 1, AddLine(stmt, scans[end + 1].code));
    }
  }

  lemma {:induction false} SumInside(scans: seq<Scan>, more: seq<Scan>, e: nat)
    requires e <= |scans|
    ensures DepthAt(scans + more, e) == DepthAt(scans, e)
  {
    DepthOfBoth(scans, more, e);
  }

  /** A step of the walk, given what it does as a line of code. */
  function StepBy(scans: seq<Scan>, w: Walk, trimmed: string, attribute: bool, code: Walk): Walk
    requires w.i < |scans|
  {
    var inCode := scans[w.i].state.Code?;
    if w.skip > 0 then SkipLine(scans, w)
    else if trimmed == "" then
      w.(i := w.i + 1, stack := if inCode then w.stack else PopEnded(w.stack, DepthAt(scans, w.i + 1)))
    else if attribute then w.(i := w.i + 1, pending := true)
    else if "#[" <= trimmed then w.(i := w.i + 1)
    else if w.pending && inCode then AfterAttribute(scans, w, trimmed)
    else code
  }

  lemma {:induction false} AdvanceIs(p: Parsers, scans: seq<Scan>, w: Walk, code: Walk)
    requires w.i < |scans| && code == CodeLine(p, scans, w, Trim(scans[w.i].code))
    ensures var trimmed := Trim(scans[w.i].code);
      Advance(p, scans, w) == StepBy(scans, w, trimmed, trimmed != "" && p.isCfgTest(trimmed), code)
  {
  }

  lemma {:induction false} UseLinesInside(p: Parsers, scans: seq<Scan>, more: seq<Scan>, v: Walk, trimmed: string)
    requires v.i < |scans| && StatementComplete(Gather(scans, v.i, trimmed).1)
    ensures UseLines(p, scans + more, v, trimmed) == UseLines(p, scans, v, trimmed)
  {
    GatherInside(scans, more, v.i, trimmed);
    SumInside(scans, more, Gather(scans, v.i, trimmed).0 + 1);
  }

  lemma {:induction false} ItemLineInside(p: Parsers, scans: seq<Scan>, more: seq<Scan>, v: Walk, trimmed: string)
    requires v.i < |scans|
    ensures ItemLine(p, scans + more, v, trimmed) == ItemLine(p, scans, v, trimmed)
  {
    SumInside(scans, more, v.i + 1);
  }

  lemma {:induction false} CodeLineInside(p: Parsers, scans: seq<Scan>, more: seq<Scan>, v: Walk, trimmed: string)
    requires v.i < |scans| && trimmed == Trim(scans[v.i].code) && Unhurried(p, scans, v)
    ensures CodeLine(p, scans + more, v, trimmed) == CodeLine(p, scans, v, trimmed)
  {
    SumInside(scans, more, v.i);
    var inner := Entered(scans, v, p.implType(trimmed));
    if p.isPubUse(trimmed) {
      UseLinesInside(p, scans, more, inner, trimmed);
    } else {
      ItemLineInside(p, scans, more, inner, trimmed);
    }
  }

  lemma {:induction false} StepInside(scans: seq<Scan>, all: seq<Scan>, v: Walk, trimmed: string, attribute: bool,
                                      code: Walk)
    requires v.i < |scans| <= |all| && all[v.i] == scans[v.i] && DepthAt(all, v.i + 1) == DepthAt(scans, v.i + 1)
    ensures StepBy(all, v, trimmed, attribute, code) == StepBy(scans, v, trimmed, attribute, code)
  {
  }

  /** Such a step does not see what follows. */
  lemma {:induction false} AdvanceInside(p: Parsers, scans: seq<Scan>, more: seq<Scan>, v: Walk)
    requires v.i < |scans| && Unhurried(p, scans, v)
    ensures Advance(p, scans + more, v) == Advance(p, scans, v)
  {
    var trimmed := Trim(scans[v.i].code);
    var code := CodeLine(p, scans, v, trimmed);
    assert (scans + more)[v.i] == scans[v.i];
    SumInside(scans, more, v.i + 1);
    CodeLineInside(p, scans, more, v, trimmed);
    StepInside(scans, scans + more, v, trimmed, trimmed != "" && p.isCfgTest(trimmed), code);
    AdvanceIs(p, scans, v, code);
    AdvanceIs(p, scans + more, v, code);
  }

  lemma {:induction false} PathInside(p: Parsers, scans: seq<Scan>, more: seq<Scan>, path: seq<Walk>)
    requires Path(p, scans, path)
    ensures path != [] && path[|path| - 1].i <= |scans|
    ensures Finish(p, scans + more, Start()) == Finish(p, scans + more, path[|path| - 1])
  {
    if |path| > 1 {
      PathInside(p, scans, more, path[..|path| - 1]);
      OneStepOn(p, scans, more, path[|path| - 2], path[|path| - 1], scans + more);
    }
  }

  lemma {:induction false} OneStepOn(p: Parsers, scans: seq<Scan>, more: seq<Scan>, v: Walk, w: Walk, all: seq<Scan>)
    requires Steps(p, scans, v, w) && all == scans + more
    ensures v.i <= |all| && w.i <= |scans| && Finish(p, all, v) == Finish(p, all, w)
  {
    AdvanceInside(p, scans, more, v);
  }

  // ---- the walk behind the statement -------------------------------------------------------

  function RenumberedItem(item: Item, from: nat, d: nat): Item {
    if item.line > from then item.(line := item.line + d) else item
  }

  /** Item k of the one is item k of the other, with a line number d higher if it is behind `from`. */
  predicate RenumberedAt(items: seq<Item>, moved: seq<Item>, from: nat, d: nat, k: nat) {
    |moved| == |items| && (k < |items| ==> moved[k] == RenumberedItem(items[k], from, d))
  }

  /** The same items, with the line numbers behind `from` d higher. */
  ghost predicate Renumbered(items: seq<Item>, moved: seq<Item>, from: nat, d: nat) {
    forall k: nat :: RenumberedAt(items, moved, from, d, k)
  }

  lemma {:induction false} RenumberedBoth(a: seq<Item>, b: seq<Item>, more: seq<Item>, more2: seq<Item>, from: nat,
                                          d: nat, k: nat)
    requires RenumberedAt(a, b, from, d, k)
    requires RenumberedAt(more, more2, from, d, if k < |a| then 0 else k - |a|)
    ensures RenumberedAt(a + more, b + more2, from, d, k)
  {
  }

  /** From line `at` on the second file is the first, d lines further down, at the same depths. */
  ghost predicate Aligned(one: seq<Scan>, two: seq<Scan>, at: nat, d: nat) {
    && d > 0 && at <= |one| && |two| == |one| + d
    && (forall j :: at <= j < |one| ==> two[j + d] == one[j])
    && (forall e :: at <= e <= |one| ==> DepthAt(two, e + d) == DepthAt(one, e))
  }

  /** The second walk is the first, d lines further down. */
  predicate Shifted(v: Walk, w: Walk, d: nat) {
    w.i == v.i + d && w.skip == v.skip && w.pending == v.pending && w.stack == v.stack
  }

  /** So is what it has listed, as far as item k tells. */
  predicate Behind(v: Walk, w: Walk, from: nat, d: nat, k: nat) {
    from <= v.i && Shifted(v, w, d) && RenumberedAt(v.items, w.items, from, d, k)
  }

  lemma {:induction false} GatherAligned(one: seq<Scan>, two: seq<Scan>, at: nat, d: nat, end: nat, stmt: string)
    requires Aligned(one, two, at, d) && at <= end < |one|
    ensures var g := Gather(one, end, stmt); Gather(two, end + d, stmt) == (g.0 + d, g.1)
    decreases |one| - end
  {
    if !StatementComplete(stmt) && end + 1 < |one| {
      assert two[end + 1 + d] == one[end + 1];
      GatherAligned(one, two, at, d, end + 1, AddLine(stmt, one[end + 1].code));
    }
  }

  lemma {:induction false} UseStatementMoved(p: Parsers, stmt: string, line: nat, from: nat, d: nat, k: nat)
    requires line > from
    ensures RenumberedAt(UseStatement(p, stmt, line), UseStatement(p, stmt, line + d), from, d, k)
  {
  }

  lemma {:induction false} UsedAligned(p: Parsers, one: seq<Scan>, two: seq<Scan>, d: nat, v: Walk, w: Walk, from: nat,
                                       end: nat, stmt: string, k: nat)
    requires v.i <= end < |one| && end + d < |two| && DepthAt(two, end + 1 + d) == DepthAt(one, end + 1)
    requires Behind(v, w, from, d, k)
    ensures Behind(BehindUse(p, one, v, end, stmt), BehindUse(p, two, w, end + d, stmt), from, d, k)
  {
    UseStatementMoved(p, stmt, v.i + 1, from, d, if k < |v.items| then 0 else k - |v.items|);
    RenumberedBoth(v.items, w.items, UseStatement(p, stmt, v.i + 1), UseStatement(p, stmt, v.i + 1 + d), from, d, k);
  }

  lemma {:induction false} ItemLineAligned(p: Parsers, one: seq<Scan>, two: seq<Scan>, d: nat, v: Walk, w: Walk,
                                           from: nat, trimmed: string, k: nat)
    requires v.i < |one| && w.i < |two| && DepthAt(two, w.i + 1) == DepthAt(one, v.i + 1) && Behind(v, w, from, d, k)
    ensures Behind(ItemLine(p, one, v, trimmed), ItemLine(p, two, w, trimmed), from, d, k)
  {
    LineItemsMoved(p, v.stack, trimmed, v.i + 1, from, d, if k < |v.items| then 0 else k - |v.items|);
    RenumberedBoth(v.items, w.items, LineItems(p, v.stack, trimmed, v.i + 1),
                   LineItems(p, v.stack, trimmed, v.i + 1 + d), from, d, k);
  }

  lemma {:induction false} LineItemsMoved(p: Parsers, stack: ImplStack, trimmed: string, line: nat, from: nat, d: nat,
                                          k: nat)
    requires line > from
    ensures RenumberedAt(LineItems(p, stack, trimmed, line), LineItems(p, stack, trimmed, line + d), from, d, k)
  {
    UseStatementMoved(p, trimmed, line, from, d, k);
  }

  lemma {:induction false} UseLinesAligned(p: Parsers, one: seq<Scan>, two: seq<Scan>, at: nat, d: nat, v: Walk,
                                           w: Walk, from: nat, trimmed: string, k: nat)
    requires Aligned(one, two, at, d) && at <= v.i < |one| && Behind(v, w, from, d, k)
    ensures Behind(UseLines(p, one, v, trimmed), UseLines(p, two, w, trimmed), from, d, k)
  {
    var (end, stmt) := Gather(one, v.i, trimmed);
    GatherAligned(one, two, at, d, v.i, trimmed);
    assert DepthAt(two, end + 1 + d) == DepthAt(one, end + 1);
    FoundAligned(p, one, two, d, v, w, from, trimmed, end, stmt, k);
  }

  lemma {:induction false} FoundAligned(p: Parsers, one: seq<Scan>, two: seq<Scan>, d: nat, v: Walk, w: Walk,
                                        from: nat, trimmed: string, end: nat, stmt: string, k: nat)
    requires v.i <= end < |one| && end + d < |two| && DepthAt(two, end + 1 + d) == DepthAt(one, end + 1)
    requires Behind(v, w, from, d, k)
    requires Gather(one, v.i, trimmed) == (end, stmt) && Gather(two, w.i, trimmed) == (end + d, stmt)
    ensures Behind(UseLines(p, one, v, trimmed), UseLines(p, two, w, trimmed), from, d, k)
  {
    UsedAligned(p, one, two, d, v, w, from, end, stmt, k);
  }

  lemma {:induction false} CodeLineAligned(p: Parsers, one: seq<Scan>, two: seq<Scan>, at: nat, d: nat, v: Walk,
                                           w: Walk, from: nat, trimmed: string, k: nat)
    requires Aligned(one, two, at, d) && at <= v.i < |one| && Behind(v, w, from, d, k)
    ensures Behind(CodeLine(p, one, v, trimmed), CodeLine(p, two, w, trimmed), from, d, k)
  {
    var inner, inner2 := Entered(one, v, p.implType(trimmed)), Entered(two, w, p.implType(trimmed));
    assert DepthAt(two, v.i + d) == DepthAt(one, v.i);
    assert Behind(inner, inner2, from, d, k);
    if p.isPubUse(trimmed) {
      UseLinesAligned(p, one, two, at, d, inner, inner2, from, trimmed, k);
    } else {
      assert DepthAt(two, v.i + 1 + d) == DepthAt(one, v.i + 1);
      ItemLineAligned(p, one, two, d, inner, inner2, from, trimmed, k);
    }
  }

  /** A step either is the line of code or leaves the items. */
  lemma {:induction false} StepShifted(one: seq<Scan>, two: seq<Scan>, d: nat, v: Walk, w: Walk, trimmed: string,
                                       attribute: bool, code: Walk, code2: Walk, r: Walk, r2: Walk)
    requires v.i < |one| && w.i < |two| && two[w.i] == one[v.i] && DepthAt(two, w.i + 1) == DepthAt(one, v.i + 1)
    requires Shifted(v, w, d) && Shifted(code, code2, d)
    requires r == StepBy(one, v, trimmed, attribute, code) && r2 == StepBy(two, w, trimmed, attribute, code2)
    ensures Shifted(r, r2, d)
    ensures (r == code && r2 == code2) || (r.items == v.items && r2.items == w.items && v.i < r.i)
  {
  }

  lemma {:induction false} StepAligned(one: seq<Scan>, two: seq<Scan>, d: nat, v: Walk, w: Walk, from: nat,
                                       trimmed: string, attribute: bool, code: Walk, code2: Walk, k: nat)
    requires v.i < |one| && w.i < |two| && two[w.i] == one[v.i] && DepthAt(two, w.i + 1) == DepthAt(one, v.i + 1)
    requires Behind(v, w, from, d, k) && Behind(code, code2, from, d, k)
    ensures Behind(StepBy(one, v, trimmed, attribute, code), StepBy(two, w, trimmed, attribute, code2), from, d, k)
  {
    StepShifted(one, two, d, v, w, trimmed, attribute, code, code2, StepBy(one, v, trimmed, attribute, code),
                StepBy(two, w, trimmed, attribute, code2));
  }

  lemma {:induction false} AdvanceAligned(p: Parsers, one: seq<Scan>, two: seq<Scan>, at: nat, d: nat, v: Walk,
                                          w: Walk, from: nat, k: nat)
    requires Aligned(one, two, at, d) && at <= v.i < |one| && Behind(v, w, from, d, k)
    ensures Behind(Advance(p, one, v), Advance(p, two, w), from, d, k)
  {
    var trimmed := Trim(one[v.i].code);
    assert two[v.i + d] == one[v.i] && DepthAt(two, v.i + 1 + d) == DepthAt(one, v.i + 1);
    CodeLineAligned(p, one, two, at, d, v, w, from, trimmed, k);
    SameLineAligned(p, one, two, d, v, w, from, trimmed, k);
  }

  lemma {:induction false} SameLineAligned(p: Parsers, one: seq<Scan>, two: seq<Scan>, d: nat, v: Walk, w: Walk,
                                           from: nat, trimmed: string, k: nat)
    requires v.i < |one| && w.i < |two| && two[w.i] == one[v.i] && DepthAt(two, w.i + 1) == DepthAt(one, v.i + 1)
    requires trimmed == Trim(one[v.i].code) && Behind(v, w, from, d, k)
    requires Behind(CodeLine(p, one, v, trimmed), CodeLine(p, two, w, trimmed), from, d, k)
    ensures Behind(Advance(p, one, v), Advance(p, two, w), from, d, k)
  {
    var code, code2 := CodeLine(p, one, v, trimmed), CodeLine(p, two, w, trimmed);
    AdvanceIs(p, one, v, code);
    AdvanceIs(p, two, w, code2);
    StepAligned(one, two, d, v, w, from, trimmed, trimmed != "" && p.isCfgTest(trimmed), code, code2, k);
  }

  lemma {:induction false} FinishAligned(p: Parsers, one: seq<Scan>, two: seq<Scan>, at: nat, d: nat, v: Walk, w: Walk,
                                         from: nat, k: nat)
    requires Aligned(one, two, at, d) && at <= v.i <= |one| && Behind(v, w, from, d, k)
    ensures RenumberedAt(Finish(p, one, v), Finish(p, two, w), from, d, k)
    decreases |one| - v.i
  {
    if v.i < |one| {
      AdvanceAligned(p, one, two, at, d, v, w, from, k);
      FinishAligned(p, one, two, at, d, Advance(p, one, v), Advance(p, two, w), from, k);
    }
  }

  // ---- the theorem -------------------------------------------------------------------------

  /** These lines spell one `pub use`: the first begins it and the last, with the semicolon, completes it. */
  ghost predicate UseOver(p: Parsers, lines: seq<string>) {
    && |lines| >= 2 && AllBare(lines) && BeginsUse(p, Joined(lines, 0)) && BeginsUse(p, Joined(lines, |lines| - 1))
    && StatementComplete(Joined(lines, |lines| - 1)) && !StatementComplete(Joined(lines, |lines| - 2))
  }

  lemma {:induction false} CompleteStays(s: string, t: string)
    requires StatementComplete(s)
    ensures StatementComplete(s + t)
  {
    var k :| 0 <= k < |s| && EndsAt(s, k);
    assert (s + t)[..k] == s[..k];
    assert EndsAt(s + t, k);
  }

  /** What a longer part of the statement lacks a shorter one lacks too. */
  lemma {:induction false} IncompleteBefore(lines: seq<string>, j: nat, k: nat)
    requires j <= k < |lines| && !StatementComplete(Joined(lines, k))
    ensures !StatementComplete(Joined(lines, j))
  {
    if j < k {
      var front, last := Joined(lines, k - 1), Trim(lines[k]);
      assert front + " " + last == front + (" " + last);
      if StatementComplete(front) {
        CompleteStays(front, " " + last);
      }
      IncompleteBefore(lines, j, k - 1);
    }
  }

  /** The lines stand in the file from line `at` on. */
  ghost predicate StandAt(lines: seq<string>, scans: seq<Scan>, at: nat) {
    at + |lines| <= |scans| && forall k :: 0 <= k < |lines| ==> scans[at + k].code == lines[k]
  }

  lemma {:induction false} JoinedUpto(lines: seq<string>, scans: seq<Scan>, at: nat, k: nat)
    requires StandAt(lines, scans, at) && k < |lines|
    ensures Upto(scans, at, Trim(lines[0]), at + k) == Joined(lines, k)
  {
    if k > 0 {
      JoinedUpto(lines, scans, at, k - 1);
      assert scans[at + k].code == lines[k];
    }
  }

  lemma {:induction false} NotGatheredBefore(lines: seq<string>, scans: seq<Scan>, at: nat, first: string)
    requires lines != [] && StandAt(lines, scans, at) && first == Joined(lines, 0)
    requires |lines| > 1 ==> !StatementComplete(Joined(lines, |lines| - 2))
    ensures Incomplete(scans, at, first, at, at + |lines| - 1)
  {
    forall e | at <= e < at + |lines| - 1 ensures !StatementComplete(Upto(scans, at, first, e)) {
      JoinedUpto(lines, scans, at, e - at);
      IncompleteBefore(lines, e - at, |lines| - 2);
    }
  }

  /** The middle of a file. */
  lemma {:induction false} StandInTheMiddle(front: seq<Scan>, lines: seq<string>, middle: seq<Scan>, back: seq<Scan>,
                                            scans: seq<Scan>)
    requires lines != [] && Reads(lines, middle) && scans == front + middle + back
    ensures StandAt(lines, scans, |front|) && scans[|front|].state.Code?
  {
    forall k | 0 <= k < |lines| ensures scans[|front| + k] == middle[k] {
    }
    assert scans[|front| + 0] == middle[0];
  }

  lemma {:induction false} AlignedBehind(front: seq<Scan>, one: seq<Scan>, more: seq<Scan>, back: seq<Scan>,
                                         s1: seq<Scan>, s2: seq<Scan>)
    requires |one| == 1 && |more| > 1 && DepthAt(one, 1) == DepthAt(more, |more|)
    requires s1 == front + one + back && s2 == front + more + back
    ensures Aligned(s1, s2, |front| + 1, |more| - 1)
  {
    var at, d := |front| + 1, |more| - 1;
    forall e | at <= e <= |s1| ensures DepthAt(s2, e + d) == DepthAt(s1, e) {
      SumBehind(front, more, back, e - at, e + d);
      SumBehind(front, one, back, e - at, e);
    }
  }

  lemma {:induction false} SumBehind(front: seq<Scan>, middle: seq<Scan>, back: seq<Scan>, k: nat, e: nat)
    requires k <= |back| && e == |front| + |middle| + k
    ensures DepthAt(front + middle + back, e) == DepthAt(front, |front|) + DepthAt(middle, |middle|) + DepthAt(back, k)
  {
    DepthOfBoth(front + middle, back, e);
    DepthOfBoth(front + middle, back, |front + middle|);
    DepthOfBoth(front, middle, |front + middle|);
    DepthOfBoth(front, middle, |front|);
  }

  lemma {:induction false} PathOrdered(p: Parsers, scans: seq<Scan>, path: seq<Walk>)
    requires Path(p, scans, path)
    ensures path != [] && Ordered(path[|path| - 1])
  {
    if |path| > 1 {
      PathOrdered(p, scans, path[..|path| - 1]);
      AdvanceKeepsOrder(p, scans, path[|path| - 2]);
    }
  }

  /** The statement on one line. */
  lemma {:induction false} OneLine(p: Parsers, lines: seq<string>, one: string)
    requires UseOver(p, lines) && one == Joined(lines, |lines| - 1)
    ensures Spelled(p, lines, one) && Spelled(p, [one], one)
    ensures DepthAt(Scans([one]), 1) == DepthAt(Scans(lines), |lines|)
  {
    BareLines(lines);
    JoinedKeeps(lines, Scans(lines), |lines| - 1);
    TrimmedStays(one);
    BareLines([one]);
    assert Scans([one])[0] == Scan(one, Depth(one, '{', '}'), Code);
    assert DepthAt(Scans([one]), 0) == 0;
  }

  /** How a `pub use` is broken into lines, at spaces and with whatever indentation and blank lines, does not matter:
      the file lists what it lists with the statement on one line, only the numbers of later lines are higher. */
  lemma {:induction false} UseMayBeBroken(p: Parsers, before: seq<string>, lines: seq<string>, after: seq<string>,
                                          path: seq<Walk>)
    requires Settled(p, before, path) && UseOver(p, lines)
    ensures var one := Joined(lines, |lines| - 1);
      Renumbered(Inventory(p, before + [one] + after), Inventory(p, before + lines + after),
                 |before| + 1, |lines| - 1)
  {
    var one, w := Joined(lines, |lines| - 1), path[|path| - 1];
    OneLine(p, lines, one);
    SettledAt(p, before, path, w);
    BrokenOrNot(p, before, lines, one, after, path, w, Scans(before) + Scans([one]) + Scans(after),
                Scans(before) + Scans(lines) + Scans(after));
  }

  /** A `pub use` that these lines spell and the last completes. */
  ghost predicate Spelled(p: Parsers, lines: seq<string>, stmt: string) {
    && lines != [] && AllBare(lines) && BeginsUse(p, Joined(lines, 0))
    && stmt == Joined(lines, |lines| - 1) && StatementComplete(stmt)
    && (|lines| > 1 ==> !StatementComplete(Joined(lines, |lines| - 2)))
  }

  lemma {:induction false} BrokenOrNot(p: Parsers, before: seq<string>, lines: seq<string>, one: string,
                                       after: seq<string>, path: seq<Walk>, w: Walk, s1: seq<Scan>, s2: seq<Scan>)
    requires Settled(p, before, path) && w == path[|path| - 1] && Spelled(p, lines, one) && Spelled(p, [one], one)
    requires |lines| > 1 && w.i == |Scans(before)| && w.skip == 0 && !w.pending && Ordered(w)
    requires s1 == Scans(before) + Scans([one]) + Scans(after) && s2 == Scans(before) + Scans(lines) + Scans(after)
    requires DepthAt(Scans([one]), 1) == DepthAt(Scans(lines), |lines|)
    ensures Renumbered(Inventory(p, before + [one] + after), Inventory(p, before + lines + after), w.i + 1, |lines| - 1)
  {
    AlignedBehind(Scans(before), Scans([one]), Scans(lines), Scans(after), s1, s2);
    BrokenInFile(p, before, lines, one, after, path, w, s1, s2);
  }

  lemma {:induction false} BrokenInFile(p: Parsers, before: seq<string>, lines: seq<string>, one: string,
                                        after: seq<string>, path: seq<Walk>, w: Walk, s1: seq<Scan>, s2: seq<Scan>)
    requires Settled(p, before, path) && w == path[|path| - 1] && Spelled(p, lines, one) && Spelled(p, [one], one)
    requires |lines| > 1 && w.i == |Scans(before)| && w.skip == 0 && !w.pending && Ordered(w)
    requires s1 == Scans(before) + Scans([one]) + Scans(after) && s2 == Scans(before) + Scans(lines) + Scans(after)
    requires Aligned(s1, s2, w.i + 1, |lines| - 1)
    ensures Renumbered(Inventory(p, before + [one] + after), Inventory(p, before + lines + after), w.i + 1, |lines| - 1)
  {
    FileWith(p, before, [one], one, after, path, w, s1, w.i);
    BrokenFile(p, before, lines, one, after, path, w, s1, s2, w.i + |lines| - 1, Inventory(p, before + [one] + after));
  }

  lemma {:induction false} BrokenFile(p: Parsers, before: seq<string>, lines: seq<string>, one: string,
                                      after: seq<string>, path: seq<Walk>, w: Walk, s1: seq<Scan>, s2: seq<Scan>,
                                      end: nat, r1: seq<Item>)
    requires Settled(p, before, path) && w == path[|path| - 1] && Spelled(p, lines, one) && |lines| > 1
    requires w.i == |Scans(before)| && w.skip == 0 && !w.pending && Ordered(w) && end == w.i + |lines| - 1
    requires s2 == Scans(before) + Scans(lines) + Scans(after) && Aligned(s1, s2, w.i + 1, |lines| - 1)
    requires r1 == Finish(p, s1, BehindUse(p, s1, w, w.i, one))
    ensures Renumbered(r1, Inventory(p, before + lines + after), w.i + 1, |lines| - 1)
  {
    FileWith(p, before, lines, one, after, path, w, s2, end);
    BothBehind(p, s1, s2, w, one, |lines| - 1, end, r1, Inventory(p, before + lines + after));
  }

  /** The file with the statement on these lines: the walk takes them all and goes on behind them. */
  lemma {:induction false} FileWith(p: Parsers, before: seq<string>, lines: seq<string>, one: string,
                                    after: seq<string>, path: seq<Walk>, w: Walk, scans: seq<Scan>, end: nat)
    requires end == w.i + |lines| - 1
    requires Settled(p, before, path) && w == path[|path| - 1] && w.i == |Scans(before)| && w.skip == 0 && !w.pending
    requires Spelled(p, lines, one) && scans == Scans(before) + Scans(lines) + Scans(after)
    ensures Inventory(p, before + lines + after) == Finish(p, scans, BehindUse(p, scans, w, end, one))
  {
    StatementIsTaken(p, Scans(before), lines, one, Scans(after), w, scans, end);
    FileGoesOn(p, before, lines, after, path, scans, BehindUse(p, scans, w, end, one));
  }

  lemma {:induction false} StatementIsTaken(p: Parsers, front: seq<Scan>, lines: seq<string>, one: string,
                                            back: seq<Scan>, w: Walk, scans: seq<Scan>, end: nat)
    requires end == w.i + |lines| - 1
    requires w.i == |front| && w.skip == 0 && !w.pending
    requires Spelled(p, lines, one) && scans == front + Scans(lines) + back
    ensures Advance(p, scans, w) == BehindUse(p, scans, w, end, one)
  {
    BareLines(lines);
    StandInTheMiddle(front, lines, Scans(lines), back, scans);
    SpelledIsTaken(p, lines, one, scans, w, end);
  }

  /** Where the statement stands in the file, the walk takes exactly its lines. */
  lemma {:induction false} SpelledIsTaken(p: Parsers, lines: seq<string>, one: string, scans: seq<Scan>, w: Walk,
                                          end: nat)
    requires end == w.i + |lines| - 1
    requires Spelled(p, lines, one) && StandAt(lines, scans, w.i) && w.skip == 0 && !w.pending
    requires scans[w.i].state.Code?
    ensures Advance(p, scans, w) == BehindUse(p, scans, w, end, one)
  {
    assert scans[w.i + 0].code == lines[0];
    JoinedUpto(lines, scans, w.i, |lines| - 1);
    NotGatheredBefore(lines, scans, w.i, Joined(lines, 0));
    CompleteIsTaken(p, scans, w, Joined(lines, 0), end, one);
  }

  lemma {:induction false} CompleteIsTaken(p: Parsers, scans: seq<Scan>, w: Walk, trimmed: string, end: nat,
                                           stmt: string)
    requires StandsOn(scans, w, trimmed) && BeginsUse(p, trimmed)
    requires w.i <= end < |scans| && stmt == Upto(scans, w.i, trimmed, end) && StatementComplete(stmt)
    requires Incomplete(scans, w.i, trimmed, w.i, end)
    ensures Advance(p, scans, w) == BehindUse(p, scans, w, end, stmt)
  {
    GatherEndsAt(scans, w.i, trimmed, end, stmt);
    UseIsTaken(p, scans, w, trimmed, end, stmt);
  }

  lemma {:induction false} SettledAt(p: Parsers, before: seq<string>, path: seq<Walk>, w: Walk)
    requires Settled(p, before, path) && w == path[|path| - 1]
    ensures w.i == |Scans(before)| == |before| && w.skip == 0 && !w.pending && Ordered(w)
  {
    PathOrdered(p, Scans(before), path);
  }

  /** The file up to the statement, and the walk from there. */
  lemma {:induction false} FileGoesOn(p: Parsers, before: seq<string>, lines: seq<string>, after: seq<string>,
                                      path: seq<Walk>, scans: seq<Scan>, next: Walk)
    requires Settled(p, before, path) && lines != [] && AllBare(lines)
    requires path != [] && scans == Scans(before) + Scans(lines) + Scans(after)
    requires next == Advance(p, scans, path[|path| - 1])
    ensures Inventory(p, before + lines + after) == Finish(p, scans, next)
  {
    PlacedScans(before, lines, after);
    ArriveAndGoOn(p, Scans(before), Scans(lines), Scans(after), path);
  }

  lemma {:induction false} ArriveAndGoOn(p: Parsers, front: seq<Scan>, middle: seq<Scan>, back: seq<Scan>,
                                         path: seq<Walk>)
    requires Path(p, front, path) && path[|path| - 1].i == |front| && middle != []
    ensures path != []
    ensures var all := front + middle + back; var w := path[|path| - 1];
      Finish(p, all, Start()) == Finish(p, all, Advance(p, all, w))
  {
    PathInside(p, front, middle + back, path);
    assert front + (middle + back) == front + middle + back;
  }

  lemma {:induction false} BothBehind(p: Parsers, s1: seq<Scan>, s2: seq<Scan>, w: Walk, stmt: string, d: nat, end: nat,
                                      r1: seq<Item>, r2: seq<Item>)
    requires w.i < |s1| && Aligned(s1, s2, w.i + 1, d) && Ordered(w) && end == w.i + d
    requires r1 == Finish(p, s1, BehindUse(p, s1, w, w.i, stmt)) && r2 == Finish(p, s2, BehindUse(p, s2, w, end, stmt))
    ensures Renumbered(r1, r2, w.i + 1, d)
  {
    var from := w.i + 1;
    forall k: nat ensures RenumberedAt(r1, r2, from, d, k) {
      SameBehind(p, s1, s2, w, stmt, d, end, k);
      FinishAligned(p, s1, s2, from, d, BehindUse(p, s1, w, w.i, stmt), BehindUse(p, s2, w, end, stmt), from, k);
    }
  }

  lemma {:induction false} SameBehind(p: Parsers, one: seq<Scan>, two: seq<Scan>, w: Walk, stmt: string, d: nat,
                                      end: nat, k: nat)
    requires w.i < |one| && Aligned(one, two, w.i + 1, d) && Ordered(w) && end == w.i + d
    ensures Behind(BehindUse(p, one, w, w.i, stmt), BehindUse(p, two, w, end, stmt), w.i + 1, d, k)
  {
    assert DepthAt(two, w.i + 1 + d) == DepthAt(one, w.i + 1);
  }
}
