/** What the inventory of a file can and cannot depend on. */
module InventoryTheorems {
  import opened Common
  import opened Text
  import opened InventoryText
  import opened InventoryScan
  import opened InventoryModel

  // ---- raw strings -------------------------------------------------------------------------

  /** Lines from..to of the file lie inside a raw string with so many hashes. */
  ghost predicate InsideRaw(lines: seq<string>, from: nat, to: nat, hashes: nat) {
    InsideRawText(lines, from, to, hashes) && EndState(Scans(lines)[..from]) == RawStr(hashes)
  }

  lemma {:induction false} InteriorScans(lines: seq<string>, from: nat, to: nat, hashes: nat, i: nat)
    requires InsideRaw(lines, from, to, hashes) && from <= i < to
    ensures EndState(Scans(lines)[..i]) == RawStr(hashes) && Scans(lines)[i] == Scan("", 0, RawStr(hashes))
  {
    if from < i {
      InteriorScans(lines, from, to, hashes, i - 1);
    }
    ScansAreScanned(lines);
    assert LineScanned(lines, Scans(lines), i);
    RawInterior(lines[i], hashes);
  }

  /** A line changed inside a raw string scans as before. */
  lemma ChangedInterior(lines: seq<string>, from: nat, to: nat, hashes: nat, i: nat, changed: seq<string>)
    requires InsideRaw(lines, from, to, hashes) && from <= i < to && i < |changed| && TerminatorFree(changed[i], hashes)
    ensures LineScanned(changed, Scans(lines), i)
  {
    InteriorScans(lines, from, to, hashes, i);
    RawInterior(changed[i], hashes);
  }

  lemma ChangedScans(lines: seq<string>, changed: seq<string>, from: nat, to: nat, hashes: nat)
    requires InsideRaw(lines, from, to, hashes) && InsideRawText(changed, from, to, hashes) && |changed| == |lines|
    requires forall i :: 0 <= i < |lines| && !(from <= i < to) ==> changed[i] == lines[i]
    ensures Scans(changed) == Scans(lines)
  {
    var scans := Scans(lines);
    ScansAreScanned(lines);
    forall i | 0 <= i < |changed| ensures LineScanned(changed, scans, i) {
      if from <= i < to {
        ChangedInterior(lines, from, to, hashes, i, changed);
      } else {
        assert LineScanned(lines, scans, i);
      }
    }
    ScannedIsUnique(changed, scans);
  }

  ghost predicate InsideRawText(lines: seq<string>, from: nat, to: nat, hashes: nat) {
    from <= to <= |lines| && forall i :: from <= i < to ==> TerminatorFree(lines[i], hashes)
  }

  /** Whatever stands on the lines inside a raw string, as long as none of them ends the string, the inventory
      is the same. */
  lemma RawStringContentsDoNotMatter(p: Parsers, before: seq<string>, inside: seq<string>, other: seq<string>,
                                     after: seq<string>, hashes: nat)
    requires EndState(Scans(before)) == RawStr(hashes) && |inside| == |other|
    requires InsideRawText(inside, 0, |inside|, hashes) && InsideRawText(other, 0, |other|, hashes)
    ensures Inventory(p, before + inside + after) == Inventory(p, before + other + after)
  {
    var lines, changed := before + inside + after, before + other + after;
    var from, to := |before|, |before| + |inside|;
    PrefixScans(before, inside + after);
    assert before + (inside + after) == lines;
    Placed(before, inside, after, hashes);
    Placed(before, other, after, hashes);
    ChangedScans(lines, changed, from, to, hashes);
  }

  lemma Placed(before: seq<string>, inside: seq<string>, after: seq<string>, hashes: nat)
    requires InsideRawText(inside, 0, |inside|, hashes)
    ensures InsideRawText(before + inside + after, |before|, |before| + |inside|, hashes)
  {
    var lines := before + inside + after;
    forall i | |before| <= i < |before| + |inside| ensures TerminatorFree(lines[i], hashes) {
      assert lines[i] == inside[i - |before|];
    }
  }

  /** The first lines scan the same whatever follows them. */
  lemma PrefixScans(front: seq<string>, rest: seq<string>)
    ensures Scans(front + rest)[..|front|] == Scans(front)
  {
    var lines := front + rest;
    var scans := Scans(lines)[..|front|];
    ScansAreScanned(lines);
    forall i | 0 <= i < |front| ensures LineScanned(front, scans, i) {
      assert LineScanned(lines, Scans(lines), i);
      assert scans[..i] == Scans(lines)[..i];
    }
    ScannedIsUnique(front, scans);
  }

  // ---- test modules ------------------------------------------------------------------------

  function AdvanceN(p: Parsers, scans: seq<Scan>, w: Walk, n: nat): (r: Walk)
    requires w.i <= |scans|
    ensures r.i <= |scans|
    decreases n
  {
    if n == 0 || w.i == |scans| then w else AdvanceN(p, scans, Advance(p, scans, w), n - 1)
  }

  lemma AdvanceOnce(p: Parsers, scans: seq<Scan>, w: Walk, n: nat)
    requires w.i < |scans| && n > 0
    ensures AdvanceN(p, scans, w, n) == AdvanceN(p, scans, Advance(p, scans, w), n - 1)
  {
  }

  lemma {:induction false} FinishAfter(p: Parsers, scans: seq<Scan>, w: Walk, n: nat)
    requires w.i <= |scans|
    ensures Finish(p, scans, w) == Finish(p, scans, AdvanceN(p, scans, w, n))
    decreases n
  {
    if n > 0 && w.i < |scans| {
      var next := Advance(p, scans, w);
      FinishAfter(p, scans, next, n - 1);
      assert Finish(p, scans, w) == Finish(p, scans, next);
    }
  }

  /** How far the depth has moved between two lines. */
  function Moved(scans: seq<Scan>, from: nat, to: nat): int
    requires from <= to <= |scans|
  {
    DepthAt(scans, to) - DepthAt(scans, from)
  }

  /** While skipping, lines declare nothing, and the skip depth follows the file's depth. */
  lemma {:induction false} SkippedLinesDeclareNothing(p: Parsers, scans: seq<Scan>, w: Walk, n: nat)
    requires w.skip > 0 && w.i + n <= |scans|
    requires forall e :: w.i <= e < w.i + n ==> w.skip + Moved(scans, w.i, e) > 0
    ensures var r := AdvanceN(p, scans, w, n);
      && r.i == w.i + n && r.items == w.items && r.pending == w.pending
      && r.skip == if w.skip + Moved(scans, w.i, w.i + n) <= 0 then 0 else w.skip + Moved(scans, w.i, w.i + n)
    decreases n
  {
    if n > 0 {
      var next := Advance(p, scans, w);
      assert next == SkipLine(scans, w);
      if n > 1 {
        assert w.skip + Moved(scans, w.i, w.i + 1) > 0;
        forall e | next.i <= e < next.i + n - 1 ensures next.skip + Moved(scans, next.i, e) > 0 {
          assert w.skip + Moved(scans, w.i, e) > 0;
        }
      }
      SkippedRest(p, scans, w, next, n);
    }
  }

  lemma {:induction false} SkippedRest(p: Parsers, scans: seq<Scan>, w: Walk, next: Walk, n: nat)
    requires 0 < n && w.i + n <= |scans| && next == Advance(p, scans, w) && next.i == w.i + 1
    requires next.items == w.items && next.pending == w.pending
    requires next.skip == if w.skip + Moved(scans, w.i, next.i) <= 0 then 0 else w.skip + Moved(scans, w.i, next.i)
    requires n > 1 ==> next.skip > 0
    requires forall e :: next.i <= e < next.i + n - 1 ==> next.skip + Moved(scans, next.i, e) > 0
    ensures var r := AdvanceN(p, scans, w, n);
      && r.i == w.i + n && r.items == w.items && r.pending == w.pending
      && r.skip == if w.skip + Moved(scans, w.i, w.i + n) <= 0 then 0 else w.skip + Moved(scans, w.i, w.i + n)
    decreases n, 0
  {
    if n == 1 {
      assert AdvanceN(p, scans, next, 0) == next;
    } else {
      SkippedLinesDeclareNothing(p, scans, next, n - 1);
    }
  }

  /** The lines behind a test attribute that start a skip. */
  predicate OpensTestBody(p: Parsers, trimmed: string) {
    !p.isCfgTest(trimmed) && (("mod " <= trimmed && '{' in trimmed) || trimmed == "{")
  }

  /** The lines behind a test attribute that leave it waiting: further attributes, blank lines, and a `mod` whose
      brace is still to come. */
  predicate KeepsWaiting(p: Parsers, trimmed: string) {
    || trimmed == "" || p.isCfgTest(trimmed) || "#[" <= trimmed
    || ("mod " <= trimmed && '{' !in trimmed && trimmed[|trimmed| - 1] != ';')
  }

  /** Exactly which lines start a skip: a line that ends in code, behind a test attribute, and begins with `mod ` and
      has a brace, or is a lone brace.  So the body of a `pub mod`, of a module on the attribute's own line, or of a
      module whose line ends inside a string is not skipped. */
  lemma SkipStartsExactlyWhen(p: Parsers, scans: seq<Scan>, w: Walk)
    requires w.i < |scans| && w.skip == 0
    ensures Advance(p, scans, w).skip > 0 <==>
      w.pending && scans[w.i].state.Code? && OpensTestBody(p, Trim(scans[w.i].code))
  {
    var trimmed := Trim(scans[w.i].code);
    if OpensTestBody(p, trimmed) {
      assert trimmed[0] == 'm' || trimmed[0] == '{';
    }
  }

  /** What becomes of any line behind a test attribute that ends in code: it declares nothing, and the attribute is
      spent on it unless it keeps waiting.  Where it starts no skip, only this one line is left out. */
  lemma PendingLine(p: Parsers, scans: seq<Scan>, w: Walk)
    requires w.i < |scans| && w.skip == 0 && w.pending && scans[w.i].state.Code?
    ensures var r := Advance(p, scans, w);
      && r.i == w.i + 1 && r.items == w.items && r.stack == w.stack
      && (r.pending <==> KeepsWaiting(p, Trim(scans[w.i].code)))
      && (r.skip == 0 <==> !OpensTestBody(p, Trim(scans[w.i].code)))
  {
    var trimmed := Trim(scans[w.i].code);
    SkipStartsExactlyWhen(p, scans, w);
    if "mod " <= trimmed {
      assert trimmed[0] == 'm';
    }
  }

  /** A test module begins here: the line behind the attribute says `mod` and opens a brace. */
  ghost predicate TestModule(p: Parsers, scans: seq<Scan>, w: Walk) {
    && w.i < |scans| && w.skip == 0 && w.pending && scans[w.i].state.Code?
    && var trimmed := Trim(scans[w.i].code);
      && "mod " <= trimmed && '{' in trimmed && !p.isCfgTest(trimmed)
  }

  lemma TestModuleStarts(p: Parsers, scans: seq<Scan>, w: Walk)
    requires TestModule(p, scans, w)
    ensures var r := Advance(p, scans, w);
      r == w.(i := w.i + 1, skip := if scans[w.i].net > 1 then scans[w.i].net else 1, pending := false)
  {
    var trimmed := Trim(scans[w.i].code);
    assert trimmed[0] == 'm';
    assert Advance(p, scans, w) == AfterAttribute(scans, w, trimmed);
  }

  /** When the line of the module leaves a brace open, nothing is declared from there up to the first line at
      which the file's depth is back where it was, and there the skipping stops. */
  lemma TestModuleIsSkipped(p: Parsers, scans: seq<Scan>, w: Walk, n: nat)
    requires TestModule(p, scans, w) && scans[w.i].net >= 1 && 1 <= n && w.i + n <= |scans|
    requires forall e :: w.i < e < w.i + n ==> Moved(scans, w.i, e) > 0
    requires Moved(scans, w.i, w.i + n) <= 0
    ensures var r := AdvanceN(p, scans, w, n);
      r.i == w.i + n && r.skip == 0 && r.items == w.items && !r.pending
    ensures Finish(p, scans, w) == Finish(p, scans, AdvanceN(p, scans, w, n))
  {
    TestModuleStarts(p, scans, w);
    var next := Advance(p, scans, w);
    forall e | next.i <= e < next.i + n - 1 ensures next.skip + Moved(scans, next.i, e) > 0 {
      assert Moved(scans, w.i, e) > 0;
    }
    assert next == w.(i := w.i + 1, skip := scans[w.i].net, pending := false);
    SkipToTheEnd(p, scans, w, next, n);
    FinishAfter(p, scans, w, n);
  }

  lemma SkipToTheEnd(p: Parsers, scans: seq<Scan>, w: Walk, next: Walk, n: nat)
    requires w.i < |scans| && next == Advance(p, scans, w) && 1 <= n && w.i + n <= |scans|
    requires next.i == w.i + 1 && next.items == w.items && !next.pending && next.skip == scans[w.i].net > 0
    requires forall e :: next.i <= e < next.i + n - 1 ==> next.skip + Moved(scans, next.i, e) > 0
    requires Moved(scans, w.i, w.i + n) <= 0 && Moved(scans, w.i, w.i + 1) == scans[w.i].net
    ensures var r := AdvanceN(p, scans, w, n);
      r.i == w.i + n && r.skip == 0 && r.items == w.items && !r.pending
  {
    AdvanceOnce(p, scans, w, n);
    SkippedLinesDeclareNothing(p, scans, next, n - 1);
    assert next.skip + Moved(scans, next.i, w.i + n) == Moved(scans, w.i, w.i + n);
  }

  /** From here on the file never closes a brace opened before. */
  ghost predicate NeverBelow(scans: seq<Scan>, from: nat) {
    from <= |scans| && forall e :: from <= e <= |scans| ==> Moved(scans, from, e) >= 0
  }

  /** When it does not, as in `mod a {}`, the braces are balanced at once but one is taken to be open: everything
      behind is skipped until the file closes a brace it never opened. */
  lemma BalancedTestModuleHidesTheRest(p: Parsers, scans: seq<Scan>, w: Walk)
    requires TestModule(p, scans, w) && scans[w.i].net < 1
    requires NeverBelow(scans, w.i + 1)
    ensures Finish(p, scans, w) == w.items
  {
    TestModuleStarts(p, scans, w);
    var next := Advance(p, scans, w);
    var n := |scans| - next.i;
    SkippedLinesDeclareNothing(p, scans, next, n);
    FinishAfter(p, scans, next, n);
  }

  // ---- order -------------------------------------------------------------------------------

  /** Items so far come from lines before the walk, in file order. */
  ghost predicate Ordered(w: Walk) {
    && (forall a, b :: 0 <= a < b < |w.items| ==> w.items[a].line <= w.items[b].line)
    && (forall a :: 0 <= a < |w.items| ==> 1 <= w.items[a].line <= w.i)
  }

  /** Everything a line adds carries its number. */
  lemma AddedItems(p: Parsers, scans: seq<Scan>, w: Walk)
    requires w.i < |scans|
    ensures var r := Advance(p, scans, w); w.items <= r.items
    ensures forall a :: |w.items| <= a < |Advance(p, scans, w).items| ==> Advance(p, scans, w).items[a].line == w.i + 1
  {
  }

  lemma AdvanceKeepsOrder(p: Parsers, scans: seq<Scan>, w: Walk)
    requires w.i < |scans| && Ordered(w)
    ensures Ordered(Advance(p, scans, w))
  {
    AddedItems(p, scans, w);
    MoreKeepsOrder(w, Advance(p, scans, w));
  }

  lemma MoreKeepsOrder(w: Walk, r: Walk)
    requires Ordered(w) && w.items <= r.items && w.i < r.i
    requires forall a :: |w.items| <= a < |r.items| ==> r.items[a].line == w.i + 1
    ensures Ordered(r)
  {
    assert forall a :: 0 <= a < |w.items| ==> r.items[a] == w.items[a];
  }

  lemma {:induction false} FinishKeepsOrder(p: Parsers, scans: seq<Scan>, w: Walk)
    requires w.i <= |scans| && Ordered(w)
    ensures Ordered(Walk(|scans|, 0, false, [], Finish(p, scans, w)))
    decreases |scans| - w.i
  {
    if w.i < |scans| {
      AdvanceKeepsOrder(p, scans, w);
      FinishKeepsOrder(p, scans, Advance(p, scans, w));
    }
  }

  /** Items are listed in file order, each with the number of a line of the file. */
  lemma ItemsInFileOrder(p: Parsers, lines: seq<string>, a: nat, b: nat)
    requires a <= b < |Inventory(p, lines)|
    ensures 1 <= Inventory(p, lines)[a].line <= Inventory(p, lines)[b].line <= |lines|
  {
    FinishKeepsOrder(p, Scans(lines), Walk(0, 0, false, [], []));
  }
}
