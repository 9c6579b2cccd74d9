/** Methods and the impl blocks they stand in. */
module InventoryImpl {
  import opened Common
  import opened Text
  import opened InventoryText
  import opened InventoryScan
  import opened InventoryModel
  import opened InventoryTheorems
  import opened InventoryInstances
  import opened InventoryUse

  /** Exactly what closing blocks leaves: the longest front of the stack that ends in a block still open. */
  lemma {:induction false} PopEndedExactly(stack: ImplStack, depth: int, kept: ImplStack)
    ensures kept == PopEnded(stack, depth) <==>
      && kept <= stack && (kept != [] ==> kept[|kept| - 1].0 < depth)
      && forall i :: |kept| <= i < |stack| ==> depth <= stack[i].0
  {
    if stack != [] && depth <= stack[|stack| - 1].0 {
      var front := stack[..|stack| - 1];
      PopEndedExactly(front, depth, kept);
      if kept == stack {
        assert !(kept[|kept| - 1].0 < depth);
      }
    }
  }

  /** A line that begins an impl block of this type and declares nothing itself. */
  predicate BeginsImpl(p: Parsers, trimmed: string, ty: string) {
    && trimmed != "" && !p.isCfgTest(trimmed) && !("#[" <= trimmed)
    && p.implType(trimmed) == Some(ty) && !p.isPubUse(trimmed) && p.pubItem(trimmed).None?
  }

  /** Between these lines the depth stays above that before line i, and no further impl block begins. */
  ghost predicate Within(p: Parsers, scans: seq<Scan>, i: nat, from: nat, to: nat) {
    && i <= |scans| && to <= |scans|
    && (forall e :: from < e <= to ==> DepthAt(scans, e) > DepthAt(scans, i))
    && (forall j :: from <= j < to ==> p.implType(Trim(scans[j].code)).None?)
  }

  lemma {:induction false} ImplStep(p: Parsers, scans: seq<Scan>, w: Walk, trimmed: string, ty: string)
    requires StandsOn(scans, w, trimmed) && BeginsImpl(p, trimmed, ty)
    requires DepthAt(scans, w.i + 1) > DepthAt(scans, w.i)
    ensures Advance(p, scans, w) == w.(i := w.i + 1, stack := w.stack + [(DepthAt(scans, w.i), ty)])
  {
    var inside := w.stack + [(DepthAt(scans, w.i), ty)];
    assert PopEnded(inside, DepthAt(scans, w.i + 1)) == inside;
    assert w.items + [] == w.items;
  }

  /** A line inside leaves the stack alone. */
  lemma {:induction false} StepWithin(p: Parsers, scans: seq<Scan>, v: Walk, i: nat)
    requires v.i < |scans| && v.stack != [] && i <= |scans| && v.stack[|v.stack| - 1].0 == DepthAt(scans, i)
    requires Within(p, scans, i, v.i, Advance(p, scans, v).i)
    ensures Advance(p, scans, v).stack == v.stack
  {
    var r := Advance(p, scans, v);
    assert DepthAt(scans, r.i) > DepthAt(scans, i);
    assert p.implType(Trim(scans[v.i].code)).None?;
    StaysOpen(v.stack, DepthAt(scans, r.i));
    StackOfStep(p, scans, v);
  }

  lemma {:induction false} StaysOpen(stack: ImplStack, depth: int)
    requires stack != [] && stack[|stack| - 1].0 < depth
    ensures PopEnded(stack, depth) == stack
  {
  }

  /** A line that begins no impl block closes blocks, or does nothing to them. */
  lemma {:induction false} StackOfStep(p: Parsers, scans: seq<Scan>, v: Walk)
    requires v.i < |scans| && p.implType(Trim(scans[v.i].code)).None?
    ensures var r := Advance(p, scans, v);
      r.stack == v.stack || r.stack == PopEnded(v.stack, DepthAt(scans, r.i))
  {
    var trimmed := Trim(scans[v.i].code);
    var code := CodeLine(p, scans, v, trimmed);
    AdvanceIs(p, scans, v, code);
    StackOfCode(p, scans, v, trimmed);
    StackOfStepBy(scans, v, trimmed, trimmed != "" && p.isCfgTest(trimmed), code);
  }

  lemma {:induction false} StackOfCode(p: Parsers, scans: seq<Scan>, v: Walk, trimmed: string)
    requires v.i < |scans| && p.implType(trimmed).None?
    ensures var r := CodeLine(p, scans, v, trimmed); r.stack == PopEnded(v.stack, DepthAt(scans, r.i))
  {
  }

  lemma {:induction false} StackOfStepBy(scans: seq<Scan>, v: Walk, trimmed: string, attribute: bool, code: Walk)
    requires v.i < |scans| && code.i <= |scans| && code.stack == PopEnded(v.stack, DepthAt(scans, code.i))
    ensures var r := StepBy(scans, v, trimmed, attribute, code);
      r.i <= |scans| && (r.stack == v.stack || r.stack == PopEnded(v.stack, DepthAt(scans, r.i)))
  {
  }

  lemma {:induction false} RunWithin(p: Parsers, scans: seq<Scan>, v: Walk, i: nat, n: nat)
    requires v.i <= |scans| && v.stack != [] && i <= |scans| && v.stack[|v.stack| - 1].0 == DepthAt(scans, i)
    requires Within(p, scans, i, v.i, AdvanceN(p, scans, v, n).i)
    ensures AdvanceN(p, scans, v, n).stack == v.stack
    decreases n
  {
    if n > 0 && v.i < |scans| {
      var next := Advance(p, scans, v);
      RunRises(p, scans, next, n - 1);
      StepWithin(p, scans, v, i);
      RunWithin(p, scans, next, i, n - 1);
    }
  }

  lemma {:induction false} RunRises(p: Parsers, scans: seq<Scan>, v: Walk, n: nat)
    requires v.i <= |scans|
    ensures v.i <= AdvanceN(p, scans, v, n).i
    decreases n
  {
    if n > 0 && v.i < |scans| { RunRises(p, scans, Advance(p, scans, v), n - 1); }
  }

  /** As long as the depth stays above that before the impl line and no further impl block begins, the block is the
      innermost open one, whatever stands in between. */
  lemma {:induction false} ImplStaysInnermost(p: Parsers, scans: seq<Scan>, w: Walk, trimmed: string, ty: string,
                                              n: nat, m: Walk)
    requires StandsOn(scans, w, trimmed) && BeginsImpl(p, trimmed, ty) && n > 0 && m == AdvanceN(p, scans, w, n)
    requires Within(p, scans, w.i, w.i + 1, m.i) && DepthAt(scans, w.i + 1) > DepthAt(scans, w.i)
    ensures m.stack == w.stack + [(DepthAt(scans, w.i), ty)]
  {
    ImplStep(p, scans, w, trimmed, ty);
    AdvanceOnce(p, scans, w, n);
    RunInside(p, scans, Advance(p, scans, w), w.stack, (DepthAt(scans, w.i), ty), w.i, n - 1, m);
  }

  lemma {:induction false} RunInside(p: Parsers, scans: seq<Scan>, v: Walk, outer: ImplStack, block: (int, string),
                                     i: nat, n: nat, m: Walk)
    requires v.i <= |scans| && v.stack == outer + [block] && i <= |scans| && block.0 == DepthAt(scans, i)
    requires m == AdvanceN(p, scans, v, n) && Within(p, scans, i, v.i, m.i)
    ensures m.stack == outer + [block]
  {
    RunWithin(p, scans, v, i, n);
  }

  /** A function declared there is listed under the type of that block, however deep the block itself stands. */
  lemma {:induction false} MethodIsListedUnderItsImpl(p: Parsers, scans: seq<Scan>, w: Walk, trimmed: string,
                                                      ty: string, n: nat, m: Walk, line: string, name: string,
                                                      visibility: string)
    requires StandsOn(scans, w, trimmed) && BeginsImpl(p, trimmed, ty) && n > 0 && m == AdvanceN(p, scans, w, n)
    requires Within(p, scans, w.i, w.i + 1, m.i) && DepthAt(scans, w.i + 1) > DepthAt(scans, w.i)
    requires StandsOn(scans, m, line) && line != "" && !("#[" <= line) && Declares(p, line, name, Fn, visibility)
    ensures m.items + [Item(ty + "::" + name, Fn, visibility, m.i + 1)] <= Finish(p, scans, w)
  {
    ImplStaysInnermost(p, scans, w, trimmed, ty, n, m);
    MethodHere(p, scans, m, w.stack, (DepthAt(scans, w.i), ty), line, name, visibility);
    FinishAfter(p, scans, w, n);
  }

  lemma {:induction false} MethodHere(p: Parsers, scans: seq<Scan>, m: Walk, outer: ImplStack, block: (int, string),
                                      line: string, name: string, visibility: string)
    requires m.stack == outer + [block]
    requires StandsOn(scans, m, line) && line != "" && !("#[" <= line) && Declares(p, line, name, Fn, visibility)
    ensures m.items + [Item(block.1 + "::" + name, Fn, visibility, m.i + 1)] <= Finish(p, scans, m)
  {
    DeclaringLine(p, scans, m, line, name, Fn, visibility);
    ListedStays(p, scans, Advance(p, scans, m));
  }

  /** The line of code on which the walk stands brings the depth back to that before line i. */
  ghost predicate Closes(p: Parsers, scans: seq<Scan>, m: Walk, close: string, i: nat) {
    && StandsOn(scans, m, close) && close != "" && !p.isCfgTest(close) && !("#[" <= close)
    && p.implType(close).None? && !p.isPubUse(close) && i <= |scans| && DepthAt(scans, m.i + 1) == DepthAt(scans, i)
  }

  /** On the line that brings the depth back, the block is left: the stack is again what it was, without those outer
      blocks that end there too.  So a function declared behind it is listed under the next outer block that is still
      open, or plainly. */
  lemma {:induction false} ImplEndsWithItsBraces(p: Parsers, scans: seq<Scan>, w: Walk, trimmed: string, ty: string,
                                                 n: nat, m: Walk, close: string)
    requires StandsOn(scans, w, trimmed) && BeginsImpl(p, trimmed, ty) && n > 0 && m == AdvanceN(p, scans, w, n)
    requires Within(p, scans, w.i, w.i + 1, m.i) && DepthAt(scans, w.i + 1) > DepthAt(scans, w.i)
    requires Closes(p, scans, m, close, w.i)
    ensures Advance(p, scans, m).stack == PopEnded(w.stack, DepthAt(scans, m.i + 1))
  {
    ImplStaysInnermost(p, scans, w, trimmed, ty, n, m);
    PopsTheLast(w.stack, (DepthAt(scans, w.i), ty), DepthAt(scans, m.i + 1));
    CodeLineStack(p, scans, m, close);
  }

  /** So it is on a line that is skipped. */
  lemma {:induction false} ImplEndsWhileSkipping(p: Parsers, scans: seq<Scan>, w: Walk, trimmed: string, ty: string,
                                                 n: nat, m: Walk)
    requires StandsOn(scans, w, trimmed) && BeginsImpl(p, trimmed, ty) && n > 0 && m == AdvanceN(p, scans, w, n)
    requires Within(p, scans, w.i, w.i + 1, m.i) && DepthAt(scans, w.i + 1) > DepthAt(scans, w.i)
    requires m.i < |scans| && m.skip > 0 && DepthAt(scans, m.i + 1) <= DepthAt(scans, w.i)
    ensures Advance(p, scans, m).stack == PopEnded(w.stack, DepthAt(scans, m.i + 1))
  {
    ImplStaysInnermost(p, scans, w, trimmed, ty, n, m);
    PopsTheLast(w.stack, (DepthAt(scans, w.i), ty), DepthAt(scans, m.i + 1));
    SkippedStack(p, scans, m);
  }

  lemma {:induction false} SkippedStack(p: Parsers, scans: seq<Scan>, m: Walk)
    requires m.i < |scans| && m.skip > 0
    ensures Advance(p, scans, m).stack == PopEnded(m.stack, DepthAt(scans, m.i + 1))
  {
  }

  lemma {:induction false} PopsTheLast(stack: ImplStack, last: (int, string), depth: int)
    requires depth <= last.0
    ensures PopEnded(stack + [last], depth) == PopEnded(stack, depth)
  {
    assert (stack + [last])[..|stack|] == stack;
  }

  lemma {:induction false} CodeLineStack(p: Parsers, scans: seq<Scan>, m: Walk, line: string)
    requires StandsOn(scans, m, line) && line != "" && !p.isCfgTest(line) && !("#[" <= line)
    requires p.implType(line).None? && !p.isPubUse(line)
    ensures Advance(p, scans, m).stack == PopEnded(m.stack, DepthAt(scans, m.i + 1))
  {
  }

  lemma {:induction false} OneFurther(p: Parsers, scans: seq<Scan>, m: Walk, line: string)
    requires StandsOn(scans, m, line) && line != "" && !p.isCfgTest(line) && !("#[" <= line)
    requires p.implType(line).None? && !p.isPubUse(line)
    ensures Advance(p, scans, m).i == m.i + 1
  {
  }

  /** What a declared function is listed as, once the block is left. */
  lemma {:induction false} FunctionBehindImplIsListed(p: Parsers, scans: seq<Scan>, w: Walk, trimmed: string,
                                                      ty: string, n: nat, m: Walk, close: string, behind: Walk,
                                                      line: string, name: string, visibility: string)
    requires StandsOn(scans, w, trimmed) && BeginsImpl(p, trimmed, ty) && n > 0 && m == AdvanceN(p, scans, w, n)
    requires Within(p, scans, w.i, w.i + 1, m.i) && DepthAt(scans, w.i + 1) > DepthAt(scans, w.i)
    requires Closes(p, scans, m, close, w.i) && behind == Advance(p, scans, m) && StandsOn(scans, behind, line)
    requires w.stack == [] || w.stack[|w.stack| - 1].0 < DepthAt(scans, w.i)
    requires line != "" && !("#[" <= line) && Declares(p, line, name, Fn, visibility)
    ensures behind.items + [Item(if w.stack == [] then name else w.stack[|w.stack| - 1].1 + "::" + name, Fn, visibility,
                                 behind.i + 1)] <= Finish(p, scans, w)
  {
    ImplEndsWithItsBraces(p, scans, w, trimmed, ty, n, m, close);
    OneFurther(p, scans, m, close);
    ListedIn(p, scans, m, behind, w.stack, line, name, visibility);
    FinishAfter(p, scans, w, n);
  }

  lemma {:induction false} ListedIn(p: Parsers, scans: seq<Scan>, m: Walk, behind: Walk, outer: ImplStack,
                                    line: string, name: string, visibility: string)
    requires m.i < |scans| && behind == Advance(p, scans, m) && StandsOn(scans, behind, line)
    requires behind.stack == PopEnded(outer, DepthAt(scans, behind.i))
    requires outer == [] || outer[|outer| - 1].0 < DepthAt(scans, behind.i)
    requires line != "" && !("#[" <= line) && Declares(p, line, name, Fn, visibility)
    ensures behind.items + [Item(if outer == [] then name else outer[|outer| - 1].1 + "::" + name, Fn, visibility,
                                 behind.i + 1)] <= Finish(p, scans, m)
  {
    ListedBehind(p, scans, m, behind, line, name, Fn, visibility);
  }
}
