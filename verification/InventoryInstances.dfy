/** Small files on which the treatment of test modules goes right or wrong. */
module InventoryInstances {
  import opened Common
  import opened Text
  import opened InventoryText
  import opened InventoryScan
  import opened InventoryModel
  import opened InventoryTheorems

  const ATTRIBUTE := "#[cfg(test)]"
  const EMPTY_MODULE := "mod a {}"
  const OPEN_MODULE := "mod a {"
  const PUB_MODULE := "pub mod a {"
  const ONE_LINE := "#[cfg(test)] mod a {"
  const CLOSE := "}"
  const HELPER := "fn g() {}"
  const FUNCTION := "pub fn f() {}"

  // ---- lines of plain code -----------------------------------------------------------------

  /** No comment, no string, nothing that could begin one, and no white space around it. */
  predicate Plain(s: string) {
    && s != "" && !IsWhitespace(s[0]) && !IsWhitespace(s[|s| - 1])
    && NoStart(s)
  }

  predicate NoStart(s: string) {
    forall i :: 0 <= i < |s| ==> s[i] != '/' && s[i] != 'r' && s[i] != '\"'
  }

  lemma {:induction false} PlainCode(s: string)
    requires NoStart(s)
    ensures ScanFrom(s, Code) == Scan(s, Depth(s, '{', '}'), Code)
  {
    if s != "" {
      PlainCode(s[1..]);
      DepthCons(s[0], s[1..]);
      assert s == [s[0]] + s[1..];
    }
  }

  lemma PlainTrim(s: string)
    requires Plain(s)
    ensures Trim(s) == s
  {
  }

  function PlainScan(s: string): Scan {
    Scan(s, Depth(s, '{', '}'), Code)
  }

  function PlainScans(lines: seq<string>): seq<Scan> {
    seq(|lines|, i requires 0 <= i < |lines| => PlainScan(lines[i]))
  }

  lemma PlainFile(lines: seq<string>)
    requires forall i :: 0 <= i < |lines| ==> Plain(lines[i])
    ensures Scans(lines) == PlainScans(lines)
  {
    var scans := PlainScans(lines);
    forall i | 0 <= i < |lines| ensures LineScanned(lines, scans, i) {
      assert EndState(scans[..i]) == Code;
      PlainCode(lines[i]);
    }
    ScannedIsUnique(lines, scans);
  }

  lemma {:induction false} NoBraces(s: string)
    requires '{' !in s && '}' !in s
    ensures Depth(s, '{', '}') == 0
  {
    if s != "" { NoBraces(s[..|s| - 1]); }
  }

  lemma OneBrace(front: string)
    requires '{' !in front && '}' !in front
    ensures Depth(front + "{", '{', '}') == 1
  {
    NoBraces(front);
    assert (front + "{")[..|front|] == front;
  }

  lemma BracePair(front: string)
    requires '{' !in front && '}' !in front
    ensures Depth(front + "{}", '{', '}') == 0
  {
    OneBrace(front);
    assert (front + "{}")[..|front| + 1] == front + "{";
  }

  // ---- the parsers' part -------------------------------------------------------------------

  /** On its own the line declares the item. */
  predicate Declares(p: Parsers, line: string, name: string, kind: ItemKind, visibility: string) {
    && !p.isCfgTest(line) && p.implType(line).None? && !p.isPubUse(line)
    && p.pubItem(line) == Some((visibility, kind, name)) && !kind.Use?
  }

  predicate TestAttribute(p: Parsers, line: string) {
    p.isCfgTest(line)
  }

  lemma AttributeStep(p: Parsers, scans: seq<Scan>, line: string)
    requires scans != [] && scans[0] == PlainScan(line) && Plain(line) && TestAttribute(p, line)
    ensures Advance(p, scans, Walk(0, 0, false, [], [])) == Walk(1, 0, true, [], [])
  {
    PlainTrim(line);
  }

  lemma ItemStep(p: Parsers, scans: seq<Scan>, i: nat, line: string, item: Item)
    requires i < |scans| && scans[i] == PlainScan(line) && Plain(line) && !("#[" <= line)
    requires Declares(p, line, item.name, item.kind, item.visibility) && item.line == i + 1
    ensures Advance(p, scans, Walk(i, 0, false, [], [])) == Walk(i + 1, 0, false, [], [item])
  {
    PlainTrim(line);
    assert [] + [item] == [item];
  }

  /** What is listed stays listed. */
  lemma {:induction false} ListedStays(p: Parsers, scans: seq<Scan>, w: Walk)
    requires w.i <= |scans|
    ensures w.items <= Finish(p, scans, w)
    decreases |scans| - w.i
  {
    if w.i < |scans| {
      AddedItems(p, scans, w);
      ListedStays(p, scans, Advance(p, scans, w));
    }
  }

  // ---- an empty test module on one line ----------------------------------------------------

  lemma NothingBehindBalancedModule(p: Parsers, a: string, b: string, c: string)
    requires Plain(a) && Plain(b) && Plain(c) && PlainScan(b).net == 0 && PlainScan(c).net == 0
    requires TestAttribute(p, a) && !TestAttribute(p, b) && "mod " <= b && '{' in b
    ensures Inventory(p, [a, b, c]) == []
  {
    var scans := PlainScans([a, b, c]);
    PlainFile([a, b, c]);
    PlainTrim(b);
    AttributeStep(p, scans, a);
    EmptyTail(scans);
    BalancedTestModuleHidesTheRest(p, scans, Walk(1, 0, true, [], []));
  }

  lemma EmptyTail(scans: seq<Scan>)
    requires |scans| == 3 && scans[2].net == 0
    ensures NeverBelow(scans, 2)
  {
    forall e | 2 <= e <= 3 ensures Moved(scans, 2, e) >= 0 {
      assert e == 2 || e == 3;
    }
  }

  /** A public function behind `mod a {}` is not found. */
  lemma FunctionBehindEmptyTestModuleIsMissed(p: Parsers)
    requires TestAttribute(p, ATTRIBUTE) && !TestAttribute(p, EMPTY_MODULE)
    ensures Inventory(p, [ATTRIBUTE, EMPTY_MODULE, FUNCTION]) == []
  {
    AttributeText();
    EmptyModuleText();
    FunctionText();
    NothingBehindBalancedModule(p, ATTRIBUTE, EMPTY_MODULE, FUNCTION);
  }

  lemma ItemBehindOpenModule(p: Parsers, a: string, b: string, c: string, d: string, item: Item)
    requires Plain(a) && Plain(b) && Plain(c) && Plain(d) && PlainScan(b).net == 1 && PlainScan(c).net == -1
    requires TestAttribute(p, a) && !TestAttribute(p, b) && "mod " <= b && '{' in b
    requires !("#[" <= d) && Declares(p, d, item.name, item.kind, item.visibility) && item.line == 4
    ensures Inventory(p, [a, b, c, d]) == [item]
  {
    var scans := PlainScans([a, b, c, d]);
    PlainFile([a, b, c, d]);
    PlainTrim(b);
    AttributeStep(p, scans, a);
    TestModuleStarts(p, scans, Walk(1, 0, true, [], []));
    assert Advance(p, scans, Walk(2, 1, false, [], [])) == Walk(3, 0, false, [], []);
    ItemStep(p, scans, 3, d, item);
    FourSteps(p, scans, Walk(0, 0, false, [], []), Walk(1, 0, true, [], []), Walk(2, 1, false, [], []),
              Walk(3, 0, false, [], []), Walk(4, 0, false, [], [item]));
  }

  lemma FourSteps(p: Parsers, scans: seq<Scan>, w0: Walk, w1: Walk, w2: Walk, w3: Walk, w4: Walk)
    requires |scans| == 4 && w0.i == 0 && w1.i == 1 && w2.i == 2 && w3.i == 3 && w4.i == 4
    requires Advance(p, scans, w0) == w1 && Advance(p, scans, w1) == w2
    requires Advance(p, scans, w2) == w3 && Advance(p, scans, w3) == w4
    ensures Finish(p, scans, w0) == w4.items
  {
    assert Finish(p, scans, w3) == Finish(p, scans, w4);
    assert Finish(p, scans, w1) == Finish(p, scans, w2);
  }

  /** With the same module over two lines the function is found, so it is the one line that hides it. */
  lemma FunctionBehindTwoLineTestModuleIsFound(p: Parsers, item: Item)
    requires TestAttribute(p, ATTRIBUTE) && !TestAttribute(p, OPEN_MODULE)
    requires Declares(p, FUNCTION, item.name, item.kind, item.visibility) && item.line == 4
    ensures Inventory(p, [ATTRIBUTE, OPEN_MODULE, CLOSE, FUNCTION]) == [item]
  {
    AttributeText();
    OpenModuleText();
    CloseText();
    FunctionText();
    ItemBehindOpenModule(p, ATTRIBUTE, OPEN_MODULE, CLOSE, FUNCTION, item);
  }

  // ---- test modules that start no skip -----------------------------------------------------

  lemma ItemInUnskippedModule(p: Parsers, a: string, b: string, c: string, d: string, item: Item)
    requires Plain(a) && Plain(b) && Plain(c) && Plain(d)
    requires TestAttribute(p, a) && !OpensTestBody(p, b) && !KeepsWaiting(p, b)
    requires !("#[" <= c) && Declares(p, c, item.name, item.kind, item.visibility) && item.line == 3
    ensures item in Inventory(p, [a, b, c, d])
  {
    var scans := PlainScans([a, b, c, d]);
    PlainFile([a, b, c, d]);
    PlainTrim(b);
    AttributeStep(p, scans, a);
    PendingLine(p, scans, Walk(1, 0, true, [], []));
    NeverNegative(p, scans, Walk(1, 0, true, [], []));
    ItemStep(p, scans, 2, c, item);
    ThirdLineIsListed(p, scans, Walk(1, 0, true, [], []), Walk(2, 0, false, [], []), item);
  }

  lemma NeverNegative(p: Parsers, scans: seq<Scan>, w: Walk)
    requires w.i < |scans| && w.skip >= 0
    ensures Advance(p, scans, w).skip >= 0
  {
  }

  lemma ThirdLineIsListed(p: Parsers, scans: seq<Scan>, w1: Walk, w2: Walk, item: Item)
    requires |scans| == 4 && w1.i == 1 && w2.i == 2
    requires Advance(p, scans, Walk(0, 0, false, [], [])) == w1 && Advance(p, scans, w1) == w2
    requires Advance(p, scans, w2) == Walk(3, 0, false, [], [item])
    ensures item in Finish(p, scans, Walk(0, 0, false, [], []))
  {
    var w3 := Walk(3, 0, false, [], [item]);
    ListedStays(p, scans, w3);
    assert Finish(p, scans, w2) == Finish(p, scans, w3);
    assert Finish(p, scans, w1) == Finish(p, scans, w2);
    assert w3.items[0] == Finish(p, scans, w3)[0];
  }

  /** A public test module leaves a brace open and is not skipped: what it declares is listed. */
  lemma PublicTestModuleIsListed(p: Parsers, item: Item)
    requires TestAttribute(p, ATTRIBUTE) && !TestAttribute(p, PUB_MODULE)
    requires Declares(p, FUNCTION, item.name, item.kind, item.visibility) && item.line == 3
    ensures item in Inventory(p, [ATTRIBUTE, PUB_MODULE, FUNCTION, CLOSE])
  {
    AttributeText();
    PubModuleText();
    FunctionText();
    CloseText();
    ItemInUnskippedModule(p, ATTRIBUTE, PUB_MODULE, FUNCTION, CLOSE, item);
  }

  /** With the attribute and the module on one line only the first line of the body is left out. */
  lemma TestModuleOnTheAttributeLineIsListed(p: Parsers, item: Item)
    requires TestAttribute(p, ONE_LINE) && !TestAttribute(p, HELPER)
    requires Declares(p, FUNCTION, item.name, item.kind, item.visibility) && item.line == 3
    ensures item in Inventory(p, [ONE_LINE, HELPER, FUNCTION, CLOSE])
  {
    assert Plain(ONE_LINE);
    HelperText();
    FunctionText();
    CloseText();
    ItemInUnskippedModule(p, ONE_LINE, HELPER, FUNCTION, CLOSE, item);
  }

  // ---- the lines ---------------------------------------------------------------------------

  lemma AttributeText()
    ensures Plain(ATTRIBUTE)
  {
  }

  lemma EmptyModuleText()
    ensures Plain(EMPTY_MODULE) && PlainScan(EMPTY_MODULE).net == 0
    ensures "mod " <= EMPTY_MODULE && '{' in EMPTY_MODULE
  {
    BracePair("mod a ");
    assert EMPTY_MODULE == "mod a " + "{}";
    assert EMPTY_MODULE[6] == '{';
  }

  lemma OpenModuleText()
    ensures Plain(OPEN_MODULE) && PlainScan(OPEN_MODULE).net == 1
    ensures "mod " <= OPEN_MODULE && '{' in OPEN_MODULE
  {
    OneBrace("mod a ");
    assert OPEN_MODULE == "mod a " + "{";
    assert OPEN_MODULE[6] == '{';
  }

  lemma CloseText()
    ensures Plain(CLOSE) && PlainScan(CLOSE).net == -1
  {
    assert CLOSE[..0] == "";
  }

  lemma FunctionText()
    ensures Plain(FUNCTION) && PlainScan(FUNCTION).net == 0 && !("#[" <= FUNCTION)
  {
    BracePair("pub fn f() ");
    assert FUNCTION == "pub fn f() " + "{}";
    assert FUNCTION[0] == 'p';
  }

  lemma PubModuleText()
    ensures Plain(PUB_MODULE) && !("mod " <= PUB_MODULE) && !("#[" <= PUB_MODULE) && PUB_MODULE != "{"
  {
    assert PUB_MODULE[0] == 'p';
  }

  lemma HelperText()
    ensures Plain(HELPER) && !("mod " <= HELPER) && !("#[" <= HELPER) && HELPER != "{"
  {
    assert HELPER[0] == 'f';
  }
}
