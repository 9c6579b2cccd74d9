/** What the inventory parser (agents/unit-test-agent/src/inventory.rs) does with a file, said over the scans of
    its lines alone.  How one trimmed line is recognised is a parameter: everything here holds whatever the line
    parsers answer. */
module InventoryModel {
  import opened Common
  import opened Text
  import opened InventoryText
  import opened InventoryScan

  datatype ItemKind = Fn | Use | Other(keyword: string)

  datatype Item = Item(name: string, kind: ItemKind, visibility: string, line: nat)

  /** is_cfg_test_attr, parse_impl_type, is_pub_use_start, parse_pub_use_statement, parse_pub_item_line. */
  datatype Parsers = Parsers(
    isCfgTest: string -> bool,
    implType: string -> Option<string>,
    isPubUse: string -> bool,
    pubUse: string -> Option<(string, seq<string>)>,
    pubItem: string -> Option<(string, ItemKind, string)>)

  type ImplStack = seq<(int, string)>

  /** Where the walk over the lines stands. */
  datatype Walk = Walk(i: nat, skip: int, pending: bool, stack: ImplStack, items: seq<Item>)

  // ---- the scans of a file -----------------------------------------------------------------

  /** The string state some lines end in. */
  function EndState(scans: seq<Scan>): StringState {
    if scans == [] then Code else scans[|scans| - 1].state
  }

  /** Each line scanned in the state the lines before it end in. */
  function Scans(lines: seq<string>): (r: seq<Scan>)
    ensures |r| == |lines|
  {
    if lines == [] then []
    else
      var front := Scans(lines[..|lines| - 1]);
      front + [ScanFrom(lines[|lines| - 1], EndState(front))]
  }

  /** The file's brace depth before line i. */
  function DepthAt(scans: seq<Scan>, i: nat): int
    requires i <= |scans|
  {
    if i == 0 then 0 else DepthAt(scans, i - 1) + scans[i - 1].net
  }

  ghost predicate LineScanned(lines: seq<string>, scans: seq<Scan>, i: nat) {
    i < |lines| && i < |scans| && scans[i] == ScanFrom(lines[i], EndState(scans[..i]))
  }

  ghost predicate Scanned(lines: seq<string>, scans: seq<Scan>) {
    |scans| == |lines| && forall i :: 0 <= i < |lines| ==> LineScanned(lines, scans, i)
  }

  lemma {:induction false} ScansAreScanned(lines: seq<string>)
    ensures Scanned(lines, Scans(lines))
  {
    if lines != [] {
      var n := |lines| - 1;
      var front := Scans(lines[..n]);
      ScansAreScanned(lines[..n]);
      forall i | 0 <= i < n + 1 ensures LineScanned(lines, Scans(lines), i) {
        assert Scans(lines)[..i] == front[..i];
        if i < n {
          assert LineScanned(lines[..n], front, i);
        }
      }
    }
  }

  /** Scanning line by line is the only way to be scanned. */
  lemma {:induction false} ScannedIsUnique(lines: seq<string>, scans: seq<Scan>)
    requires Scanned(lines, scans)
    ensures scans == Scans(lines)
  {
    if lines != [] {
      var n := |lines| - 1;
      forall i | 0 <= i < n ensures LineScanned(lines[..n], scans[..n], i) {
        assert LineScanned(lines, scans, i);
        assert scans[..n][..i] == scans[..i];
      }
      ScannedIsUnique(lines[..n], scans[..n]);
      assert LineScanned(lines, scans, n);
      assert scans == scans[..n] + [scans[n]];
    }
  }

  // ---- one step of the walk ----------------------------------------------------------------

  /** Leave the impl blocks whose braces have closed. */
  function PopEnded(stack: ImplStack, depth: int): ImplStack {
    if stack != [] && depth <= stack[|stack| - 1].0 then PopEnded(stack[..|stack| - 1], depth) else stack
  }

  function UseItems(names: seq<string>, visibility: string, line: nat): seq<Item> {
    seq(|names|, k requires 0 <= k < |names| => Item(names[k], Use, visibility, line))
  }

  function UseStatement(p: Parsers, stmt: string, line: nat): seq<Item> {
    match p.pubUse(stmt)
    case Some((visibility, names)) => UseItems(names, visibility, line)
    case None => []
  }

  function Qualified(stack: ImplStack, kind: ItemKind, name: string): string {
    if kind.Fn? && stack != [] then stack[|stack| - 1].1 + "::" + name else name
  }

  function LineItems(p: Parsers, stack: ImplStack, trimmed: string, line: nat): seq<Item> {
    match p.pubItem(trimmed)
    case None => []
    case Some((visibility, kind, name)) =>
      if kind.Use? then UseStatement(p, trimmed, line)
      else [Item(Qualified(stack, kind, name), kind, visibility, line)]
  }

  /** The next line of a `pub use` statement, put behind what is there. */
  function AddLine(stmt: string, code: string): string {
    if Trim(code) == "" then stmt else stmt + " " + Trim(code)
  }

  /** Read on until the statement is complete or the file ends: the last line taken, and the statement. */
  function Gather(scans: seq<Scan>, end: nat, stmt: string): (r: (nat, string))
    requires end < |scans|
    ensures end <= r.0 < |scans|
    decreases |scans| - end
  {
    if StatementComplete(stmt) || end + 1 >= |scans| then (end, stmt)
    else Gather(scans, end + 1, AddLine(stmt, scans[end + 1].code))
  }

  /** A line in the body of a test module. */
  function SkipLine(scans: seq<Scan>, w: Walk): Walk
    requires w.i < |scans|
  {
    var skip := w.skip + scans[w.i].net;
    w.(i := w.i + 1, skip := if skip <= 0 then 0 else skip, stack := PopEnded(w.stack, DepthAt(scans, w.i + 1)))
  }

  /** The line behind a test attribute. */
  function AfterAttribute(scans: seq<Scan>, w: Walk, trimmed: string): Walk
    requires w.i < |scans|
  {
    var next := w.(i := w.i + 1);
    if "mod " <= trimmed then
      if '{' in trimmed then next.(skip := if scans[w.i].net > 1 then scans[w.i].net else 1, pending := false)
      else if trimmed[|trimmed| - 1] == ';' then next.(pending := false)
      else next
    else if trimmed == "{" then next.(skip := 1, pending := false)
    else next.(pending := false)
  }

  /** The walk behind a `pub use` that ends on line `end`: its names are listed with the number of its first line. */
  function BehindUse(p: Parsers, scans: seq<Scan>, w: Walk, end: nat, stmt: string): Walk
    requires end < |scans|
  {
    w.(i := end + 1,
       stack := PopEnded(w.stack, DepthAt(scans, end + 1)),
       items := w.items + UseStatement(p, stmt, w.i + 1))
  }

  /** A `pub use`, which may run over several lines. */
  function UseLines(p: Parsers, scans: seq<Scan>, w: Walk, trimmed: string): (r: Walk)
    requires w.i < |scans|
    ensures w.i < r.i <= |scans|
  {
    var (end, stmt) := Gather(scans, w.i, trimmed);
    BehindUse(p, scans, w, end, stmt)
  }

  function ItemLine(p: Parsers, scans: seq<Scan>, w: Walk, trimmed: string): Walk
    requires w.i < |scans|
  {
    w.(i := w.i + 1,
       stack := PopEnded(w.stack, DepthAt(scans, w.i + 1)),
       items := w.items + LineItems(p, w.stack, trimmed, w.i + 1))
  }

  /** The walk inside an impl block that begins on this line, if one does. */
  function Entered(scans: seq<Scan>, w: Walk, ty: Option<string>): Walk
    requires w.i <= |scans|
  {
    match ty
    case Some(name) => w.(stack := w.stack + [(DepthAt(scans, w.i), name)])
    case None => w
  }

  /** A line that may open an impl block or declare something. */
  function CodeLine(p: Parsers, scans: seq<Scan>, w: Walk, trimmed: string): (r: Walk)
    requires w.i < |scans|
    ensures w.i < r.i <= |scans|
  {
    var inside := Entered(scans, w, p.implType(trimmed));
    if p.isPubUse(trimmed) then UseLines(p, scans, inside, trimmed) else ItemLine(p, scans, inside, trimmed)
  }

  function Advance(p: Parsers, scans: seq<Scan>, w: Walk): (r: Walk)
    requires w.i < |scans|
    ensures w.i < r.i <= |scans|
  {
    var scan := scans[w.i];
    var trimmed := Trim(scan.code);
    var readable := scan.state.Code? || trimmed != "";
    if w.skip > 0 then SkipLine(scans, w)
    else if trimmed == "" && scan.state.Code? then w.(i := w.i + 1)
    else if readable && p.isCfgTest(trimmed) then w.(i := w.i + 1, pending := true)
    else if readable && "#[" <= trimmed then w.(i := w.i + 1)
    else if w.pending && scan.state.Code? then AfterAttribute(scans, w, trimmed)
    else if readable then CodeLine(p, scans, w, trimmed)
    else w.(i := w.i + 1, stack := PopEnded(w.stack, DepthAt(scans, w.i + 1)))
  }

  function Finish(p: Parsers, scans: seq<Scan>, w: Walk): seq<Item>
    requires w.i <= |scans|
    decreases |scans| - w.i
  {
    if w.i == |scans| then w.items else Finish(p, scans, Advance(p, scans, w))
  }

  /** The public items of a file. */
  function Inventory(p: Parsers, lines: seq<string>): seq<Item> {
    Finish(p, Scans(lines), Walk(0, 0, false, [], []))
  }
}
