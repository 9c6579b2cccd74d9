/** The small scanners of the inventory parser (agents/unit-test-agent/src/inventory.rs): splitting at top-level
    commas, the end of a statement, and the end of a generics list. */
module InventoryText {
  import opened Common
  import opened Text

  /** Opening brackets minus closing ones. */
  function Depth(s: string, open: char, close: char): int {
    if s == "" then 0
    else
      var c := s[|s| - 1];
      Depth(s[..|s| - 1], open, close) + (if c == open then 1 else if c == close then -1 else 0)
  }

  // ---- top-level commas --------------------------------------------------------------------

  function AppendToLast(parts: seq<string>, c: char): seq<string>
    requires parts != []
  {
    parts[|parts| - 1 := parts[|parts| - 1] + [c]]
  }

  /** The text cut at every comma outside brackets. */
  function Pieces(s: string, open: char, close: char): (r: seq<string>)
    ensures r != []
  {
    if s == "" then [""]
    else
      var front := s[..|s| - 1];
      var c := s[|s| - 1];
      if c == ',' && c != open && c != close && Depth(front, open, close) == 0 then Pieces(front, open, close) + [""]
      else AppendToLast(Pieces(front, open, close), c)
  }

  method SplitCommaTopLevel(s: string) returns (out: seq<string>)
    ensures var all := Pieces(s, '{', '}');
      out == if Trim(all[|all| - 1]) == "" then all[..|all| - 1] else all
  {
    out := [];
    var cur := "";
    var depth := 0;
    for i := 0 to |s|
      invariant out + [cur] == Pieces(s[..i], '{', '}')
      invariant depth == Depth(s[..i], '{', '}')
    {
      assert s[..i + 1][..i] == s[..i];
      var c := s[i];
      if c == '{' {
        depth := depth + 1;
        cur := cur + [c];
      } else if c == '}' {
        depth := depth - 1;
        cur := cur + [c];
      } else if c == ',' && depth == 0 {
        out := out + [cur];
        cur := "";
      } else {
        cur := cur + [c];
      }
    }
    assert s[..|s|] == s;
    if Trim(cur) != "" {
      out := out + [cur];
    }
  }

  /** The pieces trimmed, the blank ones left out. */
  function Arguments(parts: seq<string>): seq<string> {
    if parts == [] then []
    else Arguments(parts[..|parts| - 1]) + Argument(parts[|parts| - 1])
  }

  function Argument(piece: string): seq<string> {
    if Trim(piece) == "" then [] else [Trim(piece)]
  }

  lemma ArgumentsOneMore(parts: seq<string>, piece: string)
    ensures Arguments(parts + [piece]) == Arguments(parts) + Argument(piece)
  {
    assert (parts + [piece])[..|parts|] == parts;
  }

  method PushArgument(out: seq<string>, piece: string) returns (r: seq<string>)
    ensures r == out + Argument(piece)
  {
    r := out;
    var t := Trim(piece);
    if t != "" {
      r := r + [t];
    }
  }

  method CfgAllArgs(inner: string) returns (out: seq<string>)
    ensures out == Arguments(Pieces(inner, '(', ')'))
  {
    out := [];
    var cur := "";
    var depth := 0;
    ghost var done: seq<string> := [];
    for i := 0 to |inner|
      invariant done + [cur] == Pieces(inner[..i], '(', ')')
      invariant out == Arguments(done)
      invariant depth == Depth(inner[..i], '(', ')')
    {
      assert inner[..i + 1][..i] == inner[..i];
      var c := inner[i];
      if c == '(' {
        depth := depth + 1;
        cur := cur + [c];
      } else if c == ')' {
        depth := depth - 1;
        cur := cur + [c];
      } else if c == ',' && depth == 0 {
        out := PushArgument(out, cur);
        ArgumentsOneMore(done, cur);
        done := done + [cur];
        cur := "";
      } else {
        cur := cur + [c];
      }
    }
    assert inner[..|inner|] == inner;
    out := PushArgument(out, cur);
    ArgumentsOneMore(done, cur);
  }

  function Join(parts: seq<string>): string
    requires parts != []
  {
    if |parts| == 1 then parts[0] else Join(parts[..|parts| - 1]) + "," + parts[|parts| - 1]
  }

  lemma JoinAppend(parts: seq<string>, c: char)
    requires parts != []
    ensures Join(AppendToLast(parts, c)) == Join(parts) + [c]
  {
    if |parts| > 1 {
      assert AppendToLast(parts, c)[..|parts| - 1] == parts[..|parts| - 1];
    }
  }

  /** Nothing is lost or moved: the pieces joined by commas are the text. */
  lemma {:induction false} JoinRestores(s: string, open: char, close: char)
    ensures Join(Pieces(s, open, close)) == s
  {
    if s != "" {
      var front := s[..|s| - 1];
      var parts := Pieces(front, open, close);
      JoinRestores(front, open, close);
      JoinAppend(parts, s[|s| - 1]);
      assert (parts + [""])[..|parts|] == parts;
      assert s == front + [s[|s| - 1]];
    }
  }

  /** A comma outside brackets, the brackets counted within the piece. */
  predicate TopComma(piece: string, k: nat, open: char, close: char) {
    k < |piece| && piece[k] == ',' && Depth(piece[..k], open, close) == 0
  }

  predicate NoTopComma(piece: string, open: char, close: char) {
    forall k :: 0 <= k < |piece| ==> !TopComma(piece, k, open, close)
  }

  lemma {:induction false} LastPieceDepth(s: string, open: char, close: char)
    requires open != ',' && close != ','
    ensures var all := Pieces(s, open, close); Depth(all[|all| - 1], open, close) == Depth(s, open, close)
  {
    if s != "" {
      var front := s[..|s| - 1];
      var parts := Pieces(front, open, close);
      LastPieceDepth(front, open, close);
      var last := parts[|parts| - 1];
      assert (last + [s[|s| - 1]])[..|last|] == last;
    }
  }

  /** Every cut that can be made is made: no piece has a comma outside brackets. */
  lemma {:induction false} PiecesHaveNoTopComma(s: string, open: char, close: char, j: nat)
    requires open != ',' && close != ',' && j < |Pieces(s, open, close)|
    ensures NoTopComma(Pieces(s, open, close)[j], open, close)
  {
    if s != "" {
      var front := s[..|s| - 1];
      var c := s[|s| - 1];
      var parts := Pieces(front, open, close);
      if j < |parts| {
        PiecesHaveNoTopComma(front, open, close, j);
      }
      if j == |parts| - 1 && |Pieces(s, open, close)| == |parts| {
        LastPieceDepth(front, open, close);
        var last := parts[j];
        forall k | 0 <= k < |last| + 1 ensures !TopComma(last + [c], k, open, close) {
          assert (last + [c])[..k] == last[..k];
          assert last[..|last|] == last;
          assert k < |last| ==> !TopComma(last, k, open, close);
        }
      }
    }
  }

  /** Every cut is allowed: the brackets are balanced in every piece but the last. */
  lemma {:induction false} PiecesAreBalanced(s: string, open: char, close: char, j: nat)
    requires open != ',' && close != ',' && j < |Pieces(s, open, close)| - 1
    ensures Depth(Pieces(s, open, close)[j], open, close) == 0
  {
    var front := s[..|s| - 1];
    var parts := Pieces(front, open, close);
    if j < |parts| - 1 {
      PiecesAreBalanced(front, open, close, j);
    } else {
      LastPieceDepth(front, open, close);
    }
  }

  /** A way to cut a text at commas: no comma outside brackets is left, and none inside brackets was cut. */
  ghost predicate IsCut(parts: seq<string>, open: char, close: char) {
    && parts != []
    && (forall j :: 0 <= j < |parts| ==> NoTopComma(parts[j], open, close))
    && (forall j :: 0 <= j < |parts| - 1 ==> Depth(parts[j], open, close) == 0)
  }

  lemma DepthConcat(a: string, b: string, open: char, close: char)
    ensures Depth(a + b, open, close) == Depth(a, open, close) + Depth(b, open, close)
  {
    if b == "" {
      assert a + b == a;
    } else {
      DepthConcat(a, b[..|b| - 1], open, close);
      assert (a + b)[..|a + b| - 1] == a + b[..|b| - 1];
    }
  }

  /** The depth of a joined cut is that of its last piece. */
  lemma {:induction false} JoinDepth(parts: seq<string>, open: char, close: char)
    requires IsCut(parts, open, close) && open != ',' && close != ','
    ensures Depth(Join(parts), open, close) == Depth(parts[|parts| - 1], open, close)
  {
    if |parts| > 1 {
      var n := |parts| - 1;
      JoinDepth(parts[..n], open, close);
      DepthConcat(Join(parts[..n]) + ",", parts[n], open, close);
      DepthConcat(Join(parts[..n]), ",", open, close);
      assert ","[..0] == "";
      assert parts[..n] != [];
    }
  }

  /** The cut is the only one: whatever parts join to the text, leave no comma outside brackets and are balanced up
      to the last are the pieces. */
  lemma {:induction false} OnlyOneCut(parts: seq<string>, open: char, close: char)
    requires IsCut(parts, open, close) && open != ',' && close != ','
    ensures Pieces(Join(parts), open, close) == parts
    decreases |Join(parts)|
  {
    var n := |parts| - 1;
    var last, s := parts[n], Join(parts);
    if last == "" {
      if n > 0 {
        assert s[..|s| - 1] == Join(parts[..n]);
        JoinDepth(parts[..n], open, close);
        OnlyOneCut(parts[..n], open, close);
        assert parts == parts[..n] + [""];
      }
    } else {
      var c, shorter := last[|last| - 1], parts[n := last[..|last| - 1]];
      ShorterIsCut(parts, open, close);
      JoinAppend(shorter, c);
      assert last[..|last| - 1] + [c] == last;
      assert AppendToLast(shorter, c) == parts;
      assert s == Join(shorter) + [c] && s[..|s| - 1] == Join(shorter);
      JoinDepth(shorter, open, close);
      OnlyOneCut(shorter, open, close);
      assert NoTopComma(parts[n], open, close);
      assert !TopComma(last, |last| - 1, open, close);
    }
  }

  lemma ShorterIsCut(parts: seq<string>, open: char, close: char)
    requires IsCut(parts, open, close) && parts[|parts| - 1] != ""
    ensures var last := parts[|parts| - 1]; IsCut(parts[|parts| - 1 := last[..|last| - 1]], open, close)
  {
    var n := |parts| - 1;
    var last := parts[n];
    var less := last[..|last| - 1];
    assert NoTopComma(parts[n], open, close);
    forall k | 0 <= k < |less| ensures !TopComma(less, k, open, close) {
      assert less[..k] == last[..k];
      assert !TopComma(last, k, open, close);
    }
  }

  /** Without the balance there would be several: here two ways to cut one text that leave no top comma. */
  lemma BalanceIsNeeded()
    ensures Join(["{,}"]) == Join(["{", "}"]) == "{,}"
    ensures NoTopComma("{,}", '{', '}') && NoTopComma("{", '{', '}') && NoTopComma("}", '{', '}')
    ensures Pieces("{,}", '{', '}') == ["{,}"]
  {
    assert ["{", "}"][..1] == ["{"];
    assert "{,}"[..2] == "{," && "{,"[..1] == "{" && "{"[..0] == "";
    assert Depth("{", '{', '}') == 1;
    assert IsCut(["{,}"], '{', '}');
    OnlyOneCut(["{,}"], '{', '}');
  }

  // ---- the end of a statement --------------------------------------------------------------

  /** A semicolon with no brace open before it. */
  predicate EndsAt(s: string, k: nat) {
    k < |s| && s[k] == ';' && Depth(s[..k], '{', '}') <= 0
  }

  predicate StatementComplete(s: string) {
    exists k :: 0 <= k < |s| && EndsAt(s, k)
  }

  method StatementCompleteAtSemi(s: string) returns (r: bool)
    ensures r == StatementComplete(s)
  {
    var depth := 0;
    for i := 0 to |s|
      invariant depth == Depth(s[..i], '{', '}')
      invariant forall k :: 0 <= k < i ==> !EndsAt(s, k)
    {
      assert s[..i + 1][..i] == s[..i];
      var c := s[i];
      if c == '{' {
        depth := depth + 1;
      } else if c == '}' {
        depth := depth - 1;
      } else if c == ';' && depth <= 0 {
        assert EndsAt(s, i);
        return true;
      }
    }
    return false;
  }

  // ---- the end of a generics list ----------------------------------------------------------

  /** Position k is just behind a closing angle that brings the depth to zero. */
  predicate AngleClosed(s: string, k: nat) {
    0 < k <= |s| && s[k - 1] == '>' && Depth(s[..k], '<', '>') == 0
  }

  predicate FirstAngleClosed(s: string, k: nat) {
    AngleClosed(s, k) && forall j :: 0 <= j < k ==> !AngleClosed(s, j)
  }

  /** What follows the first such position. */
  method SkipAngle(s: string) returns (r: Option<string>)
    ensures r.None? <==> forall k :: 0 <= k <= |s| ==> !AngleClosed(s, k)
    ensures r.Some? ==> exists k :: 0 <= k <= |s| && FirstAngleClosed(s, k) && r.value == s[k..]
  {
    var depth := 0;
    for i := 0 to |s|
      invariant depth == Depth(s[..i], '<', '>')
      invariant forall k :: 0 <= k <= i ==> !AngleClosed(s, k)
    {
      assert s[..i + 1][..i] == s[..i];
      var c := s[i];
      if c == '<' {
        depth := depth + 1;
      } else if c == '>' {
        depth := depth - 1;
        if depth == 0 {
          assert FirstAngleClosed(s, i + 1);
          return Some(s[i + 1..]);
        }
      }
    }
    return None;
  }
}
