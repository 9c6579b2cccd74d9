/** The recogniser of test attributes (agents/unit-test-agent/src/inventory.rs). */
module InventoryAttributes {
  import opened Text
  import opened InventoryText
  import I = InventoryInstances

  const CFG := "#[cfg("
  const CFG_TEST := "#[cfg(test)]"
  const CFG_ALL := "#[cfg(all("
  const ALL_END := "))]"

  /** The text without its white space. */
  function Compact(s: string): string {
    if s == "" then ""
    else (if IsWhitespace(s[0]) then "" else [s[0]]) + Compact(s[1..])
  }

  predicate EndsIn(s: string, end: string) {
    |end| <= |s| && s[|s| - |end|..] == end
  }

  /** At most one closing bracket and the square one come off. */
  function WithoutEnd(inner: string): string {
    if EndsIn(inner, ")]") then inner[..|inner| - 2]
    else if EndsIn(inner, "]") then inner[..|inner| - 1]
    else inner
  }

  predicate IsCfgTestAttr(trimmed: string) {
    var t := Trim(trimmed);
    CFG <= t &&
    var compact := Compact(t);
    CFG_TEST <= compact ||
    (CFG_ALL <= compact && "test" in Arguments(Pieces(WithoutEnd(compact[|CFG_ALL|..]), '(', ')')))
  }

  // ---- lists of conditions -----------------------------------------------------------------

  predicate NoSpace(s: string) {
    forall i :: 0 <= i < |s| ==> !IsWhitespace(s[i])
  }

  /** A condition inside all(...), white space aside: not empty, brackets balanced, no comma outside them. */
  predicate Condition(s: string) {
    s != "" && NoSpace(s) && Depth(s, '(', ')') == 0 && NoTopComma(s, '(', ')')
  }

  lemma {:induction false} CompactKeeps(s: string)
    requires NoSpace(s)
    ensures Compact(s) == s
  {
    if s != "" {
      assert !IsWhitespace(s[0]);
      forall i | 0 <= i < |s[1..]| ensures !IsWhitespace(s[1..][i]) {
        assert s[1..][i] == s[i + 1];
      }
      CompactKeeps(s[1..]);
    }
  }

  lemma {:induction false} ArgumentsKeep(parts: seq<string>)
    requires forall i :: 0 <= i < |parts| ==> parts[i] != "" && NoSpace(parts[i])
    ensures Arguments(parts) == parts
  {
    if parts != [] {
      var last := parts[|parts| - 1];
      ArgumentsKeep(parts[..|parts| - 1]);
      assert !IsWhitespace(last[0]) && !IsWhitespace(last[|last| - 1]);
      assert Trim(last) == last;
      assert parts == parts[..|parts| - 1] + [last];
    }
  }

  /** With its closing bracket the last condition still adds no cut. */
  lemma ClosedLastIsCut(args: seq<string>)
    requires args != [] && forall i :: 0 <= i < |args| ==> Condition(args[i])
    ensures IsCut(AppendToLast(args, ')'), '(', ')')
  {
    var last := args[|args| - 1];
    assert Condition(last);
    forall k | 0 <= k < |last| + 1 ensures !TopComma(last + [')'], k, '(', ')') {
      if k < |last| {
        assert (last + [')'])[..k] == last[..k];
        assert !TopComma(last, k, '(', ')');
      }
    }
    forall j | 0 <= j < |args| - 1 ensures NoTopComma(args[j], '(', ')') && Depth(args[j], '(', ')') == 0 {
      assert Condition(args[j]);
    }
  }

  lemma OneBracketStays(list: string)
    ensures WithoutEnd(list + ALL_END) == list + [')']
  {
    var inner := list + ALL_END;
    assert inner[|inner| - 2..] == ")]";
    assert inner[..|inner| - 2] == list + [')'];
  }

  /** What the recogniser takes for the list: its last condition keeps the bracket that closes all(...). */
  lemma ConditionsAsRead(args: seq<string>)
    requires args != [] && forall i :: 0 <= i < |args| ==> Condition(args[i])
    ensures Arguments(Pieces(Join(args) + [')'], '(', ')')) == AppendToLast(args, ')')
  {
    JoinAppend(args, ')');
    ClosedLastIsCut(args);
    OnlyOneCut(AppendToLast(args, ')'), '(', ')');
    ClosedLastIsKept(args);
  }

  lemma ClosedLastIsKept(args: seq<string>)
    requires args != [] && forall i :: 0 <= i < |args| ==> Condition(args[i])
    ensures Arguments(AppendToLast(args, ')')) == AppendToLast(args, ')')
  {
    var read := AppendToLast(args, ')');
    forall i | 0 <= i < |read| ensures read[i] != "" && NoSpace(read[i]) {
      assert Condition(args[i]);
    }
    ArgumentsKeep(read);
  }

  lemma RecognisedByList(s: string, inner: string)
    requires CFG <= Trim(s) && Compact(Trim(s)) == CFG_ALL + inner
    ensures IsCfgTestAttr(s) <==> "test" in Arguments(Pieces(WithoutEnd(inner), '(', ')'))
  {
    var compact := Compact(Trim(s));
    assert compact[6] == CFG_ALL[6] && CFG_ALL[6] == 'a' && CFG_TEST[6] == 't';
    assert compact[|CFG_ALL|..] == inner && compact[..|CFG_ALL|] == CFG_ALL;
  }

  lemma ClosedLastIsNotTest(args: seq<string>)
    requires args != []
    ensures "test" in AppendToLast(args, ')') <==> exists i :: 0 <= i < |args| - 1 && args[i] == "test"
  {
    var read := AppendToLast(args, ')');
    var last := read[|args| - 1];
    assert last[|last| - 1] == ')' && "test"[3] == 't';
    if i :| 0 <= i < |args| - 1 && args[i] == "test" {
      assert read[i] == "test";
    }
    if "test" in read {
      var i :| 0 <= i < |read| && read[i] == "test";
      assert args[i] == "test";
    }
  }

  /** However it is spaced, an attribute cfg(all(...)) is taken for a test attribute exactly when `test` stands among
      its conditions and is not the last: from the last one the closing bracket is not taken off. */
  lemma AllRecognisedExactlyWhen(s: string, args: seq<string>)
    requires args != [] && forall i :: 0 <= i < |args| ==> Condition(args[i])
    requires CFG <= Trim(s) && Compact(Trim(s)) == CFG_ALL + (Join(args) + ALL_END)
    ensures IsCfgTestAttr(s) <==> exists i :: 0 <= i < |args| - 1 && args[i] == "test"
  {
    RecognisedByList(s, Join(args) + ALL_END);
    OneBracketStays(Join(args));
    ConditionsAsRead(args);
    ClosedLastIsNotTest(args);
  }

  /** So of two conditions only the first can be `test`: behind another condition it is missed, although the
      attribute is one of a test module. */
  lemma TestAsLastConditionIsMissed(a: string, b: string)
    requires Word(a) && Word(b)
    ensures IsCfgTestAttr(CFG_ALL + a + ", " + b + ALL_END) <==> a == "test"
  {
    var s := CFG_ALL + a + ", " + b + ALL_END;
    var args := [a, b];
    assert args[..1] == [a];
    assert Join(args) == a + "," + b;
    TwoConditionsSpaced(a, b);
    NoBrackets(a);
    NoBrackets(b);
    AllRecognisedExactlyWhen(s, args);
    assert args[0] == a;
  }

  predicate Word(s: string) {
    s != "" && NoSpace(s) && '(' !in s && ')' !in s && ',' !in s
  }

  lemma TwoConditionsSpaced(a: string, b: string)
    requires Word(a) && Word(b)
    ensures var s := CFG_ALL + a + ", " + b + ALL_END;
      Trim(s) == s && CFG <= s && Compact(s) == CFG_ALL + (a + "," + b + ALL_END)
  {
    var s := CFG_ALL + a + ", " + b + ALL_END;
    var front, back := CFG_ALL + a + ",", b + ALL_END;
    assert s == front + " " + back && front + back == CFG_ALL + (a + "," + b + ALL_END);
    SpacedOnce(front, back);
    assert s[0] == '#' && s[|s| - 1] == ']';
    assert s[..|CFG_ALL|] == CFG_ALL && CFG_ALL[..|CFG|] == CFG;
  }

  lemma SpacedOnce(a: string, b: string)
    requires NoSpace(a) && NoSpace(b)
    ensures Compact(a + " " + b) == a + b
  {
    CompactConcat(a + " ", b);
    CompactConcat(a, " ");
    CompactKeeps(a);
    CompactKeeps(b);
    assert Compact(" ") == "" by { assert " "[1..] == ""; }
  }

  lemma {:induction false} CompactConcat(a: string, b: string)
    ensures Compact(a + b) == Compact(a) + Compact(b)
  {
    if a == "" {
      assert a + b == b;
    } else {
      assert (a + b)[1..] == a[1..] + b;
      CompactConcat(a[1..], b);
    }
  }

  lemma {:induction false} NoBrackets(s: string)
    requires '(' !in s && ')' !in s
    ensures Depth(s, '(', ')') == 0
  {
    if s != "" { NoBrackets(s[..|s| - 1]); }
  }

  lemma WithoutCfg(s: string)
    requires s != "" && s[0] != '#' && !IsWhitespace(s[0])
    ensures !IsCfgTestAttr(s)
  {
    assert TrimStart(s) == s && CFG[0] == '#';
    TrimEndIsPrefix(s);
  }

  lemma {:induction false} TrimEndIsPrefix(s: string)
    ensures TrimEnd(s) <= s
  {
    if s != "" { TrimEndIsPrefix(s[..|s| - 1]); }
  }

  lemma PrefixOfBoth(a: string, b: string, prefix: string)
    requires prefix <= a
    ensures prefix <= a + b
  {
  }

  lemma RecognisedByPrefix(s: string)
    requires CFG <= Trim(s) && CFG_TEST <= Compact(Trim(s))
    ensures IsCfgTestAttr(s)
  {
  }

  lemma CfgTestIsCompact()
    ensures Compact(CFG_TEST) == CFG_TEST && CFG <= CFG_TEST
  {
    CompactKeeps(CFG_TEST);
  }

  /** `#[cfg(test)]` is recognised, whatever follows on the line. */
  lemma CfgTestIsRecognised(rest: string)
    requires rest == "" || !IsWhitespace(rest[|rest| - 1])
    ensures IsCfgTestAttr(CFG_TEST + rest)
  {
    CfgTestIsCompact();
    CompactConcat(CFG_TEST, rest);
    PrefixOfBoth(CFG_TEST, rest, CFG);
    PrefixOfBoth(CFG_TEST, Compact(rest), CFG_TEST);
    TrimKeepsAttribute(rest);
    RecognisedByPrefix(CFG_TEST + rest);
  }

  lemma TrimKeepsAttribute(rest: string)
    requires rest == "" || !IsWhitespace(rest[|rest| - 1])
    ensures Trim(CFG_TEST + rest) == CFG_TEST + rest
  {
    var s := CFG_TEST + rest;
    assert s[0] == '#' && !IsWhitespace(s[|s| - 1]);
  }

  lemma AttributesAreRecognised()
    ensures IsCfgTestAttr(I.ATTRIBUTE) && IsCfgTestAttr(I.ONE_LINE)
  {
    CfgTestIsRecognised("");
    CfgTestIsRecognised(" mod a {");
    AttributeLines();
  }

  lemma AttributeLines()
    ensures I.ATTRIBUTE == CFG_TEST + "" && I.ONE_LINE == CFG_TEST + " mod a {"
  {
  }

  lemma OtherLinesAreNot()
    ensures !IsCfgTestAttr(I.EMPTY_MODULE) && !IsCfgTestAttr(I.OPEN_MODULE) && !IsCfgTestAttr(I.PUB_MODULE)
    ensures !IsCfgTestAttr(I.HELPER) && !IsCfgTestAttr(I.FUNCTION)
  {
    WithoutCfg(I.EMPTY_MODULE);
    WithoutCfg(I.OPEN_MODULE);
    WithoutCfg(I.PUB_MODULE);
    WithoutCfg(I.HELPER);
    WithoutCfg(I.FUNCTION);
  }

  /** The lines of InventoryInstances are recognised as they are taken to be there. */
  lemma InstancesAreRecognised()
    ensures IsCfgTestAttr(I.ATTRIBUTE) && IsCfgTestAttr(I.ONE_LINE)
    ensures !IsCfgTestAttr(I.EMPTY_MODULE) && !IsCfgTestAttr(I.OPEN_MODULE) && !IsCfgTestAttr(I.PUB_MODULE)
    ensures !IsCfgTestAttr(I.HELPER) && !IsCfgTestAttr(I.FUNCTION)
  {
    AttributesAreRecognised();
    OtherLinesAreNot();
  }
}
