/** The line scanner against the tokens of the language.  Character literals and block comments are plain code to
    it, so a quote or a brace in one of them misleads it. */
module InventoryTokens {
  import opened Common
  import opened InventoryText
  import opened InventoryScan

  /** Where a line ends for the language: in code, in a string, or n block comments deep. */
  datatype TokenState = InCode | InStr | InRaw(hashes: nat) | InComment(depth: nat)

  datatype Tokens = Tokens(net: int, end: TokenState)

  const QUOTE := '\''

  /** The position of the next single quote, or the length of the text. */
  function QuoteAt(s: string): (k: nat)
    ensures k <= |s| && (k < |s| ==> s[k] == QUOTE)
  {
    if s == "" || s[0] == QUOTE then 0 else 1 + QuoteAt(s[1..])
  }

  /** How long the character literal is that the text begins with; 0 if there is none, as before a lifetime. */
  function LiteralLength(s: string): (n: nat)
    ensures n <= |s| && n != 1 && (n > 0 ==> s[0] == QUOTE && s[n - 1] == QUOTE)
  {
    if |s| < 3 || s[0] != QUOTE then 0
    else if s[1] == '\\' then
      var k := QuoteAt(s[3..]);
      if 3 + k < |s| then 4 + k else 0
    else if s[1] != QUOTE && s[2] == QUOTE then 3
    else 0
  }

  /** Braces outside strings, characters and comments.  Block comments nest. */
  function LexFrom(s: string, state: TokenState): Tokens
    decreases |s|
  {
    if s == "" then Tokens(0, state)
    else
      match state
      case InCode =>
        if |s| > 1 && s[0] == '/' && s[1] == '/' then Tokens(0, InCode)
        else if |s| > 1 && s[0] == '/' && s[1] == '*' then LexFrom(s[2..], InComment(1))
        else if s[0] == 'r' && OpensRaw(s[1..]) then
          LexFrom(s[LeadingHashes(s[1..]) + 2..], InRaw(LeadingHashes(s[1..])))
        else if s[0] == '\"' then LexFrom(s[1..], InStr)
        else if LiteralLength(s) > 0 then LexFrom(s[LiteralLength(s)..], InCode)
        else
          var rest := LexFrom(s[1..], InCode);
          Tokens(Brace(s[0]) + rest.net, rest.end)
      case InStr =>
        if s[0] == '\\' && |s| > 1 then LexFrom(s[2..], InStr)
        else LexFrom(s[1..], if s[0] == '\"' then InCode else InStr)
      case InRaw(hashes) =>
        if s[0] == '\"' && ClosesRaw(s[1..], hashes) then LexFrom(s[1 + hashes..], InCode)
        else LexFrom(s[1..], state)
      case InComment(depth) =>
        if |s| > 1 && s[0] == '*' && s[1] == '/' then
          LexFrom(s[2..], if depth <= 1 then InCode else InComment(depth - 1))
        else if |s| > 1 && s[0] == '/' && s[1] == '*' then LexFrom(s[2..], InComment(depth + 1))
        else LexFrom(s[1..], state)
  }

  function TokenOf(state: StringState): TokenState {
    match state
    case Code => InCode
    case NormalStr => InStr
    case RawStr(hashes) => InRaw(hashes)
  }

  /** A literal that looks like balanced code without strings or comments. */
  predicate Harmless(t: string) {
    '\"' !in t && Depth(t, '{', '}') == 0 && forall k :: 0 <= k < |t| - 1 ==> !SlashesAt(t, k)
  }

  predicate SlashesAt(t: string, k: nat)
    requires k + 1 < |t|
  {
    t[k] == '/' && t[k + 1] == '/'
  }

  /** On this line no block comment begins, and every character literal is harmless. */
  predicate Legible(s: string, state: StringState)
    decreases |s|
  {
    s == "" ||
    match state
    case Code =>
      if |s| > 1 && s[0] == '/' && s[1] == '/' then true
      else if |s| > 1 && s[0] == '/' && s[1] == '*' then false
      else if s[0] == 'r' && OpensRaw(s[1..]) then
        Legible(s[LeadingHashes(s[1..]) + 2..], RawStr(LeadingHashes(s[1..])))
      else if s[0] == '\"' then Legible(s[1..], NormalStr)
      else if LiteralLength(s) > 0 then Harmless(s[..LiteralLength(s)]) && Legible(s[LiteralLength(s)..], Code)
      else Legible(s[1..], Code)
    case NormalStr =>
      if s[0] == '\\' && |s| > 1 then Legible(s[2..], NormalStr)
      else Legible(s[1..], if s[0] == '\"' then Code else NormalStr)
    case RawStr(hashes) =>
      if s[0] == '\"' && ClosesRaw(s[1..], hashes) then Legible(s[1 + hashes..], Code)
      else Legible(s[1..], state)
  }

  // ---- a literal read as code --------------------------------------------------------------

  /** No raw string begins before a single quote. */
  lemma {:induction false} HashesStop(t: string, rest: string)
    requires t != "" && t[|t| - 1] == QUOTE && '\"' !in t
    ensures !OpensRaw(t + rest)
  {
    assert (t + rest)[0] == t[0] && t[0] in t;
    if t[0] == '#' {
      assert (t + rest)[1..] == t[1..] + rest;
      HashesStop(t[1..], rest);
    }
  }

  /** Text without quotes and comments that ends in a single quote is taken over as it is. */
  lemma {:induction false} ReadAsCode(t: string, rest: string)
    requires t != "" ==> t[|t| - 1] == QUOTE
    requires '\"' !in t && forall k :: 0 <= k < |t| - 1 ==> !SlashesAt(t, k)
    ensures ScanFrom(t + rest, Code) == Behind(t, Depth(t, '{', '}'), ScanFrom(rest, Code))
  {
    if t == "" {
      assert t + rest == rest && "" + ScanFrom(rest, Code).code == ScanFrom(rest, Code).code;
    } else {
      assert (t + rest)[1..] == t[1..] + rest && t == [t[0]] + t[1..];
      assert t[0] in t;
      if |t| > 1 {
        assert !SlashesAt(t, 0);
        HashesStop(t[1..], rest);
        forall k | 0 <= k < |t[1..]| - 1 ensures !SlashesAt(t[1..], k) {
          assert !SlashesAt(t, k + 1);
        }
      }
      ReadAsCode(t[1..], rest);
      DepthCons(t[0], t[1..]);
      assert [t[0]] + (t[1..] + ScanFrom(rest, Code).code) == t + ScanFrom(rest, Code).code;
    }
  }

  /** On every legible line the scan has the depth of the tokens and ends where they end. */
  lemma {:induction false} ScanAgreesWithTokens(s: string, state: StringState)
    requires Legible(s, state)
    ensures ScanFrom(s, state).net == LexFrom(s, TokenOf(state)).net
    ensures TokenOf(ScanFrom(s, state).state) == LexFrom(s, TokenOf(state)).end
    decreases |s|
  {
    if s != "" {
      match state
      case Code =>
        if |s| > 1 && s[0] == '/' && s[1] == '/' {
        } else if s[0] == 'r' && OpensRaw(s[1..]) {
          ScanAgreesWithTokens(s[LeadingHashes(s[1..]) + 2..], RawStr(LeadingHashes(s[1..])));
        } else if s[0] == '\"' {
          ScanAgreesWithTokens(s[1..], NormalStr);
        } else if LiteralLength(s) > 0 {
          var n := LiteralLength(s);
          assert s == s[..n] + s[n..];
          ReadAsCode(s[..n], s[n..]);
          ScanAgreesWithTokens(s[n..], Code);
        } else {
          ScanAgreesWithTokens(s[1..], Code);
        }
      case NormalStr =>
        if s[0] == '\\' && |s| > 1 {
          ScanAgreesWithTokens(s[2..], NormalStr);
        } else {
          ScanAgreesWithTokens(s[1..], if s[0] == '\"' then Code else NormalStr);
        }
      case RawStr(hashes) =>
        if s[0] == '\"' && ClosesRaw(s[1..], hashes) {
          ScanAgreesWithTokens(s[1 + hashes..], Code);
        } else {
          ScanAgreesWithTokens(s[1..], state);
        }
    }
  }

  // ---- and on others -----------------------------------------------------------------------

  /** A literal double quote opens a string that the language does not see, whatever follows: up to the next double
      quote everything behind it is lost. */
  lemma QuoteLiteralOpensAString(rest: string)
    ensures ScanFrom("'\"'" + rest, Code) == CodeChar(QUOTE, ScanFrom(QUOTE_TEXT + rest, NormalStr))
    ensures LexFrom("'\"'" + rest, InCode) == LexFrom(rest, InCode)
  {
    var s := "'\"'" + rest;
    assert s[1..] == "\"'" + rest && s[1..][1..] == QUOTE_TEXT + rest && s[3..] == rest;
  }

  const QUOTE_TEXT := "'"

  /** Any other literal moves the depth by the braces in it, so it is read right exactly when these balance. */
  lemma LiteralMovesTheDepth(s: string)
    requires LiteralLength(s) > 0 && '\"' !in s[..LiteralLength(s)]
    requires forall k :: 0 <= k < LiteralLength(s) - 1 ==> !SlashesAt(s[..LiteralLength(s)], k)
    ensures var n := LiteralLength(s);
      && ScanFrom(s, Code).net == ScanFrom(s[n..], Code).net + Depth(s[..n], '{', '}')
      && LexFrom(s, InCode) == LexFrom(s[n..], InCode)
  {
    var n := LiteralLength(s);
    assert s == s[..n] + s[n..];
    ReadAsCode(s[..n], s[n..]);
  }

  /** A literal brace by one. */
  lemma BraceLiteralMovesTheDepth(rest: string)
    ensures ScanFrom("'{'" + rest, Code).net == ScanFrom(rest, Code).net + 1
    ensures LexFrom("'{'" + rest, InCode) == LexFrom(rest, InCode)
  {
    var s := "'{'" + rest;
    assert LiteralLength(s) == 3 && s[..3] == "'{'" && s[3..] == rest;
    DepthCons(QUOTE, "{'");
    DepthCons('{', "'");
    assert "'{'" == [QUOTE] + "{'" && "{'" == ['{'] + "'" && "'"[..0] == "";
    LiteralMovesTheDepth(s);
  }

  /** And so does a brace in a block comment, by one. */
  lemma BraceInCommentMovesTheDepth()
    ensures ScanFrom("/*{*/", Code).net == 1 && LexFrom("/*{*/", InCode) == Tokens(0, InCode)
  {
    var s := "/*{*/";
    assert s[1..] == "*{*/" && s[2..] == "{*/" && s[3..] == "*/" && s[4..] == "/";
    assert s[2..][1..] == "*/" && "*/"[2..] == "" && s[1..][1..] == s[2..] && "*/"[1..] == "/" && "/"[1..] == "";
  }
}
