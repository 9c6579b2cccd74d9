/** The line scanner of the inventory parser (agents/unit-test-agent/src/inventory.rs): what of a source line is
    code, how many braces it opens, and in what kind of string it ends. */
module InventoryScan {
  import opened Common
  import opened InventoryText

  datatype StringState = Code | NormalStr | RawStr(hashes: nat)

  datatype Scan = Scan(code: string, net: int, state: StringState)

  /** How many hashes the text begins with. */
  function LeadingHashes(s: string): (n: nat)
    ensures n <= |s|
  {
    if s == "" || s[0] != '#' then 0 else 1 + LeadingHashes(s[1..])
  }

  /** Whether `r` followed by this text opens a raw string. */
  predicate OpensRaw(s: string) {
    LeadingHashes(s) < |s| && s[LeadingHashes(s)] == '\"'
  }

  /** Whether a quote followed by this text closes a raw string. */
  predicate ClosesRaw(s: string, hashes: nat) {
    LeadingHashes(s) >= hashes
  }

  function Brace(c: char): int {
    if c == '{' then 1 else if c == '}' then -1 else 0
  }

  /** One character of code in front of the rest. */
  function CodeChar(c: char, rest: Scan): Scan {
    Scan([c] + rest.code, Brace(c) + rest.net, rest.state)
  }

  function ScanFrom(s: string, state: StringState): Scan
    decreases |s|
  {
    if s == "" then Scan("", 0, state)
    else
      match state
      case Code =>
        if |s| > 1 && s[0] == '/' && s[1] == '/' then Scan("", 0, Code)
        else if s[0] == 'r' && OpensRaw(s[1..]) then
          var hashes := LeadingHashes(s[1..]);
          ScanFrom(s[hashes + 2..], RawStr(hashes))
        else if s[0] == '\"' then ScanFrom(s[1..], NormalStr)
        else CodeChar(s[0], ScanFrom(s[1..], Code))
      case NormalStr =>
        if s[0] == '\\' && |s| > 1 then ScanFrom(s[2..], NormalStr)
        else ScanFrom(s[1..], if s[0] == '\"' then Code else NormalStr)
      case RawStr(hashes) =>
        if s[0] == '\"' && ClosesRaw(s[1..], hashes) then ScanFrom(s[1 + hashes..], Code)
        else ScanFrom(s[1..], state)
  }

  // ---- the loops ---------------------------------------------------------------------------

  method CountHashes(chars: string, start: nat) returns (hashes: nat)
    requires start <= |chars|
    ensures hashes == LeadingHashes(chars[start..])
  {
    var j := start;
    hashes := 0;
    while j < |chars| && chars[j] == '#'
      invariant start <= j <= |chars| && hashes == j - start
      invariant LeadingHashes(chars[start..]) == hashes + LeadingHashes(chars[j..])
    {
      assert chars[j..][1..] == chars[j + 1..];
      hashes := hashes + 1;
      j := j + 1;
    }
  }

  method HashesFollow(chars: string, start: nat, hashes: nat) returns (ok: bool)
    requires start <= |chars|
    ensures ok == ClosesRaw(chars[start..], hashes)
  {
    ok := true;
    for h := 0 to hashes
      invariant start + h <= |chars|
      invariant LeadingHashes(chars[start..]) == h + LeadingHashes(chars[start + h..])
    {
      if start + h >= |chars| || chars[start + h] != '#' {
        return false;
      }
      assert chars[start + h..][1..] == chars[start + h + 1..];
    }
  }

  function Behind(code: string, net: int, rest: Scan): Scan {
    Scan(code + rest.code, net + rest.net, rest.state)
  }

  /** From position i the scan adds this code and this net count, and goes on at `next`. */
  ghost predicate GoesTo(line: string, i: nat, state: StringState, code: string, net: int, next: nat,
                         after: StringState) {
    && i < next <= |line|
    && ScanFrom(line[i..], state) == Behind(code, net, ScanFrom(line[next..], after))
  }

  method CodeStep(line: string, i: nat) returns (code: string, net: int, next: nat, state: StringState)
    requires i < |line|
    ensures GoesTo(line, i, Code, code, net, next, state)
  {
    ghost var rest := line[i..];
    assert rest[1..] == line[i + 1..];
    code, net, next, state := "", 0, i + 1, Code;
    if i + 1 < |line| && line[i] == '/' && line[i + 1] == '/' {
      next := |line|;
      return;
    }
    if line[i] == 'r' {
      var hashes := CountHashes(line, i + 1);
      var j := i + 1 + hashes;
      if j < |line| && line[j] == '\"' {
        state := RawStr(hashes);
        next := j + 1;
        assert rest[hashes + 2..] == line[next..];
        return;
      }
    }
    if line[i] == '\"' {
      state := NormalStr;
      return;
    }
    if line[i] == '{' {
      net := 1;
    } else if line[i] == '}' {
      net := -1;
    }
    code := [line[i]];
  }

  method StringStep(line: string, i: nat) returns (next: nat, state: StringState)
    requires i < |line|
    ensures GoesTo(line, i, NormalStr, "", 0, next, state)
  {
    ghost var rest := line[i..];
    assert rest[1..] == line[i + 1..];
    next, state := i + 1, NormalStr;
    if line[i] == '\\' && i + 1 < |line| {
      next := i + 2;
      assert rest[2..] == line[next..];
      return;
    }
    if line[i] == '\"' {
      state := Code;
    }
  }

  method RawStep(line: string, i: nat, hashes: nat) returns (next: nat, state: StringState)
    requires i < |line|
    ensures GoesTo(line, i, RawStr(hashes), "", 0, next, state)
  {
    ghost var rest := line[i..];
    assert rest[1..] == line[i + 1..];
    next, state := i + 1, RawStr(hashes);
    if line[i] == '\"' {
      var ok := HashesFollow(line, i + 1, hashes);
      if ok {
        next := i + 1 + hashes;
        assert rest[1 + hashes..] == line[next..];
        state := Code;
      }
    }
  }

  lemma BehindTwice(a: string, m: int, b: string, n: int, rest: Scan)
    ensures Behind(a, m, Behind(b, n, rest)) == Behind(a + b, m + n, rest)
  {
    assert a + (b + rest.code) == a + b + rest.code;
  }

  method ScanLineCode(line: string, start: StringState) returns (r: Scan)
    ensures r == ScanFrom(line, start)
  {
    var code := "";
    var net := 0;
    var state := start;
    var i := 0;
    assert line[0..] == line;
    while i < |line|
      invariant 0 <= i <= |line|
      invariant ScanFrom(line, start) == Behind(code, net, ScanFrom(line[i..], state))
      decreases |line| - i
    {
      var more, change := "", 0;
      var next, after;
      match state {
        case Code => more, change, next, after := CodeStep(line, i);
        case NormalStr => next, after := StringStep(line, i);
        case RawStr(hashes) => next, after := RawStep(line, i, hashes);
      }
      BehindTwice(code, net, more, change, ScanFrom(line[next..], after));
      code, net, i, state := code + more, net + change, next, after;
    }
    assert code + "" == code;
    return Scan(code, net, state);
  }

  // ---- what a scan says --------------------------------------------------------------------

  lemma DepthCons(c: char, s: string)
    ensures Depth([c] + s, '{', '}') == Brace(c) + Depth(s, '{', '}')
  {
    if s == "" {
      assert [c] + s == [c] && [c][..0] == "";
    } else {
      DepthCons(c, s[..|s| - 1]);
      assert ([c] + s)[..|s|] == [c] + s[..|s| - 1];
    }
  }

  /** The net count is that of the braces in the code text. */
  lemma {:induction false} NetIsDepthOfCode(s: string, state: StringState)
    ensures ScanFrom(s, state).net == Depth(ScanFrom(s, state).code, '{', '}')
    decreases |s|
  {
    if s != "" {
      match state
      case Code =>
        if |s| > 1 && s[0] == '/' && s[1] == '/' {
        } else if s[0] == 'r' && OpensRaw(s[1..]) {
          NetIsDepthOfCode(s[LeadingHashes(s[1..]) + 2..], RawStr(LeadingHashes(s[1..])));
        } else if s[0] == '\"' {
          NetIsDepthOfCode(s[1..], NormalStr);
        } else {
          NetIsDepthOfCode(s[1..], Code);
          DepthCons(s[0], ScanFrom(s[1..], Code).code);
        }
      case NormalStr =>
        if s[0] == '\\' && |s| > 1 {
          NetIsDepthOfCode(s[2..], NormalStr);
        } else {
          NetIsDepthOfCode(s[1..], if s[0] == '\"' then Code else NormalStr);
        }
      case RawStr(hashes) =>
        if s[0] == '\"' && ClosesRaw(s[1..], hashes) {
          NetIsDepthOfCode(s[1 + hashes..], Code);
        } else {
          NetIsDepthOfCode(s[1..], state);
        }
    }
  }

  /** Nowhere in the text would a raw string with so many hashes end. */
  predicate TerminatorFree(s: string, hashes: nat) {
    forall i :: 0 <= i < |s| && s[i] == '\"' ==> !ClosesRaw(s[i + 1..], hashes)
  }

  /** A line inside a raw string is invisible: no code, no braces, and the string goes on. */
  lemma {:induction false} RawInterior(s: string, hashes: nat)
    requires TerminatorFree(s, hashes)
    ensures ScanFrom(s, RawStr(hashes)) == Scan("", 0, RawStr(hashes))
  {
    if s != "" {
      assert s[0] == '\"' ==> !ClosesRaw(s[0 + 1..], hashes);
      forall i | 0 <= i < |s[1..]| && s[1..][i] == '\"' ensures !ClosesRaw(s[1..][i + 1..], hashes) {
        assert s[1..][i] == s[i + 1];
        assert s[1..][i + 1..] == s[i + 1 + 1..];
      }
      RawInterior(s[1..], hashes);
    }
  }

  function EscapeChar(c: char): string {
    if c == '\\' || c == '\"' then ['\\', c] else [c]
  }

  function EscapeAll(s: string): string {
    if s == "" then "" else EscapeChar(s[0]) + EscapeAll(s[1..])
  }

  /** Whatever a string literal contains, a line scans as if it were not there. */
  lemma {:induction false} LiteralsAreInvisible(content: string, rest: string)
    ensures ScanFrom("\"" + EscapeAll(content) + "\"" + rest, Code) == ScanFrom(rest, Code)
  {
    var inside := EscapeAll(content) + "\"" + rest;
    assert ("\"" + EscapeAll(content) + "\"" + rest)[1..] == inside;
    InsideLiteral(content, rest);
  }

  lemma {:induction false} InsideLiteral(content: string, rest: string)
    ensures ScanFrom(EscapeAll(content) + "\"" + rest, NormalStr) == ScanFrom(rest, Code)
  {
    var s := EscapeAll(content) + "\"" + rest;
    if content == "" {
      assert s[1..] == rest;
    } else {
      InsideLiteral(content[1..], rest);
      assert s[|EscapeChar(content[0])|..] == EscapeAll(content[1..]) + "\"" + rest;
    }
  }

  function Hashes(n: nat): string {
    if n == 0 then "" else "#" + Hashes(n - 1)
  }

  lemma {:induction false} LeadingOfHashes(n: nat, rest: string)
    ensures |Hashes(n)| == n && LeadingHashes(Hashes(n) + rest) == n + LeadingHashes(rest)
  {
    if n > 0 {
      LeadingOfHashes(n - 1, rest);
      assert (Hashes(n) + rest)[1..] == Hashes(n - 1) + rest;
    } else {
      assert Hashes(n) + rest == rest;
    }
  }

  lemma {:induction false} LeadingStops(a: string, b: string)
    requires LeadingHashes(a) < |a|
    ensures LeadingHashes(a + b) == LeadingHashes(a)
  {
    if a[0] == '#' {
      LeadingStops(a[1..], b);
      assert (a + b)[1..] == a[1..] + b;
    }
  }

  /** Every quote in the content is followed by fewer hashes, and then by something else. */
  ghost predicate StaysInside(content: string, hashes: nat) {
    forall i :: 0 <= i < |content| && content[i] == '\"' ==>
      LeadingHashes(content[i + 1..]) < hashes && LeadingHashes(content[i + 1..]) < |content| - i - 1
  }

  /** The same of a raw string: it ends at the first quote with as many hashes as it began with, and the line scans as
      if it were not there. */
  lemma {:induction false} RawLiteralsAreInvisible(content: string, hashes: nat, rest: string)
    requires StaysInside(content, hashes)
    ensures ScanFrom("r" + Hashes(hashes) + "\"" + content + "\"" + Hashes(hashes) + rest, Code) == ScanFrom(rest, Code)
  {
    var inside := content + "\"" + Hashes(hashes) + rest;
    var s := "r" + Hashes(hashes) + "\"" + content + "\"" + Hashes(hashes) + rest;
    LeadingOfHashes(hashes, "\"" + inside);
    assert s[1..] == Hashes(hashes) + ("\"" + inside);
    assert s[hashes + 2..] == inside;
    InsideRawLiteral(content, hashes, rest);
  }

  lemma {:induction false} InsideRawLiteral(content: string, hashes: nat, rest: string)
    requires StaysInside(content, hashes)
    ensures ScanFrom(content + "\"" + Hashes(hashes) + rest, RawStr(hashes)) == ScanFrom(rest, Code)
  {
    var s := content + "\"" + Hashes(hashes) + rest;
    if content == "" {
      LeadingOfHashes(hashes, rest);
      assert s[1..] == Hashes(hashes) + rest && s[1 + hashes..] == rest;
    } else {
      var tail := content[1..];
      assert s[1..] == tail + ("\"" + Hashes(hashes) + rest) == tail + "\"" + Hashes(hashes) + rest;
      if s[0] == '\"' {
        assert content[0 + 1..] == tail;
        LeadingStops(tail, "\"" + Hashes(hashes) + rest);
      }
      forall i | 0 <= i < |tail| && tail[i] == '\"'
        ensures LeadingHashes(tail[i + 1..]) < hashes && LeadingHashes(tail[i + 1..]) < |tail| - i - 1
      {
        assert tail[i + 1..] == content[i + 1 + 1..] && content[i + 1] == tail[i];
      }
      InsideRawLiteral(tail, hashes, rest);
    }
  }
}
