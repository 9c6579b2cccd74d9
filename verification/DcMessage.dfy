/** The identity messages of the DataChannel: lowercase hex inside a two-field JSON object, read back
    by substring search and an escape-aware scan (packages/auth/src/identity.rs). */
module DcMessage {
  import opened Common
  import opened Text

  type Bytes = seq<byte>

  const MAC_LEN: nat := 32

  datatype HexError = OddLength | BadDigit(b: byte)

  datatype HexResult = Hex(bytes: Bytes) | NotHex(error: HexError)

  // ---- hex ---------------------------------------------------------------------------------

  function HexChar(n: nat): (c: char)
    requires n < 16
    ensures HexNibble(c as int) == Some(n) && IsLowerHex(c)
  {
    if n < 10 then ('0' as int + n) as char else ('a' as int + (n - 10)) as char
  }

  predicate IsLowerHex(c: char) {
    '0' <= c <= '9' || 'a' <= c <= 'f'
  }

  function HexNibble(b: int): (r: Option<nat>)
    ensures r.Some? ==> r.value < 16
  {
    if '0' as int <= b <= '9' as int then Some(b - '0' as int)
    else if 'a' as int <= b <= 'f' as int then Some(b - 'a' as int + 10)
    else if 'A' as int <= b <= 'F' as int then Some(b - 'A' as int + 10)
    else None
  }

  function ToHex(bs: Bytes): string {
    if bs == [] then "" else [HexChar(bs[0] / 16), HexChar(bs[0] % 16)] + ToHex(bs[1..])
  }

  /** Pairs of nibbles from the front; the first bad digit stops it. */
  function FromPairs(b: Bytes): HexResult
    requires |b| % 2 == 0
  {
    if b == [] then Hex([])
    else if HexNibble(b[0]).None? then NotHex(BadDigit(b[0]))
    else if HexNibble(b[1]).None? then NotHex(BadDigit(b[1]))
    else Prepend([Joined(b[0], b[1])], FromPairs(b[2..]))
  }

  function Joined(hi: byte, lo: byte): byte
    requires HexNibble(hi).Some? && HexNibble(lo).Some?
  {
    16 * HexNibble(hi).value + HexNibble(lo).value
  }

  function Prepend(front: Bytes, r: HexResult): HexResult {
    match r
    case Hex(rest) => Hex(front + rest)
    case NotHex(e) => NotHex(e)
  }

  lemma PrependTwice(a: Bytes, b: Bytes, r: HexResult)
    ensures Prepend(a, Prepend(b, r)) == Prepend(a + b, r)
    ensures Prepend([], r) == r
  {
    if r.Hex? { assert a + (b + r.bytes) == (a + b) + r.bytes && [] + r.bytes == r.bytes; }
  }

  function FromHex(s: string): HexResult {
    var b := Utf8(Trim(s));
    if |b| % 2 != 0 then NotHex(OddLength) else FromPairs(b)
  }

  method BytesToHex(bs: Bytes) returns (s: string)
    ensures s == ToHex(bs)
  {
    s := "";
    for i := 0 to |bs|
      invariant s + ToHex(bs[i..]) == ToHex(bs)
    {
      assert bs[i..][1..] == bs[i + 1..];
      s := s + [HexChar(bs[i] / 16)];
      s := s + [HexChar(bs[i] % 16)];
    }
  }

  method HexToBytes(text: string) returns (r: HexResult)
    ensures r == FromHex(text)
  {
    var bytes := Utf8(Trim(text));
    if |bytes| % 2 != 0 {
      return NotHex(OddLength);
    }
    r := DecodePairs(bytes);
  }

  method DecodePairs(bytes: Bytes) returns (r: HexResult)
    requires |bytes| % 2 == 0
    ensures r == FromPairs(bytes)
  {
    var out: Bytes := [];
    var i := 0;
    PrependTwice([], [], FromPairs(bytes));
    assert bytes[0..] == bytes;
    while i < |bytes|
      invariant 0 <= i <= |bytes| && i % 2 == 0
      invariant FromPairs(bytes) == Prepend(out, FromPairs(bytes[i..]))
    {
      assert bytes[i..][2..] == bytes[i + 2..];
      var hi := HexNibble(bytes[i]);
      if hi.None? {
        return NotHex(BadDigit(bytes[i]));
      }
      var lo := HexNibble(bytes[i + 1]);
      if lo.None? {
        return NotHex(BadDigit(bytes[i + 1]));
      }
      PrependTwice(out, [Joined(bytes[i], bytes[i + 1])], FromPairs(bytes[i + 2..]));
      out := out + [16 * hi.value + lo.value];
      i := i + 2;
    }
    r := Hex(out);
  }

  lemma {:induction false} HexShape(bs: Bytes)
    ensures |ToHex(bs)| == 2 * |bs|
    ensures forall i :: 0 <= i < |ToHex(bs)| ==> IsLowerHex(ToHex(bs)[i])
  {
    if bs != [] { HexShape(bs[1..]); }
  }

  lemma {:induction false} PairsOfHex(bs: Bytes)
    ensures |Utf8(ToHex(bs))| % 2 == 0 && FromPairs(Utf8(ToHex(bs))) == Hex(bs)
  {
    HexShape(bs);
    AsciiUtf8(ToHex(bs));
    if bs != [] {
      PairsOfHex(bs[1..]);
      var t := ToHex(bs);
      assert t[1..][1..] == ToHex(bs[1..]);
      assert Utf8(t) == Utf8Char(t[0]) + (Utf8Char(t[1]) + Utf8(t[1..][1..]));
      assert Utf8(t)[2..] == Utf8(ToHex(bs[1..]));
    }
  }

  lemma TrimNothing(s: string)
    requires s != "" ==> !IsWhitespace(s[0]) && !IsWhitespace(s[|s| - 1])
    ensures Trim(s) == s
  {
  }

  /** Decoding what was encoded gives the bytes back. */
  lemma HexRoundTrip(bs: Bytes)
    ensures FromHex(ToHex(bs)) == Hex(bs)
  {
    HexShape(bs);
    TrimNothing(ToHex(bs));
    PairsOfHex(bs);
  }

  function LowerChar(c: char): char {
    if 'A' <= c <= 'Z' then (c as int + 32) as char else c
  }

  function Lower(s: string): (t: string)
    ensures |t| == |s|
  {
    if s == "" then "" else [LowerChar(s[0])] + Lower(s[1..])
  }

  ghost predicate HexDigits(s: string) {
    forall i :: 0 <= i < |s| ==> HexNibble(s[i] as int).Some?
  }

  /** Decoding succeeds exactly on an even number of hex digits of either case, surrounded by any
      white space; encoding the result gives those digits in lower case. */
  lemma HexDecodes(s: string)
    ensures FromHex(s).Hex? <==> |Trim(s)| % 2 == 0 && HexDigits(Trim(s))
    ensures FromHex(s).Hex? ==> ToHex(FromHex(s).bytes) == Lower(Trim(s))
  {
    var t := Trim(s);
    if HexDigits(t) {
      AsciiUtf8(t);
      if |t| % 2 == 0 { PairsDecode(t); }
    } else if |Utf8(t)| % 2 == 0 && FromPairs(Utf8(t)).Hex? {
      PairsAllNibbles(Utf8(t));
      AsciiBytes(t);
      AsciiUtf8(t);
      assert false;
    }
  }

  lemma {:induction false} PairsAllNibbles(b: Bytes)
    requires |b| % 2 == 0 && FromPairs(b).Hex?
    ensures forall i :: 0 <= i < |b| ==> HexNibble(b[i]).Some?
  {
    if b != [] {
      PairsAllNibbles(b[2..]);
      assert forall i :: 2 <= i < |b| ==> b[i] == b[2..][i - 2];
    }
  }

  lemma {:induction false} PairsDecode(s: string)
    requires |s| % 2 == 0 && HexDigits(s)
    ensures |Utf8(s)| % 2 == 0 && FromPairs(Utf8(s)).Hex?
    ensures ToHex(FromPairs(Utf8(s)).bytes) == Lower(s)
  {
    AsciiUtf8(s);
    if s != "" {
      var rest := s[1..][1..];
      assert rest == s[2..];
      PairsDecode(rest);
      assert Utf8(s) == Utf8Char(s[0]) + (Utf8Char(s[1]) + Utf8(rest));
      assert Utf8(s)[2..] == Utf8(rest);
      var v := FromPairs(Utf8(s)).bytes;
      assert v[1..] == FromPairs(Utf8(rest)).bytes;
      OnePair(s[0], s[1]);
      assert Lower(s) == [LowerChar(s[0])] + ([LowerChar(s[1])] + Lower(rest));
    }
  }

  lemma OnePair(hi: char, lo: char)
    requires HexNibble(hi as int).Some? && HexNibble(lo as int).Some?
    ensures var j := Joined(hi as int, lo as int); HexChar(j / 16) == LowerChar(hi) && HexChar(j % 16) == LowerChar(lo)
  {
    var j := Joined(hi as int, lo as int);
    assert j / 16 == HexNibble(hi as int).value && j % 16 == HexNibble(lo as int).value;
  }
}
