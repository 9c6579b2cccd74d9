/** Encoding and parsing of the two identity messages (packages/auth/src/identity.rs).  A payload is
    given as its text, None standing for bytes that are not UTF-8. */
module DcJson {
  import opened Common
  import opened Text
  import opened DcMessage

  /** The MAC of a response is a 32-byte array; a challenge carries any nonce. */
  datatype Message = Challenge(nonce: Bytes) | Response(mac: Bytes)

  datatype ParseError =
    | NotUtf8 | NotObject | MissingType | MissingNonce | MissingMac
    | BadHex(error: HexError) | EmptyNonce | MacLength(got: nat) | UnknownType(name: string)

  datatype Parsed = Ok(msg: Message) | Err(error: ParseError)

  function Encode(m: Message): string {
    match m
    case Challenge(nonce) => "{\"type\":\"dc_challenge\",\"nonce\":\"" + ToHex(nonce) + "\"}"
    case Response(mac) => "{\"type\":\"dc_response\",\"mac\":\"" + ToHex(mac) + "\"}"
  }

  /** str::find: the first position where the pattern starts. */
  function Find(s: string, pattern: string): Option<nat> {
    if pattern <= s then Some(0)
    else if s == "" then None
    else
      match Find(s[1..], pattern)
      case Some(i) => Some(i + 1)
      case None => None
  }

  /** The text up to the first unescaped quote; a backslash makes the next character literal. */
  function ScanString(s: string): Option<string> {
    if s == "" then None
    else if s[0] == '\\' then
      if |s| == 1 then None else Push(s[1], ScanString(s[2..]))
    else if s[0] == '\"' then Some("")
    else Push(s[0], ScanString(s[1..]))
  }

  function Push(c: char, r: Option<string>): Option<string> {
    match r
    case Some(t) => Some([c] + t)
    case None => None
  }

  /** The loop that fills a buffer character by character. */
  method ReadString(rest: string) returns (r: Option<string>)
    ensures r == ScanString(rest)
  {
    var out := "";
    var i := 0;
    assert rest[0..] == rest;
    PushAllNone("", ScanString(rest));
    while i < |rest|
      invariant 0 <= i <= |rest|
      invariant ScanString(rest) == PushAll(out, ScanString(rest[i..]))
    {
      var c := rest[i];
      ghost var left := rest[i..];
      assert left[1..] == rest[i + 1..];
      if c == '\\' {
        if i + 1 < |rest| {
          assert left[2..] == rest[i + 2..];
          PushAllStep(out, rest[i + 1], ScanString(rest[i + 2..]));
          out := out + [rest[i + 1]];
          i := i + 2;
        } else {
          assert rest[i + 1..] == "";
          i := i + 1;
        }
      } else if c == '\"' {
        assert out + "" == out;
        return Some(out);
      } else {
        PushAllStep(out, c, ScanString(rest[i + 1..]));
        out := out + [c];
        i := i + 1;
      }
    }
    assert rest[|rest|..] == "";
    r := None;
  }

  function PushAll(front: string, r: Option<string>): Option<string> {
    match r
    case Some(t) => Some(front + t)
    case None => None
  }

  lemma PushAllNone(front: string, r: Option<string>)
    ensures front == "" ==> PushAll(front, r) == r
  {
    if r.Some? { assert "" + r.value == r.value; }
  }

  lemma PushAllStep(front: string, c: char, r: Option<string>)
    ensures PushAll(front, Push(c, r)) == PushAll(front + [c], r)
  {
    if r.Some? { assert front + ([c] + r.value) == (front + [c]) + r.value; }
  }

  /** json_string_field: search for the quoted key, then read the value behind it. */
  function StringField(obj: string, key: string): Option<string> {
    var pattern := "\"" + key + "\"";
    match Find(obj, pattern)
    case None => None
    case Some(at) =>
      FindBound(obj, pattern);
      ValueAfter(obj[at + |pattern|..])
  }

  /** The next colon, wherever it is, then white space, then a quoted value. */
  function ValueAfter(afterKey: string): Option<string> {
    match Find(afterKey, ":")
    case None => None
    case Some(colon) =>
      FindBound(afterKey, ":");
      var value := TrimStart(afterKey[colon + 1..]);
      if value == "" || value[0] != '\"' then None else ScanString(value[1..])
  }

  lemma {:induction false} FindBound(s: string, pattern: string)
    ensures Find(s, pattern).Some? ==>
      && Find(s, pattern).value + |pattern| <= |s|
      && s[Find(s, pattern).value..Find(s, pattern).value + |pattern|] == pattern
  {
    if !(pattern <= s) && s != "" {
      FindBound(s[1..], pattern);
      var r := Find(s[1..], pattern);
      if r.Some? { assert s[r.value + 1..r.value + 1 + |pattern|] == s[1..][r.value..r.value + |pattern|]; }
    }
  }

  /** The search finds the first occurrence, and fails only when there is none. */
  lemma {:induction false} FindIsFirst(s: string, pattern: string, j: nat)
    requires j <= |s| && pattern <= s[j..]
    ensures Find(s, pattern).Some? && Find(s, pattern).value <= j
  {
    if !(pattern <= s) {
      assert j > 0 && s[1..][j - 1..] == s[j..];
      FindIsFirst(s[1..], pattern, j - 1);
    }
  }

  function ParseText(s: string): Parsed {
    var t := Trim(s);
    if t == "" || t[0] != '{' then Err(NotObject)
    else
      match StringField(t, "type")
      case None => Err(MissingType)
      case Some(typ) =>
        if typ == "dc_challenge" then ParseNonce(StringField(t, "nonce"))
        else if typ == "dc_response" then ParseMac(StringField(t, "mac"))
        else Err(UnknownType(typ))
  }

  function ParseNonce(field: Option<string>): Parsed {
    match field
    case None => Err(MissingNonce)
    case Some(hex) =>
      match FromHex(hex)
      case NotHex(e) => Err(BadHex(e))
      case Hex(nonce) => if nonce == [] then Err(EmptyNonce) else Ok(Challenge(nonce))
  }

  function ParseMac(field: Option<string>): Parsed {
    match field
    case None => Err(MissingMac)
    case Some(hex) =>
      match FromHex(hex)
      case NotHex(e) => Err(BadHex(e))
      case Hex(mac) => if |mac| != MAC_LEN then Err(MacLength(|mac|)) else Ok(Response(mac))
  }

  function Parse(payload: Option<string>): Parsed {
    match payload
    case None => Err(NotUtf8)
    case Some(s) => ParseText(s)
  }

  // ---- the scanner undoes escaping ---------------------------------------------------------

  function Escape(s: string): string {
    if s == "" then ""
    else (if s[0] == '\\' || s[0] == '\"' then ['\\', s[0]] else [s[0]]) + Escape(s[1..])
  }

  /** Whatever text is escaped and closed by a quote is read back, no matter what follows. */
  lemma {:induction false} ScanUndoesEscape(s: string, rest: string)
    ensures ScanString(Escape(s) + "\"" + rest) == Some(s)
  {
    var t := Escape(s) + "\"" + rest;
    if s == "" {
      assert t[0] == '\"';
    } else {
      ScanUndoesEscape(s[1..], rest);
      var u := Escape(s[1..]) + "\"" + rest;
      if s[0] == '\\' || s[0] == '\"' {
        assert t == ['\\', s[0]] + u;
        assert t[2..] == u;
      } else {
        assert t == [s[0]] + u;
        assert t[1..] == u;
      }
      assert [s[0]] + s[1..] == s;
    }
  }

  lemma {:induction false} NothingToEscape(s: string)
    requires forall i :: 0 <= i < |s| ==> s[i] != '\\' && s[i] != '\"'
    ensures Escape(s) == s
  {
    if s != "" {
      NothingToEscape(s[1..]);
      assert [s[0]] + s[1..] == s;
    }
  }

  // ---- the round trip ----------------------------------------------------------------------

  /** Where a pattern starting with a quote and then `c` can first occur: skip a prefix in which no
      quote is followed by `c`. */
  lemma {:induction false} FindSkips(front: string, s: string, pattern: string)
    requires |pattern| >= 2 && pattern[0] == '\"' && s != ""
    requires forall j :: 0 <= j < |front| && front[j] == '\"' ==> (front + s)[j + 1] != pattern[1]
    ensures Find(front + s, pattern) == Shift(|front|, Find(s, pattern))
  {
    var t := front + s;
    if front == "" {
      assert t == s;
    } else {
      assert t[1..] == front[1..] + s;
      NotHere(t, pattern);
      FindSkips(front[1..], s, pattern);
    }
  }

  function Shift(n: nat, r: Option<nat>): Option<nat> {
    match r
    case Some(i) => Some(n + i)
    case None => None
  }

  lemma NotHere(t: string, pattern: string)
    requires |pattern| >= 2 && |t| >= 2 && (t[0] != pattern[0] || t[1] != pattern[1])
    ensures !(pattern <= t)
  {
  }

  /** `"key":"value"` and what follows. */
  function Entry(key: string, value: string, rest: string): string {
    ("\"" + key + "\"") + (":" + ("\"" + (value + "\"" + rest)))
  }

  /** The field is found when its entry follows a prefix without a quote before the key's first letter. */
  lemma FieldAfter(front: string, key: string, value: string, rest: string)
    requires key != ""
    requires forall j :: 0 <= j < |front| && front[j] == '\"' ==> j + 1 < |front| && front[j + 1] != key[0]
    ensures StringField(front + Entry(key, Escape(value), rest), key) == Some(value)
  {
    ScanUndoesEscape(value, rest);
    FieldIsScanned(front, key, Escape(value) + "\"" + rest);
  }

  lemma FieldIsScanned(front: string, key: string, scanned: string)
    requires key != ""
    requires forall j :: 0 <= j < |front| && front[j] == '\"' ==> j + 1 < |front| && front[j + 1] != key[0]
    ensures StringField(front + (("\"" + key + "\"") + (":" + ("\"" + scanned))), key) == ScanString(scanned)
  {
    var tail := ":" + ("\"" + scanned);
    var obj := front + (("\"" + key + "\"") + tail);
    KeyFound(front, key, tail);
    FieldBehind(obj, key, |front|, tail);
    ValueAfterColon(scanned);
  }

  lemma FieldBehind(obj: string, key: string, at: nat, afterKey: string)
    requires Find(obj, "\"" + key + "\"") == Some(at)
    requires at + |"\"" + key + "\""| <= |obj| && obj[at + |"\"" + key + "\""|..] == afterKey
    ensures StringField(obj, key) == ValueAfter(afterKey)
  {
  }

  lemma KeyFound(front: string, key: string, tail: string)
    requires key != ""
    requires forall j :: 0 <= j < |front| && front[j] == '\"' ==> j + 1 < |front| && front[j + 1] != key[0]
    ensures var pattern := "\"" + key + "\""; var s := front + (pattern + tail);
      Find(s, pattern) == Some(|front|) && |front| + |pattern| <= |s| && s[|front| + |pattern|..] == tail
  {
    var pattern := "\"" + key + "\"";
    assert pattern <= pattern + tail && pattern[1] == key[0];
    FindSkips(front, pattern + tail, pattern);
  }

  /** White space between the colon and the value does not matter. */
  lemma SpaceBehindColon(space: string, rest: string)
    requires forall i :: 0 <= i < |space| ==> IsWhitespace(space[i])
    ensures ValueAfter(":" + space + rest) == ValueAfter(":" + rest)
  {
    var s, t := ":" + space + rest, ":" + rest;
    assert s[1..] == space + rest && t[1..] == rest;
    assert ":" <= s && ":" <= t;
    SpaceInFront(space, rest);
  }

  lemma {:induction false} SpaceInFront(space: string, rest: string)
    requires forall i :: 0 <= i < |space| ==> IsWhitespace(space[i])
    ensures TrimStart(space + rest) == TrimStart(rest)
  {
    if space == "" {
      assert space + rest == rest;
    } else {
      SpaceInFront(space[1..], rest);
      assert (space + rest)[1..] == space[1..] + rest;
    }
  }

  lemma ValueAfterColon(scanned: string)
    ensures ValueAfter(":" + ("\"" + scanned)) == ScanString(scanned)
  {
    var tail := ":" + ("\"" + scanned);
    assert ":" <= tail && tail[1..] == "\"" + scanned;
    assert TrimStart(tail[1..]) == tail[1..];
    assert tail[1..][1..] == scanned;
  }

  lemma PlainField(front: string, key: string, value: string, rest: string)
    requires key != ""
    requires forall j :: 0 <= j < |front| && front[j] == '\"' ==> j + 1 < |front| && front[j + 1] != key[0]
    requires forall i :: 0 <= i < |value| ==> value[i] != '\\' && value[i] != '\"'
    ensures StringField(front + Entry(key, value, rest), key) == Some(value)
  {
    NothingToEscape(value);
    FieldAfter(front, key, value, rest);
  }

  /** Both messages are one object with a type entry and one hex entry. */
  function Object(typ: string, key: string, hex: string): string {
    "{" + Entry("type", typ, "," + Entry(key, hex, "}"))
  }

  lemma Shape(m: Message)
    ensures m.Challenge? ==> Encode(m) == Object("dc_challenge", "nonce", ToHex(m.nonce))
    ensures m.Response? ==> Encode(m) == Object("dc_response", "mac", ToHex(m.mac))
  {
    match m
    case Challenge(nonce) =>
      Flat("dc_challenge", "nonce", ToHex(nonce));
      ChallengeHead();
    case Response(mac) =>
      Flat("dc_response", "mac", ToHex(mac));
      ResponseHead();
  }

  lemma ChallengeHead()
    ensures Front("dc_challenge") + ("\"" + "nonce" + "\":\"") == "{\"type\":\"dc_challenge\",\"nonce\":\""
  {
    assert "{\"type\":\"" + "dc_challenge" == "{\"type\":\"dc_challenge";
    assert "\"" + "nonce" + "\":\"" == "\"nonce\":\"";
    assert "{\"type\":\"dc_challenge" + "\"," == "{\"type\":\"dc_challenge\",";
  }

  lemma ResponseHead()
    ensures Front("dc_response") + ("\"" + "mac" + "\":\"") == "{\"type\":\"dc_response\",\"mac\":\""
  {
    assert "{\"type\":\"" + "dc_response" == "{\"type\":\"dc_response";
    assert "\"" + "mac" + "\":\"" == "\"mac\":\"";
    assert "{\"type\":\"dc_response" + "\"," == "{\"type\":\"dc_response\",";
  }

  /** Everything before the second entry. */
  function Front(typ: string): string {
    "{\"type\":\"" + typ + "\","
  }

  lemma Flat(typ: string, key: string, hex: string)
    ensures Object(typ, key, hex) == Front(typ) + Entry(key, hex, "}")
    ensures Object(typ, key, hex) == Front(typ) + ("\"" + key + "\":\"") + hex + "\"}"
  {
    var e := Entry(key, hex, "}");
    EntryFlat("type", typ, "," + e);
    EntryFlat(key, hex, "}");
    assert "\"" + "type" + "\":\"" == "\"type\":\"";
    assert "{" + ("\"type\":\"" + typ + "\"" + ("," + e)) == Front(typ) + e;
    assert "\"" + "}" == "\"}";
    assert Front(typ) + (("\"" + key + "\":\"") + hex + "\"" + "}")
      == Front(typ) + ("\"" + key + "\":\"") + hex + ("\"" + "}");
  }

  lemma EntryFlat(key: string, value: string, rest: string)
    ensures Entry(key, value, rest) == "\"" + key + "\":\"" + value + "\"" + rest
  {
    assert "\"" + (":" + "\"") == "\":\"";
    assert ("\"" + key + "\"") + (":" + ("\"" + (value + "\"" + rest)))
      == ("\"" + key) + ("\"" + (":" + "\"")) + (value + "\"" + rest);
  }

  lemma FrontIsHarmless(typ: string, k: char)
    requires typ != "" && k != 't' && k != ':' && k != ',' && k != typ[0]
    requires forall i :: 0 <= i < |typ| ==> typ[i] != '\\' && typ[i] != '\"'
    ensures var f := Front(typ); forall j :: 0 <= j < |f| && f[j] == '\"' ==> j + 1 < |f| && f[j + 1] != k
  {
    var f := Front(typ);
    assert f == "{\"type\":\"" + (typ + "\",");
    assert forall j :: 9 <= j < 9 + |typ| ==> f[j] == typ[j - 9];
  }

  lemma ObjectFields(typ: string, key: string, hex: string)
    requires typ != "" && key != "" && key[0] != 't' && key[0] != ':' && key[0] != ',' && key[0] != typ[0]
    requires forall i :: 0 <= i < |typ| ==> typ[i] != '\\' && typ[i] != '\"'
    requires forall i :: 0 <= i < |hex| ==> hex[i] != '\\' && hex[i] != '\"'
    ensures StringField(Object(typ, key, hex), "type") == Some(typ)
    ensures StringField(Object(typ, key, hex), key) == Some(hex)
    ensures Object(typ, key, hex)[0] == '{' && Trim(Object(typ, key, hex)) == Object(typ, key, hex)
  {
    PlainField("{", "type", typ, "," + Entry(key, hex, "}"));
    Flat(typ, key, hex);
    FrontIsHarmless(typ, key[0]);
    PlainField(Front(typ), key, hex, "}");
    var s := Object(typ, key, hex);
    assert s[|s| - 1] == "\"}"[1];
    TrimNothing(s);
  }

  /** Parsing an encoded challenge gives it back, for every nonce that is not empty. */
  lemma ChallengeRoundTrip(nonce: Bytes)
    ensures Parse(Some(Encode(Challenge(nonce)))) == if nonce == [] then Err(EmptyNonce) else Ok(Challenge(nonce))
  {
    Shape(Challenge(nonce));
    HexShape(nonce);
    ObjectFields("dc_challenge", "nonce", ToHex(nonce));
    HexRoundTrip(nonce);
  }

  /** Parsing an encoded response gives it back, for every MAC of the one length there is. */
  lemma ResponseRoundTrip(mac: Bytes)
    ensures Parse(Some(Encode(Response(mac)))) == if |mac| != MAC_LEN then Err(MacLength(|mac|)) else Ok(Response(mac))
  {
    Shape(Response(mac));
    HexShape(mac);
    ObjectFields("dc_response", "mac", ToHex(mac));
    HexRoundTrip(mac);
  }
}
