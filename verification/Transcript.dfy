/** The three byte transcripts that get MACed or signed: the Mode B challenge
    (packages/auth/src/challenge.rs), the DataChannel identity bind (packages/auth/src/identity.rs)
    and the fingerprint binding (packages/auth/src/fingerprint.rs). */
module Transcript {
  import opened Common

  type Bytes = seq<byte>

  const FIELD_LIMIT: nat := 0x1_0000_0000

  /** A field the encoders accept; on a longer one they panic. */
  type ShortBytes = b: Bytes | |b| < FIELD_LIMIT

  function Ascii(s: string): (b: Bytes)
    requires forall i :: 0 <= i < |s| ==> s[i] as int < 128
    ensures |b| == |s| && forall i :: 0 <= i < |s| ==> b[i] == s[i] as int
  {
    seq(|s|, i requires 0 <= i < |s| => s[i] as int)
  }

  function ModeBDomain(): Bytes { Ascii("remotelink-mode-b-mac-v1") }

  function DcBindDomain(): Bytes { Ascii("remotelink-dc-identity-bind-v1") }

  function FingerprintDomain(): Bytes { Ascii("remotelink-fingerprint-bind-v1") }

  /** u32::to_be_bytes. */
  function BigEndian32(n: nat): (b: Bytes)
    requires n < FIELD_LIMIT
    ensures |b| == 4 && FromBigEndian32(b) == n
  {
    [n / 256 / 256 / 256, n / 256 / 256 % 256, n / 256 % 256, n % 256]
  }

  function FromBigEndian32(b: Bytes): int
    requires |b| == 4
  {
    256 * (256 * (256 * (b[0] as int) + (b[1] as int)) + (b[2] as int)) + (b[3] as int)
  }

  /** A field as it appears in a transcript: its length in four bytes, then its bytes. */
  function Field(f: ShortBytes): Bytes
  {
    BigEndian32(|f|) + f
  }

  function Fields(fs: seq<ShortBytes>): Bytes
  {
    if fs == [] then [] else Field(fs[0]) + Fields(fs[1..])
  }

  // ---- the encoders, which extend a buffer in place ----------------------------------------

  method AppendLengthPrefixed(out: Bytes, f: ShortBytes) returns (r: Bytes)
    ensures r == out + Field(f)
  {
    r := out + BigEndian32(|f|);
    r := r + f;
    assert r == out + Field(f);
  }

  method EncodeChallenge(sessionId: ShortBytes, nonce: ShortBytes, fpHost: ShortBytes, fpViewer: ShortBytes)
    returns (out: Bytes)
    ensures out == ModeBDomain() + Fields([sessionId, nonce, fpHost, fpViewer])
  {
    out := ModeBDomain();
    out := AppendLengthPrefixed(out, sessionId);
    out := AppendLengthPrefixed(out, nonce);
    out := AppendLengthPrefixed(out, fpHost);
    out := AppendLengthPrefixed(out, fpViewer);
    FourFields(ModeBDomain(), sessionId, nonce, fpHost, fpViewer);
  }

  function DcBindMessage(sessionId: ShortBytes, nonce: ShortBytes, fpHost: ShortBytes, fpViewer: ShortBytes): Bytes
  {
    DcBindDomain() + Fields([sessionId, nonce, fpHost, fpViewer])
  }

  method EncodeDcBind(sessionId: ShortBytes, nonce: ShortBytes, fpHost: ShortBytes, fpViewer: ShortBytes)
    returns (out: Bytes)
    ensures out == DcBindMessage(sessionId, nonce, fpHost, fpViewer)
  {
    out := DcBindDomain();
    out := AppendLengthPrefixed(out, sessionId);
    out := AppendLengthPrefixed(out, nonce);
    out := AppendLengthPrefixed(out, fpHost);
    out := AppendLengthPrefixed(out, fpViewer);
    FourFields(DcBindDomain(), sessionId, nonce, fpHost, fpViewer);
  }

  /** This one writes each length and each field by itself, without the helper. */
  method EncodeFingerprintBinding(sessionId: ShortBytes, fingerprint: ShortBytes) returns (out: Bytes)
    ensures out == FingerprintDomain() + Fields([sessionId, fingerprint])
  {
    out := FingerprintDomain();
    out := out + BigEndian32(|sessionId|);
    out := out + sessionId;
    out := out + BigEndian32(|fingerprint|);
    out := out + fingerprint;
    TwoFields(FingerprintDomain(), sessionId, fingerprint);
    assert out == FingerprintDomain() + Field(sessionId) + Field(fingerprint);
  }

  lemma TwoFields(d: Bytes, a: ShortBytes, b: ShortBytes)
    ensures d + Field(a) + Field(b) == d + Fields([a, b])
  {
    assert [a, b][1..] == [b] && [b][1..] == [];
    assert Fields([b]) == Field(b) + Fields([]);
  }

  lemma FourFields(d: Bytes, a: ShortBytes, b: ShortBytes, c: ShortBytes, e: ShortBytes)
    ensures d + Field(a) + Field(b) + Field(c) + Field(e) == d + Fields([a, b, c, e])
  {
    assert [a, b, c, e][1..] == [b, c, e] && [b, c, e][1..] == [c, e];
    TwoFields(d + Field(a) + Field(b), c, e);
    assert Fields([b, c, e]) == Field(b) + Fields([c, e]);
  }

  // ---- injectivity -------------------------------------------------------------------------

  lemma BigEndianInjective(m: nat, n: nat)
    requires m < FIELD_LIMIT && n < FIELD_LIMIT && BigEndian32(m) == BigEndian32(n)
    ensures m == n
  {
  }

  /** A length-prefixed field can be read off the front of whatever follows it. */
  lemma FirstField(f: ShortBytes, g: ShortBytes, x: Bytes, y: Bytes)
    requires Field(f) + x == Field(g) + y
    ensures f == g && x == y
  {
    var s, t := Field(f) + x, Field(g) + y;
    assert s[..4] == BigEndian32(|f|) && t[..4] == BigEndian32(|g|);
    BigEndianInjective(|f|, |g|);
    assert f == s[4..4 + |f|] == t[4..4 + |g|] == g;
    assert x == s[4 + |f|..] == t[4 + |g|..] == y;
  }

  lemma {:induction false} FieldsInjective(fs: seq<ShortBytes>, gs: seq<ShortBytes>)
    requires |fs| == |gs|
    requires Fields(fs) == Fields(gs)
    ensures fs == gs
  {
    if fs != [] {
      FirstField(fs[0], gs[0], Fields(fs[1..]), Fields(gs[1..]));
      FieldsInjective(fs[1..], gs[1..]);
      assert fs == [fs[0]] + fs[1..] && gs == [gs[0]] + gs[1..];
    }
  }

  /** A transcript determines every field that went into it. */
  lemma TranscriptDeterminesFields(domain: Bytes, fs: seq<ShortBytes>, gs: seq<ShortBytes>)
    requires |fs| == |gs|
    ensures domain + Fields(fs) == domain + Fields(gs) <==> fs == gs
  {
    if domain + Fields(fs) == domain + Fields(gs) {
      assert Fields(fs) == (domain + Fields(fs))[|domain|..] == (domain + Fields(gs))[|domain|..] == Fields(gs);
      FieldsInjective(fs, gs);
    }
  }

  lemma FourEqual(a: ShortBytes, b: ShortBytes, c: ShortBytes, d: ShortBytes, e: ShortBytes, f: ShortBytes,
                  g: ShortBytes, h: ShortBytes)
    ensures [a, b, c, d] == [e, f, g, h] <==> a == e && b == f && c == g && d == h
  {
    var s, t := [a, b, c, d], [e, f, g, h];
    assert s[0] == a && s[1] == b && s[2] == c && s[3] == d;
    assert t[0] == e && t[1] == f && t[2] == g && t[3] == h;
  }

  /** The bind message says which session, which nonce and which two fingerprints it is about. */
  lemma DcBindMessageInjective(a: ShortBytes, b: ShortBytes, c: ShortBytes, d: ShortBytes, e: ShortBytes,
                               f: ShortBytes, g: ShortBytes, h: ShortBytes)
    ensures DcBindMessage(a, b, c, d) == DcBindMessage(e, f, g, h) <==> a == e && b == f && c == g && d == h
  {
    TranscriptDeterminesFields(DcBindDomain(), [a, b, c, d], [e, f, g, h]);
    FourEqual(a, b, c, d, e, f, g, h);
  }

  function ModeBMessage(sessionId: ShortBytes, nonce: ShortBytes, fpHost: ShortBytes, fpViewer: ShortBytes): Bytes
  {
    ModeBDomain() + Fields([sessionId, nonce, fpHost, fpViewer])
  }

  /** The same for the Mode B transcript. */
  lemma ModeBMessageInjective(a: ShortBytes, b: ShortBytes, c: ShortBytes, d: ShortBytes, e: ShortBytes,
                              f: ShortBytes, g: ShortBytes, h: ShortBytes)
    ensures ModeBMessage(a, b, c, d) == ModeBMessage(e, f, g, h) <==> a == e && b == f && c == g && d == h
  {
    TranscriptDeterminesFields(ModeBDomain(), [a, b, c, d], [e, f, g, h]);
    FourEqual(a, b, c, d, e, f, g, h);
  }

  // ---- reading back ------------------------------------------------------------------------

  /** Reads so many fields, each four bytes of length, highest byte first, and then as many bytes, and nothing
      else. */
  function ReadFields(b: Bytes, count: nat): Option<seq<Bytes>> {
    if count == 0 then (if b == [] then Some([]) else None)
    else if |b| < 4 then None
    else
      var n := b[0] as int * 0x1_000000 + b[1] as int * 0x1_0000 + b[2] as int * 0x100 + b[3] as int;
      if |b| < 4 + n then None
      else
        var rest := ReadFields(b[4 + n..], count - 1);
        if rest.None? then None else Some([b[4..4 + n]] + rest.value)
  }

  /** A reader of the format finds the fields in their order and untouched, and nothing behind them. */
  lemma {:induction false} FieldsReadBack(fs: seq<ShortBytes>)
    ensures ReadFields(Fields(fs), |fs|) == Some(fs)
  {
    if fs != [] {
      var b, f := Fields(fs), fs[0];
      FieldsReadBack(fs[1..]);
      assert b[..4] == BigEndian32(|f|) && b[4..4 + |f|] == f && b[4 + |f|..] == Fields(fs[1..]);
      assert FromBigEndian32(b[..4]) == |f|;
      assert fs == [f] + fs[1..];
    }
  }

  /** In both four-field messages they stand behind the 24 and 30 bytes of the domain. */
  lemma MessagesReadBack(sessionId: ShortBytes, nonce: ShortBytes, fpHost: ShortBytes, fpViewer: ShortBytes)
    ensures ReadFields(ModeBMessage(sessionId, nonce, fpHost, fpViewer)[24..], 4)
      == Some([sessionId, nonce, fpHost, fpViewer])
    ensures ReadFields(DcBindMessage(sessionId, nonce, fpHost, fpViewer)[30..], 4)
      == Some([sessionId, nonce, fpHost, fpViewer])
  {
    var fs: seq<ShortBytes> := [sessionId, nonce, fpHost, fpViewer];
    FieldsReadBack(fs);
    assert (ModeBDomain() + Fields(fs))[24..] == Fields(fs);
    assert (DcBindDomain() + Fields(fs))[30..] == Fields(fs);
  }

  /** Whatever the contents, no transcript of one kind equals one of another kind. */
  lemma KindsNeverCollide(x: Bytes, y: Bytes, z: Bytes)
    ensures ModeBDomain() + x != DcBindDomain() + y
    ensures ModeBDomain() + x != FingerprintDomain() + z
    ensures DcBindDomain() + y != FingerprintDomain() + z
  {
    assert (ModeBDomain() + x)[11] == 'm' as int;
    assert (DcBindDomain() + y)[11] == 'd' as int;
    assert (FingerprintDomain() + z)[11] == 'f' as int;
  }
}
