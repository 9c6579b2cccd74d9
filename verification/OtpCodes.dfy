/** Mode A one-time codes (packages/auth/src/otp.rs) and the bind key a code yields
    (packages/auth/src/identity.rs).  HMAC-SHA256 and SHA-256 are arbitrary functions. */
module OtpCodes {
  import opened Common
  import opened Text
  import opened Transcript

  const OTP_MIN_DIGITS := 6
  const OTP_MAX_DIGITS := 8
  const OTP_SALT_LEN := 16

  datatype Primitives = Primitives(hmac: (Bytes, Bytes) -> Bytes, sha256: Bytes -> Bytes)

  datatype AuthError = InvalidOtpFormat | CryptoFailure | CodeMismatch | AlreadyConsumed | Expired

  datatype Result<+T> = Ok(value: T) | Err(error: AuthError)

  datatype OtpHash = OtpHash(digest: Bytes, salt: Bytes, keyed: bool)

  /** Value of an OtpRecord. */
  datatype Record = Record(hash: OtpHash, expiresAt: u64, consumed: bool)

  type Digit = n: nat | n < 10

  // ---- format and generation ---------------------------------------------------------------

  /** str::len counts bytes, but the digits that follow are characters. */
  function ValidateOtpFormat(code: string): Result<()> {
    if !(OTP_MIN_DIGITS <= ByteLen(code) <= OTP_MAX_DIGITS) then Err(InvalidOtpFormat)
    else if !AllDigits(code) then Err(InvalidOtpFormat)
    else Ok(())
  }

  /** Six to eight ASCII digits and nothing else: a byte count that fits cannot let other characters in. */
  lemma FormatIsSixToEightDigits(code: string)
    ensures ValidateOtpFormat(code).Ok? <==> 6 <= |code| <= 8 && AllDigits(code)
  {
    if AllDigits(code) {
      AsciiUtf8(code);
    }
  }

  function DigitChar(d: Digit): (c: char)
    ensures IsDigit(c)
  {
    ('0' as int + d) as char
  }

  function OtpOf(digits: nat, draw: nat -> Digit): string {
    seq(digits, i requires 0 <= i => DigitChar(draw(i)))
  }

  /** One draw per digit; whatever is drawn, the code has the format every check demands. */
  method GenerateOtp(digits: nat, draw: nat -> Digit) returns (r: Result<string>)
    ensures r == if OTP_MIN_DIGITS <= digits <= OTP_MAX_DIGITS then Ok(OtpOf(digits, draw)) else Err(InvalidOtpFormat)
    ensures r.Ok? ==> ValidateOtpFormat(r.value).Ok?
  {
    if !(OTP_MIN_DIGITS <= digits <= OTP_MAX_DIGITS) {
      return Err(InvalidOtpFormat);
    }
    var s := "";
    for i := 0 to digits
      invariant |s| == i && forall j :: 0 <= j < i ==> s[j] == DigitChar(draw(j))
    {
      s := s + [DigitChar(draw(i))];
    }
    GeneratedFormat(digits, draw);
    assert s == OtpOf(digits, draw);
    return Ok(s);
  }

  lemma GeneratedFormat(digits: nat, draw: nat -> Digit)
    requires OTP_MIN_DIGITS <= digits <= OTP_MAX_DIGITS
    ensures ValidateOtpFormat(OtpOf(digits, draw)).Ok?
  {
    var code := OtpOf(digits, draw);
    assert AllDigits(code) by {
      forall i | 0 <= i < |code| ensures IsDigit(code[i]) {
        assert code[i] == DigitChar(draw(i));
      }
    }
    FormatIsSixToEightDigits(code);
  }

  // ---- hashing and verification ------------------------------------------------------------

  function OtpDomain(): Bytes { Ascii("remotelink-otp-v1:") }

  function OtpMessage(salt: Bytes, code: string): Bytes {
    OtpDomain() + salt + Utf8(code)
  }

  function HashOtpWithSalt(p: Primitives, code: string, pepper: Bytes, salt: Bytes): Result<OtpHash> {
    if ValidateOtpFormat(code).Err? then Err(InvalidOtpFormat)
    else if pepper == [] then Err(CryptoFailure)
    else if |salt| != OTP_SALT_LEN then Err(CryptoFailure)
    else Ok(OtpHash(p.hmac(pepper, OtpMessage(salt, code)), salt, true))
  }

  /** hash_otp draws the salt; it looks at the pepper before the code. */
  function HashOtp(p: Primitives, code: string, pepper: Bytes, salt: Bytes): Result<OtpHash> {
    if pepper == [] then Err(CryptoFailure) else HashOtpWithSalt(p, code, pepper, salt)
  }

  function HashOtpUnkeyed(p: Primitives, code: string): Result<OtpHash> {
    if ValidateOtpFormat(code).Err? then Err(InvalidOtpFormat)
    else Ok(OtpHash(p.sha256(OtpDomain() + Utf8(code)), seq(OTP_SALT_LEN, _ => 0), false))
  }

  function VerifyOtp(p: Primitives, code: string, pepper: Bytes, expected: OtpHash): Result<()> {
    var candidate :=
      if expected.keyed then HashOtpWithSalt(p, code, pepper, expected.salt) else HashOtpUnkeyed(p, code);
    if candidate.Err? then Err(candidate.error)
    else if candidate.value.digest == expected.digest then Ok(())
    else Err(CodeMismatch)
  }

  lemma {:induction false} DigitsInjective(a: string, b: string)
    requires AllDigits(a) && AllDigits(b) && Utf8(a) == Utf8(b)
    ensures a == b
  {
    AsciiUtf8(a);
    AsciiUtf8(b);
    forall i | 0 <= i < |a| ensures a[i] == b[i] {
      assert Utf8(a)[i] == Utf8(b)[i];
    }
  }

  lemma MessageDeterminesCode(salt: Bytes, a: string, b: string)
    requires AllDigits(a) && AllDigits(b) && OtpMessage(salt, a) == OtpMessage(salt, b)
    ensures a == b
  {
    var n := |OtpDomain() + salt|;
    assert Utf8(a) == OtpMessage(salt, a)[n..] == OtpMessage(salt, b)[n..] == Utf8(b);
    DigitsInjective(a, b);
  }

  /** A hash made from a code verifies against that code, and against another well-formed code exactly when
      HMAC maps two different messages to one digest. */
  lemma HashVerifiesItsCode(p: Primitives, code: string, other: string, pepper: Bytes, salt: Bytes)
    requires HashOtp(p, code, pepper, salt).Ok?
    ensures var h := HashOtp(p, code, pepper, salt).value;
      && VerifyOtp(p, code, pepper, h).Ok?
      && (VerifyOtp(p, other, pepper, h).Ok? <==>
          (other == code ||
            (ValidateOtpFormat(other).Ok? && OtpMessage(salt, other) != OtpMessage(salt, code)
             && p.hmac(pepper, OtpMessage(salt, other)) == p.hmac(pepper, OtpMessage(salt, code)))))
  {
    if ValidateOtpFormat(other).Ok? && OtpMessage(salt, other) == OtpMessage(salt, code) {
      MessageDeterminesCode(salt, other, code);
    }
  }

  /** The message that is hashed is the domain, the salt and the code, so it determines both. */
  lemma MessageReadsBack(salt: Bytes, code: string)
    ensures var m := OtpMessage(salt, code);
      && |m| >= 18 + |salt| && m[..18] == Ascii("remotelink-otp-v1:")
      && m[18..18 + |salt|] == salt && m[18 + |salt|..] == Utf8(code)
  {
  }

  lemma MessageDeterminesSaltAndCode(salt: Bytes, a: string, other: Bytes, b: string)
    requires AllDigits(a) && AllDigits(b) && |salt| == |other|
    ensures OtpMessage(salt, a) == OtpMessage(other, b) <==> salt == other && a == b
  {
    if OtpMessage(salt, a) == OtpMessage(other, b) {
      MessageReadsBack(salt, a);
      MessageReadsBack(other, b);
      DigitsInjective(a, b);
    }
  }

  /** A hash without a key verifies its own code under whatever pepper, and another well-formed code exactly when
      SHA-256 maps the two to one digest. */
  lemma UnkeyedVerifiesItsCode(p: Primitives, code: string, other: string, pepper: Bytes)
    requires HashOtpUnkeyed(p, code).Ok?
    ensures var h := HashOtpUnkeyed(p, code).value;
      && !h.keyed
      && (VerifyOtp(p, other, pepper, h).Ok? <==>
          (other == code ||
            (ValidateOtpFormat(other).Ok? && OtpMessage([], other) != OtpMessage([], code)
             && p.sha256(OtpMessage([], other)) == p.sha256(OtpMessage([], code)))))
  {
    assert OtpMessage([], other) == OtpDomain() + Utf8(other) && OtpMessage([], code) == OtpDomain() + Utf8(code);
    if ValidateOtpFormat(other).Ok? && OtpMessage([], other) == OtpMessage([], code) {
      MessageDeterminesCode([], other, code);
    }
  }

  // ---- the consume-once record -------------------------------------------------------------

  function VerifyRecord(p: Primitives, r: Record, code: string, pepper: Bytes, now: nat): Result<()> {
    if r.consumed then Err(AlreadyConsumed)
    else if now >= r.expiresAt then Err(Expired)
    else VerifyOtp(p, code, pepper, r.hash)
  }

  class OtpRecord {
    const hash: OtpHash
    const expiresAt: u64
    var consumed: bool

    function Value(): Record
      reads this
    {
      Record(hash, expiresAt, consumed)
    }

    constructor (hash: OtpHash, expiresAt: u64)
      ensures Value() == Record(hash, expiresAt, false)
    {
      this.hash, this.expiresAt, consumed := hash, expiresAt, false;
    }

    method VerifyAndConsume(p: Primitives, code: string, pepper: Bytes, now: nat) returns (r: Result<()>)
      modifies this
      ensures r == VerifyRecord(p, old(Value()), code, pepper, now)
      ensures consumed == (old(consumed) || r.Ok?)
    {
      r := VerifyRecord(p, Value(), code, pepper, now);
      if r.Ok? {
        consumed := true;
      }
    }

    method MarkConsumed()
      modifies this
      ensures consumed
    {
      consumed := true;
    }

    /** Verify and consume, then derive the bind key.  The two steps cannot disagree: the key derivation
        fails only on a malformed code, and verification has already turned those away. */
    method AuthorizeModeA(p: Primitives, code: string, pepper: Bytes, now: nat) returns (r: Result<Bytes>)
      modifies this
      ensures r == AuthorizeRecord(p, old(Value()), code, pepper, now)
      ensures consumed == (old(consumed) || r.Ok?)
    {
      AuthorizationIsVerification(p, Value(), code, pepper, now);
      var v := VerifyAndConsume(p, code, pepper, now);
      if v.Err? {
        return Err(v.error);
      }
      r := ModeABindKey(p, code);
    }
  }

  // ---- the Mode A bind key -----------------------------------------------------------------

  function BindKeySalt(): Bytes { Ascii("remotelink-otp-bind-key-v1") }

  function ModeABindKey(p: Primitives, code: string): Result<Bytes> {
    if ValidateOtpFormat(code).Err? then Err(InvalidOtpFormat)
    else Ok(p.hmac(BindKeySalt(), Utf8(code)))
  }

  function AuthorizeRecord(p: Primitives, r: Record, code: string, pepper: Bytes, now: nat): Result<Bytes> {
    var v := VerifyRecord(p, r, code, pepper, now);
    if v.Err? then Err(v.error) else ModeABindKey(p, code)
  }

  /** No code is ever consumed without an authorization to show for it. */
  lemma AuthorizationIsVerification(p: Primitives, r: Record, code: string, pepper: Bytes, now: nat)
    ensures AuthorizeRecord(p, r, code, pepper, now).Ok? <==> VerifyRecord(p, r, code, pepper, now).Ok?
    ensures AuthorizeRecord(p, r, code, pepper, now).Ok? ==>
      AuthorizeRecord(p, r, code, pepper, now).value == p.hmac(BindKeySalt(), Utf8(code))
  {
  }

  /** Verification alone already rules a malformed code out, whatever hash is stored. */
  lemma VerifiedCodesAreWellFormed(p: Primitives, code: string, pepper: Bytes, h: OtpHash)
    requires VerifyOtp(p, code, pepper, h).Ok?
    ensures 6 <= |code| <= 8 && AllDigits(code)
  {
    FormatIsSixToEightDigits(code);
  }
}
