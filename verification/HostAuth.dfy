/** The host's own policy (apps/host/src/policy.rs): the one-time code window it mints, the three ways a code
    can be spent, and the decision on an incoming session. */
module HostAuth {
  import opened Common
  import opened Text
  import opened Transcript
  import opened OtpCodes
  import opened ManagerModel
  import opened ManagerService

  datatype Config = Config(unattended: bool, confirm: bool, otpDigits: nat, ttl: u64)

  datatype Window = Window(record: Record, hash: OtpHash, expiresAt: u64)

  datatype Service = Service(
    config: Config,
    pepper: Bytes,
    secret: Option<Bytes>,
    active: Option<Window>,
    lastCode: Option<string>)

  datatype SessionMode = Otp | Unattended | Password

  datatype PolicyError = UnattendedDisabled | UnattendedSecretMissing | NoActiveOtp | Auth(error: AuthError)

  datatype Grant = Granted(key: Bytes) | Denied(error: PolicyError)

  datatype Confirm = AutoAccept | Accepted | Declined | Pending

  datatype RejectReason = ByPolicy | ByAuth

  datatype Decision = Allow(bindKey: Option<Bytes>) | NeedConfirm | NeedOtpCode | Deny(reason: RejectReason)

  // ---- the decisions -----------------------------------------------------------------------

  function SaturatingAdd(a: u64, b: u64): u64 {
    if a + b > U64_MAX then U64_MAX else a + b
  }

  function PolicyAllowsMode(s: Service, mode: SessionMode): Option<PolicyError> {
    if !mode.Unattended? then None
    else if !s.config.unattended then Some(UnattendedDisabled)
    else if s.secret.None? then Some(UnattendedSecretMissing)
    else None
  }

  function DecideConfirm(config: Config, userAccepted: Option<bool>): Confirm {
    if !config.confirm then AutoAccept
    else
      match userAccepted
      case Some(yes) => if yes then Accepted else Declined
      case None => Pending
  }

  /** A mint that fails, on the digit count or on an empty pepper, leaves the old window standing. */
  function Mint(p: Primitives, s: Service, draw: nat -> Digit, salt: Bytes, now: u64): (Service, Result<string>) {
    var expires := SaturatingAdd(now, if s.config.ttl == 0 then 1 else s.config.ttl);
    if !(OTP_MIN_DIGITS <= s.config.otpDigits <= OTP_MAX_DIGITS) then (s, Err(InvalidOtpFormat))
    else
      var code := OtpOf(s.config.otpDigits, draw);
      match HashOtp(p, code, s.pepper, salt)
      case Err(e) => (s, Err(e))
      case Ok(hash) =>
        (s.(active := Some(Window(Record(hash, expires, false), hash, expires)), lastCode := Some(code)), Ok(code))
  }

  function Spend(p: Primitives, s: Service, code: string, now: nat): (Service, Grant) {
    if s.active.None? then (s, Denied(NoActiveOtp))
    else
      match AuthorizeRecord(p, s.active.value.record, code, s.pepper, now)
      case Err(e) => (s, Denied(Auth(e)))
      case Ok(key) => (s.(active := None), Granted(key))
  }

  function TypedCode(otpCode: Option<string>): Option<string> {
    if otpCode.None? || Trim(otpCode.value) == "" then None else Some(Trim(otpCode.value))
  }

  function DecideOtp(p: Primitives, s: Service, otpCode: Option<string>, now: nat): (Service, Decision) {
    match TypedCode(otpCode)
    case None =>
      if s.active.None? || now >= s.active.value.record.expiresAt then (s, Deny(ByAuth)) else (s, NeedOtpCode)
    case Some(code) =>
      match Spend(p, s, code, now)
      case (t, Granted(key)) => (t, Allow(Some(key)))
      case (t, Denied(_)) => (t, Deny(ByAuth))
  }

  function DecideAccept(p: Primitives, s: Service, mode: SessionMode, otpCode: Option<string>,
                        userAccepted: Option<bool>, now: nat): (Service, Decision) {
    var confirm := DecideConfirm(s.config, userAccepted);
    if confirm.Declined? then (s, Deny(ByPolicy))
    else if confirm.Pending? then (s, NeedConfirm)
    else
      match mode
      case Unattended => (s, if PolicyAllowsMode(s, Unattended).None? then Allow(None) else Deny(ByPolicy))
      case Password => (s, Allow(None))
      case Otp => DecideOtp(p, s, otpCode, now)
  }

  // ---- the service as the program has it ---------------------------------------------------

  datatype ActiveOtpWindow = ActiveOtpWindow(record: OtpRecord, hash: OtpHash, expiresAt: u64)

  class HostAuthService {
    var config: Config
    const pepper: Bytes
    var secret: Option<Bytes>
    var active: Option<ActiveOtpWindow>
    var lastCode: Option<string>

    function Records(): set<object>
      reads this
    {
      if active.Some? then {active.value.record} else {}
    }

    function State(): Service
      reads this, Records()
    {
      Service(config, pepper, secret,
              if active.None? then None
              else Some(Window(active.value.record.Value(), active.value.hash, active.value.expiresAt)),
              lastCode)
    }

    constructor (config: Config, pepper: Bytes)
      ensures State() == Service(config, pepper, None, None, None)
    {
      this.config, this.pepper, secret, active, lastCode := config, pepper, None, None, None;
    }

    method MintOtp(p: Primitives, draw: nat -> Digit, salt: Bytes, now: u64) returns (r: Result<string>)
      modifies this
      ensures (State(), r) == Mint(p, old(State()), draw, salt, now)
    {
      var ttl := if config.ttl == 0 then 1 else config.ttl;
      var expires := SaturatingAdd(now, ttl);
      r := GenerateOtp(config.otpDigits, draw);
      if r.Err? {
        return;
      }
      var code := r.value;
      var hash := HashOtp(p, code, pepper, salt);
      if hash.Err? {
        return Err(hash.error);
      }
      var record := new OtpRecord(hash.value, expires);
      lastCode := Some(code);
      active := Some(ActiveOtpWindow(record, hash.value, expires));
    }

    method ConsumeOtp(p: Primitives, code: string, now: nat) returns (r: Grant)
      modifies this, Records()
      ensures (State(), r) == Spend(p, old(State()), code, now)
    {
      if active.None? {
        return Denied(NoActiveOtp);
      }
      var key := active.value.record.AuthorizeModeA(p, code, pepper, now);
      if key.Err? {
        return Denied(Auth(key.error));
      }
      active := None;
      return Granted(key.value);
    }

    /** The same, with the key going straight into the session manager. */
    method AuthorizeSessionModeA(w: World, mgr: SessionManager, code: string, now: nat) returns (r: Grant)
      modifies this, Records(), mgr
      ensures (State(), r) == Spend(w.crypto, old(State()), code, now)
      ensures mgr.State() == if r.Granted? then Authorize(old(mgr.State()), r.key) else old(mgr.State())
    {
      if active.None? {
        return Denied(NoActiveOtp);
      }
      ghost var record := active.value.record.Value();
      var ok := mgr.AuthorizeModeA(w, active.value.record, code, pepper, now);
      if ok.Err? {
        return Denied(Auth(ok.error));
      }
      active := None;
      assert AuthorizeRecord(w.crypto, record, code, pepper, now).Ok?;
      return Granted(mgr.bindKey.value);
    }

    method DecideSessionAccept(p: Primitives, mode: SessionMode, otpCode: Option<string>,
                               userAccepted: Option<bool>, now: nat)
      returns (r: Decision)
      modifies this, Records()
      ensures (State(), r) == DecideAccept(p, old(State()), mode, otpCode, userAccepted, now)
    {
      var confirm := DecideConfirm(config, userAccepted);
      if confirm.Declined? {
        return Deny(ByPolicy);
      }
      if confirm.Pending? {
        return NeedConfirm;
      }
      match mode
      case Unattended =>
        var refusal := PolicyAllowsMode(State(), Unattended);
        return if refusal.None? then Allow(None) else Deny(ByPolicy);
      case Password =>
        return Allow(None);
      case Otp =>
        var code := TypedCode(otpCode);
        if code.None? {
          if active.None? {
            return Deny(ByAuth);
          }
          if now >= active.value.record.expiresAt {
            return Deny(ByAuth);
          }
          return NeedOtpCode;
        }
        var grant := ConsumeOtp(p, code.value, now);
        return if grant.Granted? then Allow(Some(grant.key)) else Deny(ByAuth);
    }
  }

  // ---- runs --------------------------------------------------------------------------------

  datatype Step =
    | Minted(draw: nat -> Digit, salt: Bytes, now: u64)
    | Consumed(code: string, now: u64)
    | SessionAuthorized(code: string, now: u64)
    | Decided(mode: SessionMode, otpCode: Option<string>, userAccepted: Option<bool>, now: u64)
    | Configured(config: Config)
    | SecretInstalled(secret: Bytes)

  /** The service with the number of codes minted, the number of Mode A authorizations given out, and how many
      of these since the last mint. */
  datatype Tally = Tally(service: Service, mints: nat, grants: nat, sinceMint: nat)

  function Counted(t: Tally, next: Service, granted: bool): Tally {
    if granted then Tally(next, t.mints, t.grants + 1, t.sinceMint + 1) else t.(service := next)
  }

  function Take(t: Tally, p: Primitives, st: Step): Tally {
    var s := t.service;
    match st
    case Minted(draw, salt, now) =>
      var (next, r) := Mint(p, s, draw, salt, now);
      if r.Ok? then Tally(next, t.mints + 1, t.grants, 0) else t.(service := next)
    case Consumed(code, now) =>
      var (next, r) := Spend(p, s, code, now);
      Counted(t, next, r.Granted?)
    case SessionAuthorized(code, now) =>
      var (next, r) := Spend(p, s, code, now);
      Counted(t, next, r.Granted?)
    case Decided(mode, otpCode, userAccepted, now) =>
      var (next, r) := DecideAccept(p, s, mode, otpCode, userAccepted, now);
      Counted(t, next, r.Allow? && r.bindKey.Some?)
    case Configured(config) => t.(service := s.(config := config))
    case SecretInstalled(secret) => t.(service := s.(secret := Some(secret)))
  }

  function Run(p: Primitives, config: Config, pepper: Bytes, steps: seq<Step>): Tally {
    if steps == [] then Tally(Service(config, pepper, None, None, None), 0, 0, 0)
    else Take(Run(p, config, pepper, steps[..|steps| - 1]), p, steps[|steps| - 1])
  }

  /** An open window holds an unspent record of the code last shown, and there have been more mints than
      authorizations. */
  ghost predicate Inv(p: Primitives, t: Tally) {
    var s := t.service;
    && t.grants + (if s.active.Some? then 1 else 0) <= t.mints
    && t.sinceMint + (if s.active.Some? then 1 else 0) <= (if t.mints == 0 then 0 else 1)
    && (s.active.Some? ==>
          && !s.active.value.record.consumed
          && s.active.value.hash == s.active.value.record.hash
          && s.active.value.expiresAt == s.active.value.record.expiresAt
          && s.lastCode.Some?
          && HashOtp(p, s.lastCode.value, s.pepper, s.active.value.hash.salt) == Ok(s.active.value.hash))
  }

  lemma {:induction false} EveryRunKeepsInv(p: Primitives, config: Config, pepper: Bytes, steps: seq<Step>)
    ensures Inv(p, Run(p, config, pepper, steps))
  {
    if steps != [] {
      EveryRunKeepsInv(p, config, pepper, steps[..|steps| - 1]);
    }
  }

  /** Across all three ways to spend a code there is at most one authorization after each mint, none before
      the first, and so never more authorizations than mints. */
  lemma OneAuthorizationPerMint(p: Primitives, config: Config, pepper: Bytes, steps: seq<Step>)
    ensures var t := Run(p, config, pepper, steps);
      t.grants <= t.mints && t.sinceMint <= 1 && (t.mints == 0 ==> t.sinceMint == 0)
  {
    EveryRunKeepsInv(p, config, pepper, steps);
  }

  /** In any reachable state with an open window, the code on the host's screen authorizes exactly until the
      window expires; it does so once, and any other code gets in only by an HMAC collision. */
  lemma ShownCodeWorksOnceUntilExpiry(p: Primitives, config: Config, pepper: Bytes, steps: seq<Step>, code: string,
                                      now: nat, again: string, later: nat)
    requires Run(p, config, pepper, steps).service.active.Some?
    ensures var s := Run(p, config, pepper, steps).service;
      && s.lastCode.Some?
      && (Spend(p, s, s.lastCode.value, now).1.Granted? <==> now < s.active.value.expiresAt)
      && (Spend(p, s, code, now).1.Granted? && code != s.lastCode.value ==>
            Collides(p, s.pepper, s.active.value.hash.salt, code, s.lastCode.value))
      && (Spend(p, s, code, now).1.Granted? ==>
            Spend(p, Spend(p, s, code, now).0, again, later).1 == Denied(NoActiveOtp))
  {
    EveryRunKeepsInv(p, config, pepper, steps);
    var s := Run(p, config, pepper, steps).service;
    HashVerifiesItsCode(p, s.lastCode.value, code, s.pepper, s.active.value.hash.salt);
  }

  // ---- the time window ---------------------------------------------------------------------

  /** A mint succeeds exactly with six to eight digits, a pepper and a salt of 16 bytes; otherwise nothing changes.
      The code it shows has the digits drawn. */
  lemma MintSucceedsExactlyWhen(p: Primitives, s: Service, draw: nat -> Digit, salt: Bytes, now: u64)
    ensures var (s1, r) := Mint(p, s, draw, salt, now);
      && (r.Ok? <==> 6 <= s.config.otpDigits <= 8 && s.pepper != [] && |salt| == 16)
      && (r.Ok? ==> s1.lastCode == Some(r.value) && |r.value| == s.config.otpDigits
                    && forall i :: 0 <= i < |r.value| ==> r.value[i] == DigitChar(draw(i)))
      && (r.Err? ==> s1 == s)
  {
    if 6 <= s.config.otpDigits <= 8 {
      GeneratedFormat(s.config.otpDigits, draw);
    }
  }

  /** The second from which a code minted at `now` no longer works: its configured lifetime later, at least one
      second, and never beyond the last second there is. */
  function Deadline(now: u64, ttl: u64): nat {
    var end := now + if ttl < 1 then 1 else ttl;
    if end < U64_MAX then end else U64_MAX
  }

  /** The window across mint and spend: a code minted at `now` authorizes at time t, by itself or for a session the
      host confirms, exactly before its deadline.  It gives the key derived from it. */
  lemma MintedCodeWorksExactlyForItsTtl(p: Primitives, s: Service, draw: nat -> Digit, salt: Bytes, now: u64,
                                        userAccepted: Option<bool>, t: nat)
    requires Mint(p, s, draw, salt, now).1.Ok?
    ensures var (s1, shown) := Mint(p, s, draw, salt, now);
      var spent := Spend(p, s1, shown.value, t).1;
      var decided := DecideAccept(p, s1, Otp, Some(shown.value), userAccepted, t).1;
      && (spent.Granted? <==> t < Deadline(now, s.config.ttl))
      && (spent.Granted? ==> spent.key == p.hmac(BindKeySalt(), Utf8(shown.value)))
      && (decided.Allow? <==> Confirmed(s.config, userAccepted) && t < Deadline(now, s.config.ttl))
  {
    var (s1, shown) := Mint(p, s, draw, salt, now);
    MintSucceedsExactlyWhen(p, s, draw, salt, now);
    GeneratedFormat(s.config.otpDigits, draw);
    HashVerifiesItsCode(p, shown.value, shown.value, s.pepper, salt);
    AuthorizationIsVerification(p, s1.active.value.record, shown.value, s.pepper, t);
    DigitsAreTrimmed(shown.value);
  }

  lemma DigitsAreTrimmed(code: string)
    requires code != "" && AllDigits(code)
    ensures Trim(code) == code
  {
    assert IsDigit(code[0]) && IsDigit(code[|code| - 1]);
  }

  /** A mint puts an end to the code before it: that works afterwards only if HMAC collides. */
  lemma MintReplacesTheCode(p: Primitives, s: Service, draw: nat -> Digit, salt: Bytes, now: u64, earlier: string,
                            t: nat)
    requires Mint(p, s, draw, salt, now).1.Ok?
    ensures var (s1, shown) := Mint(p, s, draw, salt, now);
      earlier != shown.value && Spend(p, s1, earlier, t).1.Granted? ==>
        Collides(p, s.pepper, salt, earlier, shown.value)
  {
    var (s1, shown) := Mint(p, s, draw, salt, now);
    HashVerifiesItsCode(p, shown.value, earlier, s.pepper, salt);
  }

  /** Without a code an Otp session is asked for one exactly as long as a minted code could still be used, and turned
      away otherwise. */
  lemma CodeIsAskedForExactlyForItsTtl(p: Primitives, s: Service, draw: nat -> Digit, salt: Bytes, now: u64,
                                       typed: Option<string>, userAccepted: Option<bool>, t: nat)
    requires Mint(p, s, draw, salt, now).1.Ok? && (typed.None? || Trim(typed.value) == "")
    ensures var s1 := Mint(p, s, draw, salt, now).0;
      DecideAccept(p, s1, Otp, typed, userAccepted, t) == (s1,
        if !Confirmed(s.config, userAccepted) then (if userAccepted.None? then NeedConfirm else Deny(ByPolicy))
        else if t < Deadline(now, s.config.ttl) then NeedOtpCode
        else Deny(ByAuth))
  {
  }

  /** And before any code was minted, or after it was spent, it is turned away. */
  lemma NoCodeNoSession(p: Primitives, s: Service, typed: Option<string>, userAccepted: Option<bool>, t: nat)
    requires s.active.None? && Confirmed(s.config, userAccepted)
    ensures DecideAccept(p, s, Otp, typed, userAccepted, t) == (s, Deny(ByAuth))
  {
  }

  /** What is refused for the other modes, and why: unattended access that is switched off or has no secret is against
      the policy; a password session needs the host's consent only. */
  lemma OtherModesDecided(p: Primitives, s: Service, typed: Option<string>, userAccepted: Option<bool>, t: nat)
    ensures DecideAccept(p, s, Unattended, typed, userAccepted, t) == (s,
      if !Confirmed(s.config, userAccepted) then (if userAccepted.None? then NeedConfirm else Deny(ByPolicy))
      else if s.config.unattended && s.secret.Some? then Allow(None)
      else Deny(ByPolicy))
    ensures DecideAccept(p, s, Password, typed, userAccepted, t) == (s,
      if !Confirmed(s.config, userAccepted) then (if userAccepted.None? then NeedConfirm else Deny(ByPolicy))
      else Allow(None))
  {
  }

  ghost predicate Collides(p: Primitives, pepper: Bytes, salt: Bytes, a: string, b: string) {
    && OtpMessage(salt, a) != OtpMessage(salt, b)
    && p.hmac(pepper, OtpMessage(salt, a)) == p.hmac(pepper, OtpMessage(salt, b))
  }

  /** The same seen from an incoming session.  In every reachable state, what the viewer typed lets an Otp session
      in exactly when the host confirms, a window is open and has not expired, and the trimmed text is the code on
      the host's screen or a well-formed code that HMAC maps to the same digest; and then the window is closed. */
  lemma OtpSessionAllowedExactlyWhen(p: Primitives, config: Config, pepper: Bytes, steps: seq<Step>,
                                     typed: string, userAccepted: Option<bool>, now: nat)
    ensures var s := Run(p, config, pepper, steps).service;
      var (t, r) := DecideAccept(p, s, Otp, Some(typed), userAccepted, now);
      && (r.Allow? <==> Confirmed(s.config, userAccepted) && s.active.Some? && now < s.active.value.expiresAt
                        && IsShownCode(p, s, Trim(typed)))
      && (r.Allow? ==> r.bindKey == Some(p.hmac(BindKeySalt(), Utf8(Trim(typed)))) && t == s.(active := None))
      && (!r.Allow? ==> t == s)
  {
    EveryRunKeepsInv(p, config, pepper, steps);
    var s := Run(p, config, pepper, steps).service;
    var code := Trim(typed);
    if s.active.Some? {
      var record := s.active.value.record;
      HashVerifiesItsCode(p, s.lastCode.value, code, s.pepper, s.active.value.hash.salt);
      AuthorizationIsVerification(p, record, code, s.pepper, now);
      if IsShownCode(p, s, code) {
        FormatIsSixToEightDigits(code);
      }
    }
  }

  predicate Confirmed(config: Config, userAccepted: Option<bool>) {
    !config.confirm || userAccepted == Some(true)
  }

  /** The code last shown, or one that passes for it. */
  ghost predicate IsShownCode(p: Primitives, s: Service, code: string)
    requires s.active.Some?
  {
    s.lastCode.Some? &&
      (s.lastCode.value == code ||
        (ValidateOtpFormat(code).Ok? && Collides(p, s.pepper, s.active.value.hash.salt, code, s.lastCode.value)))
  }

  /** Exactly when a session is let in, and that nothing is spent unless a code was accepted. */
  lemma AllowedExactlyWhen(p: Primitives, s: Service, mode: SessionMode, otpCode: Option<string>,
                           userAccepted: Option<bool>, now: nat)
    ensures var (t, r) := DecideAccept(p, s, mode, otpCode, userAccepted, now);
      && (r.Allow? <==> Confirmed(s.config, userAccepted) && ModeAdmits(p, s, mode, otpCode, now))
      && (t != s ==> mode.Otp? && r.Allow? && r.bindKey.Some? && s.active.Some? && t == s.(active := None))
      && (r.NeedConfirm? <==> s.config.confirm && userAccepted == None)
  {
  }

  ghost predicate ModeAdmits(p: Primitives, s: Service, mode: SessionMode, otpCode: Option<string>, now: nat) {
    match mode
    case Unattended => s.config.unattended && s.secret.Some?
    case Password => true
    case Otp =>
      && s.active.Some? && otpCode.Some? && Trim(otpCode.value) != ""
      && !s.active.value.record.consumed && now < s.active.value.record.expiresAt
      && VerifyOtp(p, Trim(otpCode.value), s.pepper, s.active.value.record.hash).Ok?
  }
}
