/** The session manager as the program has it: an object whose methods edit its fields.  Each method is
    proved to do what the transition of the same purpose does. */
module ManagerService {
  import opened Common
  import opened Transcript
  import opened OtpCodes
  import opened ManagerModel
  import DcJson

  class SessionManager {
    var sid: Option<ShortText>
    var media: bool
    var outbound: seq<Signal>
    var gathered: seq<Candidate>
    var identity: Identity
    var bindKey: Option<Bytes>
    var pending: Option<Nonce>
    var accepted: seq<InputEvent>
    var rejected: u64
    var decodeErrors: u64
    var rateLimited: u64
    var policyEnabled: bool
    ghost var trace: seq<Event>

    ghost function State(): Manager
      reads this
    {
      Manager(sid, media, outbound, gathered, identity, bindKey, pending,
              accepted, rejected, decodeErrors, rateLimited, policyEnabled, trace)
    }

    constructor ()
      ensures State() == Fresh([], [])
    {
      sid, media, outbound, gathered := None, false, [], [];
      identity := Identity([], false, false);
      bindKey, pending, accepted := None, None, [];
      rejected, decodeErrors, rateLimited, policyEnabled := 0, 0, 0, false;
      trace := [];
    }

    method AttachSession(newSid: ShortText)
      modifies this
      ensures State() == Attach(old(State()), newSid)
    {
      ghost var before := trace;
      sid := Some(newSid);
      media := false;
      outbound := [];
      ResetIdentity(newSid);
      ResetInput();
      trace := before + [Attached(newSid)];
    }

    method DetachSession()
      modifies this
      ensures State() == Detach(old(State()))
    {
      ghost var before := trace;
      StopMedia();
      sid := None;
      outbound := [];
      ResetIdentity([]);
      ResetInput();
      trace := before + [Detached];
    }

    /** Attach and detach both forget everything about the identity ... */
    method ResetIdentity(session: ShortText)
      modifies this`identity, this`bindKey, this`pending
      ensures identity == Identity(session, false, false) && bindKey == None && pending == None
    {
      identity := Identity(session, false, false);
      bindKey := None;
      pending := None;
    }

    /** ... and everything about input. */
    method ResetInput()
      modifies this`accepted, this`rejected, this`decodeErrors, this`rateLimited, this`policyEnabled
      ensures accepted == [] && rejected == 0 && decodeErrors == 0 && rateLimited == 0 && !policyEnabled
    {
      accepted := [];
      rejected := 0;
      decodeErrors := 0;
      rateLimited := 0;
      policyEnabled := false;
    }

    method SetInputPolicyEnabled(enabled: bool)
      modifies this`policyEnabled
      ensures policyEnabled == enabled
    {
      policyEnabled := enabled;
    }

    /** The code is consumed and the session authorized together, or neither happens. */
    method AuthorizeModeA(w: World, record: OtpRecord, code: string, pepper: Bytes, now: nat) returns (r: Result<()>)
      modifies this, record
      ensures var key := AuthorizeRecord(w.crypto, old(record.Value()), code, pepper, now);
        && r == (if key.Ok? then Ok(()) else Err(key.error))
        && State() == (if key.Ok? then Authorize(old(State()), key.value) else old(State()))
        && record.consumed == (old(record.consumed) || key.Ok?)
    {
      var key := record.AuthorizeModeA(w.crypto, code, pepper, now);
      if key.Err? {
        return Err(key.error);
      }
      MarkAuthorized(key.value);
      return Ok(());
    }

    method MarkAuthorized(key: Bytes)
      modifies this`bindKey, this`identity, this`trace
      ensures State() == Authorize(old(State()), key)
    {
      bindKey := Some(key);
      identity := identity.(authorized := true);
      trace := trace + [Authorized];
    }

    method VerifyModeB(w: World, secret: Bytes, nonce: ShortBytes, fpHost: ShortBytes, fpViewer: ShortBytes,
                       mac: Bytes)
      returns (r: Status)
      modifies this
      ensures (State(), r) == AuthorizeModeB(w, old(State()), secret, nonce, fpHost, fpViewer, mac)
    {
      if sid.None? {
        return Failed(NoSession);
      }
      var transcript := EncodeChallenge(sid.value, nonce, fpHost, fpViewer);
      if mac != w.crypto.hmac(secret, transcript) {
        return Failed(BadModeBMac);
      }
      MarkAuthorized(secret);
      return Done;
    }

    method AuthorizeUnattendedSecret(secret: Bytes) returns (r: Status)
      modifies this
      ensures (State(), r) == AuthorizeUnattended(old(State()), secret)
    {
      if sid.None? {
        return Failed(NoSession);
      }
      MarkAuthorized(secret);
      return Done;
    }

    method StartIdentityChallenge(connected: bool, nonce: Nonce, sent: bool) returns (r: Status)
      modifies this`pending, this`trace
      ensures (State(), r) == StartChallenge(old(State()), connected, nonce, sent)
    {
      if sid.None? {
        return Failed(NoSession);
      }
      if !identity.authorized {
        return Failed(NotAuthorized);
      }
      if bindKey.None? {
        return Failed(NoBindKey);
      }
      if !connected {
        return Failed(PeerNotConnected);
      }
      if !sent {
        return Failed(SendFailed);
      }
      pending := Some(nonce);
      trace := trace + [Challenged(nonce)];
      return Done;
    }

    method HandleIdentityData(w: World, msg: Inbound) returns (r: Status)
      modifies this`pending, this`identity, this`trace
      ensures (State(), r) == HandleIdentity(w, old(State()), msg)
    {
      var parsed := DcJson.Parse(msg.text);
      match parsed
      case Err(_) => return Failed(BadIdentityMessage);
      case Ok(Challenge(_)) => return Failed(UnexpectedChallenge);
      case Ok(Response(mac)) =>
        if pending.None? {
          return Failed(NoPendingChallenge);
        }
        var nonce := pending.value;
        pending := None;
        r := CompleteBind(w, nonce, mac, msg);
        trace := trace + [Responded(nonce, r.Done?)];
    }

    method CompleteBind(w: World, nonce: Nonce, mac: Bytes, msg: Inbound) returns (r: Status)
      modifies this`identity
      ensures r == CheckResponse(w, old(State()), nonce, mac, msg)
      ensures identity == if r.Done? then old(identity).(bound := true) else old(identity)
    {
      if bindKey.None? {
        return Failed(NoBindKey);
      }
      if msg.fpHost.None? {
        return Failed(FingerprintUnknown);
      }
      if msg.fpViewer.None? {
        return Failed(FingerprintUnknown);
      }
      var transcript := EncodeDcBind(identity.session, nonce, msg.fpHost.value, msg.fpViewer.value);
      if mac != w.crypto.hmac(bindKey.value, transcript) {
        return Failed(MacMismatch);
      }
      identity := identity.(bound := true);
      return Done;
    }

    method PushAcceptedInput(e: InputEvent)
      modifies this`accepted
      ensures accepted == PushRing(old(accepted), e)
    {
      if |accepted| >= ACCEPTED_INPUT_CAP {
        var overflow := |accepted| + 1 - ACCEPTED_INPUT_CAP;
        accepted := accepted[overflow..];
      }
      accepted := accepted + [e];
    }

    method ProcessInputMessage(w: World, msg: Inbound) returns (r: Outcome)
      modifies this`accepted, this`rejected, this`decodeErrors, this`rateLimited, this`trace
      ensures (State(), r) == ProcessInput(w, old(State()), msg)
    {
      if !(policyEnabled && identity.bound && identity.authorized) {
        rejected := SatSucc(rejected);
        trace := trace + [Dropped(false)];
        return RejectedGate;
      }
      if msg.text.None? {
        decodeErrors := SatSucc(decodeErrors);
        trace := trace + [Dropped(true)];
        return DecodeError;
      }
      var event := w.decode(msg.text.value);
      if event.None? {
        decodeErrors := SatSucc(decodeErrors);
        trace := trace + [Dropped(true)];
        return DecodeError;
      }
      trace := trace + [Reached(event.value, msg.injector)];
      match msg.injector
      case Taken =>
        PushAcceptedInput(event.value);
        return Injected;
      case Throttled =>
        rateLimited := SatSucc(rateLimited);
        return RateLimited;
      case Refused =>
        rejected := SatSucc(rejected);
        return InjectError;
    }

    method PollInboundMessages(w: World, msgs: seq<Inbound>) returns (r: Status)
      modifies this
      ensures (State(), r) == PollInbound(w, old(State()), msgs)
    {
      assert msgs[0..] == msgs;
      for i := 0 to |msgs|
        invariant PollInbound(w, old(State()), msgs) == PollInbound(w, State(), msgs[i..])
      {
        assert msgs[i..][1..] == msgs[i + 1..];
        if msgs[i].channel == IDENTITY_CHANNEL {
          var status := HandleIdentityData(w, msgs[i]);
          if status.Failed? {
            return status;
          }
        } else if msgs[i].channel == INPUT_CHANNEL {
          var outcome := ProcessInputMessage(w, msgs[i]);
        }
      }
      return Done;
    }

    method TakeAcceptedInput() returns (events: seq<InputEvent>)
      modifies this`accepted, this`trace
      ensures events == old(accepted)
      ensures State() == TakeAccepted(old(State()))
    {
      events := accepted;
      accepted := [];
      trace := trace + [Drained];
    }

    method StartMediaPlane(env: MediaEnv) returns (r: Status)
      modifies this`media, this`outbound, this`gathered, this`trace
      ensures (State(), r) == StartMedia(old(State()), env)
    {
      if sid.None? {
        return Failed(NoSession);
      }
      if media {
        return Done;
      }
      if !env.captureOk {
        return Failed(MediaUnavailable);
      }
      media := true;
      if env.peerNew {
        OnIceCandidates(env.ice);
        if env.offer.None? {
          return Failed(OfferFailed);
        }
        outbound := outbound + [Signal(sid.value, SESSION_OFFER, env.offer.value)];
      }
      QueuePendingIce(sid.value);
      return Done;
    }

    /** What the transport calls, once for each candidate. */
    method OnIceCandidates(ice: seq<string>)
      modifies this`gathered, this`trace
      ensures State() == Gather(old(State()), ice)
    {
      for i := 0 to |ice|
        invariant gathered == old(gathered) + Tagged(sid, ice)[..i] && trace == old(trace)
      {
        gathered := gathered + [Candidate(sid, ice[i])];
      }
      assert Tagged(sid, ice)[..|ice|] == Tagged(sid, ice);
      trace := trace + [Gathered(Tagged(sid, ice))];
    }

    method QueuePendingIce(session: ShortText)
      modifies this`outbound, this`gathered, this`trace
      ensures State() == QueueIce(old(State()), session)
    {
      ghost var signals := IceSignals(session, Payloads(gathered));
      var ice := gathered;
      gathered := [];
      for i := 0 to |ice|
        invariant outbound == old(outbound) + signals[..i] && gathered == [] && trace == old(trace)
      {
        outbound := outbound + [Signal(session, ICE_CANDIDATE, ice[i].payload)];
      }
      assert signals[..|ice|] == signals;
      trace := trace + [Queued(session, ice)];
    }

    method StopMedia()
      modifies this`media
      ensures State() == old(State()).(media := false)
    {
      media := false;
    }

    method ApplyPeerSignal(kind: string, applied: bool, ice: seq<string>) returns (r: Status)
      modifies this`outbound, this`gathered, this`trace
      ensures (State(), r) == ApplySignal(old(State()), kind, applied, ice)
    {
      if kind == SESSION_OFFER || kind == SESSION_ANSWER {
        OnIceCandidates(ice);
        if !applied {
          return Failed(SignalFailed);
        }
        if sid.Some? {
          QueuePendingIce(sid.value);
        }
        return Done;
      }
      if kind == ICE_CANDIDATE {
        OnIceCandidates(ice);
        return if applied then Done else Failed(SignalFailed);
      }
      return Failed(UnsupportedSignal);
    }

    method TakeOutboundSignals() returns (signals: seq<Signal>)
      modifies this`outbound
      ensures signals == old(outbound) && State() == old(State()).(outbound := [])
    {
      signals := outbound;
      outbound := [];
    }
  }
}
