/** What single operations of the session manager promise: when they succeed, and what is then different. */
module ManagerEffects {
  import opened Common
  import opened Transcript
  import opened OtpCodes
  import opened ManagerModel
  import opened ManagerProofs
  import DcJson

  // ---- authorization -----------------------------------------------------------------------

  /** The stored secret authorizes exactly an attached session; it becomes the bind key, and nothing else changes. */
  lemma UnattendedAuthorizesExactlyWhen(m: Manager, secret: Bytes)
    ensures var (n, status) := AuthorizeUnattended(m, secret);
      && (status.Done? <==> m.sid.Some?)
      && (status.Failed? ==> n == m && status.error == NoSession)
      && (status.Done? ==>
            && n.bindKey == Some(secret) && n.identity.authorized
            && n == m.(bindKey := n.bindKey, identity := m.identity.(authorized := true),
                       trace := m.trace + [Authorized]))
  {
  }

  /** So a viewer that has the secret binds after an unattended authorization. */
  lemma HonestUnattendedViewerBinds(w: World, m: Manager, secret: Bytes, nonce: Nonce, fpHost: ShortText,
                                    fpViewer: ShortText)
    requires Inv(m) && m.sid.Some?
    requires forall k, x :: |w.crypto.hmac(k, x)| == 32
    ensures var host := StartChallenge(AuthorizeUnattended(m, secret).0, true, nonce, true).0;
      HandleIdentity(w, host, HonestAnswer(w, secret, m.sid.value, nonce, fpHost, fpViewer)).0.identity.bound
  {
    SameKeyBinds(w, m, secret, nonce, fpHost, fpViewer);
  }

  /** Whatever the authorization, a viewer that answers with another key binds only if HMAC collides. */
  lemma OtherKeyBindsOnlyByCollision(w: World, m: Manager, key: Bytes, other: Bytes, nonce: Nonce, fpHost: ShortText,
                                     fpViewer: ShortText)
    requires Inv(m) && m.sid.Some? && !m.identity.bound && key != other
    requires forall k, x :: |w.crypto.hmac(k, x)| == 32
    ensures var host := StartChallenge(Authorize(m, key), true, nonce, true).0;
      var message := DcBindMessage(m.sid.value, nonce, fpHost, fpViewer);
      var answered := HandleIdentity(w, host, HonestAnswer(w, other, m.sid.value, nonce, fpHost, fpViewer)).0;
      answered.identity.bound <==> w.crypto.hmac(key, message) == w.crypto.hmac(other, message)
  {
    AuthorizeKeepsInv(m, key);
    ChallengeKeepsInv(Authorize(m, key), true, nonce, true);
    var host := StartChallenge(Authorize(m, key), true, nonce, true).0;
    var msg := HonestAnswer(w, other, m.sid.value, nonce, fpHost, fpViewer);
    DcJson.ChallengeRoundTrip(nonce);
    DcJson.ResponseRoundTrip(DcBindMac(w, other, m.sid.value, nonce, fpHost, fpViewer));
    BindsExactlyOnTheRightMac(w, host, msg);
  }

  // ---- the challenge -----------------------------------------------------------------------

  /** A challenge is pending exactly if a session is attached and authorized, the peer is connected and the message
      was sent; otherwise nothing has changed, and the error names the first thing that is missing. */
  lemma ChallengePendsExactlyWhen(m: Manager, connected: bool, nonce: Nonce, sent: bool)
    requires Inv(m)
    ensures var (n, status) := StartChallenge(m, connected, nonce, sent);
      if m.sid.Some? && m.identity.authorized && connected && sent
      then status.Done? && n == m.(pending := Some(nonce), trace := m.trace + [Challenged(nonce)])
      else n == m && status == Failed(if m.sid.None? then NoSession
                                      else if !m.identity.authorized then NotAuthorized
                                      else if !connected then PeerNotConnected
                                      else SendFailed)
  {
  }

  /** A well-formed response takes the pending challenge, right or wrong, and never unbinds; anything else on the
      identity channel changes nothing. */
  lemma ResponseTakesTheChallenge(w: World, m: Manager, msg: Inbound)
    ensures var (n, status) := HandleIdentity(w, m, msg);
      var response := DcJson.Parse(msg.text).Ok? && DcJson.Parse(msg.text).msg.Response?;
      if response && m.pending.Some?
      then n.pending.None? && n.identity == m.identity.(bound := m.identity.bound || status.Done?)
           && n == m.(pending := None, identity := n.identity, trace := n.trace)
      else n == m && status.Failed?
  {
  }

  // ---- batches -----------------------------------------------------------------------------

  /** A batch may be cut anywhere: what the first part leaves the second goes on from, unless the first part ended in
      a failure, and then the rest is lost. */
  lemma {:induction false} PollOfTwoBatches(w: World, m: Manager, first: seq<Inbound>, second: seq<Inbound>)
    ensures var (n, status) := PollInbound(w, m, first);
      PollInbound(w, m, first + second) == if status.Done? then PollInbound(w, n, second) else (n, status)
    decreases |first|
  {
    if first == [] {
      assert first + second == second;
    } else {
      assert (first + second)[1..] == first[1..] + second && (first + second)[0] == first[0];
      if first[0].channel == IDENTITY_CHANNEL {
        var (n, status) := HandleIdentity(w, m, first[0]);
        if status.Done? { PollOfTwoBatches(w, n, first[1..], second); }
      } else if first[0].channel == INPUT_CHANNEL {
        PollOfTwoBatches(w, ProcessInput(w, m, first[0]).0, first[1..], second);
      } else {
        PollOfTwoBatches(w, m, first[1..], second);
      }
    }
  }

  /** A batch of one: identity and input messages go where they belong, others are ignored; only a failed identity
      message is an error. */
  lemma PollOfOne(w: World, m: Manager, msg: Inbound)
    ensures PollInbound(w, m, [msg]) ==
      if msg.channel == IDENTITY_CHANNEL then HandleIdentity(w, m, msg)
      else if msg.channel == INPUT_CHANNEL then (ProcessInput(w, m, msg).0, Done)
      else (m, Done)
  {
    assert [msg][1..] == [] && [msg][0] == msg;
  }

  // ---- input -------------------------------------------------------------------------------

  /** An input message is injected exactly when the gate is open, it decodes and the injector takes it; only then does
      it get into the ring. */
  lemma InjectedExactlyWhen(w: World, m: Manager, msg: Inbound)
    ensures var (n, outcome) := ProcessInput(w, m, msg);
      var decoded := msg.text.Some? && w.decode(msg.text.value).Some?;
      && (outcome.RejectedGate? <==> !InjectionAllowed(m))
      && (outcome.DecodeError? <==> InjectionAllowed(m) && !decoded)
      && (outcome.RateLimited? <==> InjectionAllowed(m) && decoded && msg.injector.Throttled?)
      && (outcome.InjectError? <==> InjectionAllowed(m) && decoded && msg.injector.Refused?)
      && (outcome.Injected? <==> InjectionAllowed(m) && decoded && msg.injector.Taken?)
      && (outcome.Injected? ==> n.accepted != [] && n.accepted[|n.accepted| - 1] == w.decode(msg.text.value).value)
      && (!outcome.Injected? ==> n.accepted == m.accepted)
  {
  }

  // ---- media and signals -------------------------------------------------------------------

  /** Media come up exactly if a session is attached and they are up already or capture opens and a due offer can be
      made.  A new start queues the offer, if due, and every candidate handed over so far.  When the offer fails the
      plane stays up and the candidates are kept; any other failure changes nothing. */
  lemma MediaStartExactlyWhen(m: Manager, env: MediaEnv)
    ensures var (n, status) := StartMedia(m, env);
      && (status.Done? <==> m.sid.Some? && (m.media || MediaReady(env)))
      && (status.Done? && m.media ==> n == m)
      && (status.Done? && !m.media ==>
            var waiting := m.gathered + if env.peerNew then Tagged(m.sid, env.ice) else [];
            var offers := if env.peerNew then [Signal(m.sid.value, SESSION_OFFER, env.offer.value)] else [];
            && n.media && n.gathered == []
            && n.outbound == m.outbound + offers + IceSignals(m.sid.value, Payloads(waiting)))
      && (status.Failed? && (m.sid.None? || !env.captureOk) ==> n == m)
      && (status.Failed? && m.sid.Some? && env.captureOk ==>
            && status.error == OfferFailed && n.media && n.outbound == m.outbound
            && n == m.(media := true, gathered := m.gathered + Tagged(m.sid, env.ice), trace := n.trace))
  {
    if m.sid.Some? && !m.media && MediaReady(env) && !env.peerNew {
      assert m.gathered + [] == m.gathered && m.outbound + [] == m.outbound;
    }
  }

  /** A signal is applied exactly if the transport applies it and it is a description or a candidate; an applied
      description for an attached session queues every candidate handed over so far, anything else queues nothing and
      only keeps what was handed over meanwhile. */
  lemma SignalAppliesExactlyWhen(m: Manager, kind: string, applied: bool, ice: seq<string>)
    ensures var (n, status) := ApplySignal(m, kind, applied, ice);
      var description := kind == SESSION_OFFER || kind == SESSION_ANSWER;
      && (status.Done? <==> applied && (description || kind == ICE_CANDIDATE))
      && (status.Done? && description && m.sid.Some? ==>
            && n.gathered == []
            && n.outbound == m.outbound + IceSignals(m.sid.value, Payloads(m.gathered + Tagged(m.sid, ice))))
      && (!description && kind != ICE_CANDIDATE ==> n == m)
      && ((description && (status.Failed? || m.sid.None?)) || kind == ICE_CANDIDATE ==>
            n == m.(gathered := m.gathered + Tagged(m.sid, ice), trace := n.trace))
  {
  }
}
