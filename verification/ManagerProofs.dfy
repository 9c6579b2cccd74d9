/** What every method of the session manager keeps, and what that says about input. */
module ManagerProofs {
  import opened Common
  import opened Transcript
  import opened OtpCodes
  import opened ManagerModel
  import DcJson

  ghost predicate Inv(m: Manager) {
    && m.sid == CurrentSession(m.trace)
    && m.pending == Outstanding(m.trace)
    && m.gathered == Waiting(m.trace)
    && (m.sid.Some? ==> m.identity.session == m.sid.value)
    && (m.identity.authorized <==> m.bindKey.Some?)
    && (m.media ==> m.sid.Some?)
    && m.accepted == LastN(InjectedSince(m.trace), ACCEPTED_INPUT_CAP)
    && Backed(m)
    && GoodTrace(m.trace)
  }

  /** Every flag has the events behind it that should have set it, all of them in the present session. */
  ghost predicate Backed(m: Manager) {
    && (m.sid.Some? && m.identity.authorized ==> Authorized in Since(m.trace))
    && (m.pending.Some? ==> m.sid.Some? && m.identity.authorized && ChallengedIn(Since(m.trace), m.pending.value))
    && (m.identity.bound ==> m.sid.Some? && m.identity.authorized && BoundIn(Since(m.trace)))
    && (m.policyEnabled ==> PolicyOn(Since(m.trace)))
  }

  // ---- appending one event -----------------------------------------------------------------

  lemma AppendInOrder(h: seq<Event>, e: Event)
    requires GoodTrace(h) && InOrder(h, e)
    ensures GoodTrace(h + [e])
  {
    forall i | 0 <= i < |h| + 1 ensures InOrder((h + [e])[..i], (h + [e])[i]) {
      assert (h + [e])[..i] == h[..i];
    }
  }

  lemma AppendSince(h: seq<Event>, e: Event)
    ensures Since(h + [e]) == if IsBoundary(e) then [] else Since(h) + [e]
    ensures CurrentSession(h + [e])
      == if e.Attached? then Some(e.sid) else if IsBoundary(e) then None else CurrentSession(h)
    ensures Outstanding(h + [e])
      == if e.Challenged? then Some(e.nonce) else if IsBoundary(e) || e.Responded? then None else Outstanding(h)
    ensures PolicyOn(h + [e]) == if e.PolicySet? then e.enabled else PolicyOn(h)
    ensures InjectedSince(h + [e])
      == if e.Attached? || e.Detached? || e.Drained? then []
         else if e.Reached? && e.injector.Taken? then InjectedSince(h) + [e.input]
         else InjectedSince(h)
    ensures Waiting(h + [e])
      == if e.Gathered? then Waiting(h) + e.ice else if e.Queued? then [] else Waiting(h)
  {
    var l := h + [e];
    assert l[..|l| - 1] == h;
  }

  lemma AppendKeeps(s: seq<Event>, e: Event)
    ensures forall nonce :: ChallengedIn(s, nonce) ==> ChallengedIn(s + [e], nonce)
    ensures BoundIn(s) ==> BoundIn(s + [e])
    ensures Authorized in s ==> Authorized in s + [e]
  {
    forall nonce | ChallengedIn(s, nonce) ensures ChallengedIn(s + [e], nonce) {
      var c :| 0 <= c < |s| && s[c] == Challenged(nonce) && Authorized in s[..c];
      assert (s + [e])[..c] == s[..c] && (s + [e])[c] == s[c];
    }
    if BoundIn(s) {
      var r :| 0 <= r < |s| && s[r].Responded? && s[r].verified && ChallengedIn(s[..r], s[r].nonce);
      assert (s + [e])[..r] == s[..r] && (s + [e])[r] == s[r];
    }
  }

  /** The facts behind the flags survive any event that ends no session. */
  lemma NoteKeepsBacked(m: Manager, e: Event)
    requires Backed(m) && !IsBoundary(e) && (e.PolicySet? ==> e.enabled || !m.policyEnabled)
    ensures Backed(Note(m, e))
  {
    AppendSince(m.trace, e);
    AppendSince(Since(m.trace), e);
    AppendKeeps(Since(m.trace), e);
  }

  lemma NoteKeepsInv(m: Manager, e: Event)
    requires Inv(m) && !IsBoundary(e) && InOrder(m.trace, e)
    requires !e.Challenged? && !e.Responded? && !e.Drained? && !(e.Reached? && e.injector.Taken?)
    requires !e.Gathered? && !e.Queued?
    requires e.PolicySet? ==> e.enabled || !m.policyEnabled
    ensures Inv(Note(m, e))
  {
    AppendSince(m.trace, e);
    AppendInOrder(m.trace, e);
    NoteKeepsBacked(m, e);
  }

  // ---- every operation ---------------------------------------------------------------------

  lemma AttachKeepsInv(m: Manager, sid: ShortText)
    requires Inv(m)
    ensures Inv(Attach(m, sid))
  {
    AppendSince(m.trace, Attached(sid));
    AppendInOrder(m.trace, Attached(sid));
  }

  lemma DetachKeepsInv(m: Manager)
    requires Inv(m)
    ensures Inv(Detach(m)) && Inv(Note(Detach(m), Killed))
  {
    AppendSince(m.trace, Detached);
    AppendInOrder(m.trace, Detached);
    AppendSince(m.trace + [Detached], Killed);
    AppendInOrder(m.trace + [Detached], Killed);
  }

  lemma AuthorizeKeepsInv(m: Manager, key: Bytes)
    requires Inv(m)
    ensures Inv(Authorize(m, key))
  {
    AppendSince(m.trace, Authorized);
    AppendInOrder(m.trace, Authorized);
    NoteKeepsBacked(m, Authorized);
  }

  lemma ChallengeKeepsInv(m: Manager, connected: bool, nonce: Nonce, sent: bool)
    requires Inv(m)
    ensures Inv(StartChallenge(m, connected, nonce, sent).0)
  {
    if StartChallenge(m, connected, nonce, sent).1.Done? {
      var e := Challenged(nonce);
      var s := Since(m.trace);
      AppendSince(m.trace, e);
      AppendInOrder(m.trace, e);
      NoteKeepsBacked(m, e);
      assert (s + [e])[..|s|] == s && (s + [e])[|s|] == e;
    }
  }

  lemma RespondKeepsInv(m: Manager, verified: bool)
    requires Inv(m) && m.pending.Some?
    ensures var identity := if verified then m.identity.(bound := true) else m.identity;
      Inv(Note(m.(pending := None, identity := identity), Responded(m.pending.value, verified)))
  {
    var e := Responded(m.pending.value, verified);
    var s := Since(m.trace);
    AppendSince(m.trace, e);
    AppendInOrder(m.trace, e);
    NoteKeepsBacked(m, e);
    if verified {
      assert (s + [e])[..|s|] == s && (s + [e])[|s|] == e;
      assert BoundIn(s + [e]);
    }
  }

  lemma IdentityKeepsInv(w: World, m: Manager, msg: Inbound)
    requires Inv(m)
    ensures Inv(HandleIdentity(w, m, msg).0)
  {
    if DcJson.Parse(msg.text).Ok? && DcJson.Parse(msg.text).msg.Response? && m.pending.Some? {
      RespondKeepsInv(m, CheckResponse(w, m, m.pending.value, DcJson.Parse(msg.text).msg.mac, msg).Done?);
    }
  }

  /** The ring holds the last 64. */
  lemma RingHoldsTheLast(s: seq<InputEvent>, e: InputEvent)
    ensures PushRing(LastN(s, ACCEPTED_INPUT_CAP), e) == LastN(s + [e], ACCEPTED_INPUT_CAP)
  {
  }

  lemma ReachedKeepsInv(m: Manager, input: InputEvent, injector: Injection)
    requires Inv(m) && InjectionAllowed(m)
    ensures Inv(Note(m.(accepted := if injector.Taken? then PushRing(m.accepted, input) else m.accepted),
                     Reached(input, injector)))
  {
    var e := Reached(input, injector);
    assert Justified(m.trace);
    AppendSince(m.trace, e);
    AppendInOrder(m.trace, e);
    NoteKeepsBacked(m, e);
    RingHoldsTheLast(InjectedSince(m.trace), input);
  }

  /** The counters play no part. */
  lemma CountersAreFree(m: Manager, rejected: u64, decodeErrors: u64, rateLimited: u64)
    requires Inv(m)
    ensures Inv(m.(rejected := rejected, decodeErrors := decodeErrors, rateLimited := rateLimited))
  {
  }

  lemma InputKeepsInv(w: World, m: Manager, msg: Inbound)
    requires Inv(m)
    ensures Inv(ProcessInput(w, m, msg).0)
  {
    var n := ProcessInput(w, m, msg).0;
    if InjectionAllowed(m) && msg.text.Some? && w.decode(msg.text.value).Some? {
      var e := w.decode(msg.text.value).value;
      ReachedKeepsInv(m, e, msg.injector);
      var k := Note(m.(accepted := if msg.injector.Taken? then PushRing(m.accepted, e) else m.accepted),
                    Reached(e, msg.injector));
      CountersAreFree(k, n.rejected, n.decodeErrors, n.rateLimited);
      assert n == k.(rejected := n.rejected, decodeErrors := n.decodeErrors, rateLimited := n.rateLimited);
    } else {
      DroppedKeepsInv(m, InjectionAllowed(m), n.rejected, n.decodeErrors);
    }
  }

  lemma DroppedKeepsInv(m: Manager, undecodable: bool, rejected: u64, decodeErrors: u64)
    requires Inv(m)
    ensures Inv(Note(m.(rejected := rejected, decodeErrors := decodeErrors), Dropped(undecodable)))
  {
    CountersAreFree(m, rejected, decodeErrors, m.rateLimited);
    NoteKeepsInv(m.(rejected := rejected, decodeErrors := decodeErrors), Dropped(undecodable));
  }

  lemma {:induction false} PollKeepsInv(w: World, m: Manager, msgs: seq<Inbound>)
    requires Inv(m)
    ensures Inv(PollInbound(w, m, msgs).0)
    decreases |msgs|
  {
    if msgs != [] {
      if msgs[0].channel == IDENTITY_CHANNEL {
        IdentityKeepsInv(w, m, msgs[0]);
        PollKeepsInv(w, HandleIdentity(w, m, msgs[0]).0, msgs[1..]);
      } else if msgs[0].channel == INPUT_CHANNEL {
        InputKeepsInv(w, m, msgs[0]);
        PollKeepsInv(w, ProcessInput(w, m, msgs[0]).0, msgs[1..]);
      } else {
        PollKeepsInv(w, m, msgs[1..]);
      }
    }
  }

  lemma TakeAcceptedKeepsInv(m: Manager)
    requires Inv(m)
    ensures Inv(TakeAccepted(m))
  {
    AppendSince(m.trace, Drained);
    AppendInOrder(m.trace, Drained);
    NoteKeepsBacked(m, Drained);
  }

  // ---- candidates --------------------------------------------------------------------------

  lemma GatherKeepsInv(m: Manager, ice: seq<string>)
    requires Inv(m)
    ensures Inv(Gather(m, ice))
  {
    var e := Gathered(Tagged(m.sid, ice));
    AppendSince(m.trace, e);
    AppendInOrder(m.trace, e);
    NoteKeepsBacked(m, e);
  }

  lemma QueueKeepsInv(m: Manager, sid: ShortText)
    requires Inv(m) && m.sid == Some(sid)
    ensures Inv(QueueIce(m, sid))
  {
    var e := Queued(sid, m.gathered);
    AppendSince(m.trace, e);
    AppendInOrder(m.trace, e);
    NoteKeepsBacked(m, e);
  }

  // ---- reading a good trace ----------------------------------------------------------------

  /** A response is to the one outstanding challenge: since that was issued there has been no other
      challenge, no other response and no attach, detach or kill.  So no challenge is answered twice. */
  lemma {:induction false} OutstandingIsUnanswered(h: seq<Event>, nonce: Nonce) returns (c: nat)
    requires Outstanding(h) == Some(nonce)
    ensures c < |h| && h[c] == Challenged(nonce)
    ensures forall i :: c < i < |h| ==> !h[i].Challenged? && !h[i].Responded? && !IsBoundary(h[i])
  {
    if h[|h| - 1].Challenged? {
      c := |h| - 1;
    } else {
      c := OutstandingIsUnanswered(h[..|h| - 1], nonce);
    }
  }

  ghost predicate Answers(h: seq<Event>, c: nat, r: nat) {
    && c < r < |h| && h[r].Responded? && h[c] == Challenged(h[r].nonce)
    && forall i :: c < i < r ==> !h[i].Challenged? && !h[i].Responded? && !IsBoundary(h[i])
  }

  lemma ResponseAnswers(h: seq<Event>, r: nat) returns (c: nat)
    requires GoodTrace(h) && r < |h| && h[r].Responded?
    ensures Answers(h, c, r)
  {
    assert InOrder(h[..r], h[r]);
    c := OutstandingIsUnanswered(h[..r], h[r].nonce);
    forall i | c < i < r ensures !h[i].Challenged? && !h[i].Responded? && !IsBoundary(h[i]) {
      assert h[..r][i] == h[i];
    }
  }

  /** Two responses never share a challenge: between them there is another one, which the later answers. */
  lemma NewChallengeForEachResponse(h: seq<Event>, r1: nat, r2: nat) returns (c: nat)
    requires GoodTrace(h) && r1 < r2 < |h| && h[r1].Responded? && h[r2].Responded?
    ensures r1 < c < r2 && Answers(h, c, r2)
  {
    c := ResponseAnswers(h, r2);
  }

  // ---- binding -----------------------------------------------------------------------------

  /** Exactly when a message binds the identity: it is a well-formed response, a challenge is pending, both
      fingerprints are known, and the MAC is the one the bind key gives for this session, this nonce and these
      fingerprints. */
  lemma BindsExactlyOnTheRightMac(w: World, m: Manager, msg: Inbound)
    requires Inv(m) && !m.identity.bound
    ensures HandleIdentity(w, m, msg).0.identity.bound <==>
      && DcJson.Parse(msg.text).Ok? && DcJson.Parse(msg.text).msg.Response?
      && m.pending.Some? && msg.fpHost.Some? && msg.fpViewer.Some?
      && m.sid.Some? && m.bindKey.Some?
      && DcJson.Parse(msg.text).msg.mac
           == DcBindMac(w, m.bindKey.value, m.sid.value, m.pending.value, msg.fpHost.value, msg.fpViewer.value)
    ensures HandleIdentity(w, m, msg).1.Done? <==> HandleIdentity(w, m, msg).0.identity.bound
  {
  }

  /** Viewer side: answer the challenge text that arrived, with the key both ends should have. */
  function ViewerAnswer(w: World, key: Bytes, sid: ShortText, challenge: string, fpHost: ShortText, fpViewer: ShortText)
    : Option<string>
  {
    match DcJson.Parse(Some(challenge))
    case Ok(Challenge(nonce)) =>
      if |nonce| == 32
      then Some(DcJson.Encode(DcJson.Response(DcBindMac(w, key, sid, nonce, fpHost, fpViewer))))
      else None
    case _ => None
  }

  /** The answer as it arrives at the host. */
  function HonestAnswer(w: World, key: Bytes, sid: ShortText, nonce: Nonce, fpHost: ShortText,
                        fpViewer: ShortText): Inbound {
    Inbound(IDENTITY_CHANNEL,
            ViewerAnswer(w, key, sid, DcJson.Encode(DcJson.Challenge(nonce)), fpHost, fpViewer),
            Some(fpHost), Some(fpViewer), Taken)
  }

  /** The whole handshake.  A host authorized with a key sends its challenge; a viewer with the same key, which sees
      the same session and fingerprints, answers; the host is bound. */
  lemma SameKeyBinds(w: World, m: Manager, key: Bytes, nonce: Nonce, fpHost: ShortText, fpViewer: ShortText)
    requires Inv(m) && m.sid.Some?
    requires forall k, x :: |w.crypto.hmac(k, x)| == 32
    ensures var host := StartChallenge(Authorize(m, key), true, nonce, true).0;
      var answer := HonestAnswer(w, key, m.sid.value, nonce, fpHost, fpViewer);
      HandleIdentity(w, host, answer).1.Done? && InputAllowed(HandleIdentity(w, host, answer).0)
  {
    DcJson.ChallengeRoundTrip(nonce);
    DcJson.ResponseRoundTrip(DcBindMac(w, key, m.sid.value, nonce, fpHost, fpViewer));
  }

  /** Mode A: the viewer has typed the code the host was authorized with. */
  lemma HonestViewerBinds(w: World, m: Manager, code: string, nonce: Nonce, fpHost: ShortText, fpViewer: ShortText)
    requires Inv(m) && m.sid.Some? && ModeABindKey(w.crypto, code).Ok?
    requires forall k, x :: |w.crypto.hmac(k, x)| == 32
    ensures var key := ModeABindKey(w.crypto, code).value;
      var host := StartChallenge(Authorize(m, key), true, nonce, true).0;
      HandleIdentity(w, host, HonestAnswer(w, key, m.sid.value, nonce, fpHost, fpViewer)).0.identity.bound
  {
    SameKeyBinds(w, m, ModeABindKey(w.crypto, code).value, nonce, fpHost, fpViewer);
  }

  // ---- Mode B ------------------------------------------------------------------------------

  /** What a Mode B viewer sends before the media connection is up: a MAC under the shared secret over the session, the
      host's nonce and whatever fingerprints are known by then. */
  function ModeBAnswer(w: World, secret: Bytes, sid: ShortText, nonce: ShortBytes, fpHost: ShortBytes,
                       fpViewer: ShortBytes): Bytes {
    ModeBMac(w, secret, sid, nonce, fpHost, fpViewer)
  }

  /** Mode B end to end: a viewer with the host's secret is authorized by its answer and then bound by the challenge. */
  lemma HonestModeBViewerBinds(w: World, m: Manager, secret: Bytes, authNonce: ShortBytes,
                               fpHost0: ShortBytes, fpViewer0: ShortBytes,
                               nonce: Nonce, fpHost: ShortText, fpViewer: ShortText)
    requires Inv(m) && m.sid.Some?
    requires forall k, x :: |w.crypto.hmac(k, x)| == 32
    ensures var mac := ModeBAnswer(w, secret, m.sid.value, authNonce, fpHost0, fpViewer0);
      var (authorized, status) := AuthorizeModeB(w, m, secret, authNonce, fpHost0, fpViewer0, mac);
      var host := StartChallenge(authorized, true, nonce, true).0;
      && status.Done?
      && HandleIdentity(w, host, HonestAnswer(w, secret, m.sid.value, nonce, fpHost, fpViewer)).0.identity.bound
  {
    SameKeyBinds(w, m, secret, nonce, fpHost, fpViewer);
  }

  /** And a Mode B answer made for another session, nonce or pair of fingerprints, or under another secret, is accepted
      only where HMAC gives two different inputs one output. */
  lemma ModeBAnswerIsForOneSession(w: World, m: Manager, secret: Bytes, nonce: ShortBytes,
                                   fpHost: ShortBytes, fpViewer: ShortBytes,
                                   secret2: Bytes, sid2: ShortText, nonce2: ShortBytes,
                                   fpHost2: ShortBytes, fpViewer2: ShortBytes)
    requires m.sid.Some?
    ensures var mac := ModeBAnswer(w, secret2, sid2, nonce2, fpHost2, fpViewer2);
      var mine := ModeBMessage(m.sid.value, nonce, fpHost, fpViewer);
      var theirs := ModeBMessage(sid2, nonce2, fpHost2, fpViewer2);
      AuthorizeModeB(w, m, secret, nonce, fpHost, fpViewer, mac).1.Done? <==>
        || (secret == secret2 && m.sid.value == sid2 && nonce == nonce2 && fpHost == fpHost2 && fpViewer == fpViewer2)
        || ((secret, mine) != (secret2, theirs) && w.crypto.hmac(secret, mine) == w.crypto.hmac(secret2, theirs))
  {
    ModeBMessageInjective(m.sid.value, nonce, fpHost, fpViewer, sid2, nonce2, fpHost2, fpViewer2);
  }

  // ---- the counters ------------------------------------------------------------------------

  function Cap(n: nat): u64 {
    if n > U64_MAX then U64_MAX else n
  }

  /** The counters are what the events of the session add up to, capped. */
  ghost predicate CountsAre(s: seq<Event>, rejected: u64, decodeErrors: u64, rateLimited: u64) {
    && rejected == Cap(Count(s, RejectedGate) + Count(s, InjectError))
    && decodeErrors == Cap(Count(s, DecodeError))
    && rateLimited == Cap(Count(s, RateLimited))
  }

  ghost predicate Counted(m: Manager) {
    CountsAre(Since(m.trace), m.rejected, m.decodeErrors, m.rateLimited)
  }

  lemma AppendCount(s: seq<Event>, e: Event, o: Outcome)
    ensures Count(s + [e], o) == Count(s, o) + if OutcomeOf(e) == Some(o) then 1 else 0
    ensures Inputs(s + [e]) == Inputs(s) + if OutcomeOf(e).Some? then 1 else 0
  {
    assert (s + [e])[..|s|] == s;
  }

  function Bump(n: u64, now: bool): u64 {
    if now then SatSucc(n) else n
  }

  /** One event moves at most the counter of its outcome. */
  lemma OneMoreEvent(s: seq<Event>, e: Event, rejected: u64, decodeErrors: u64, rateLimited: u64)
    requires CountsAre(s, rejected, decodeErrors, rateLimited)
    ensures var o := OutcomeOf(e);
      CountsAre(s + [e], Bump(rejected, o == Some(RejectedGate) || o == Some(InjectError)),
                Bump(decodeErrors, o == Some(DecodeError)), Bump(rateLimited, o == Some(RateLimited)))
    ensures Inputs(s + [e]) == Inputs(s) + if OutcomeOf(e).Some? then 1 else 0
  {
    AppendCount(s, e, RejectedGate);
    AppendCount(s, e, InjectError);
    AppendCount(s, e, DecodeError);
    AppendCount(s, e, RateLimited);
  }

  /** An event that is not about input leaves the counters right. */
  lemma QuietKeepsCounts(h: seq<Event>, e: Event, rejected: u64, decodeErrors: u64, rateLimited: u64)
    requires CountsAre(Since(h), rejected, decodeErrors, rateLimited) && OutcomeOf(e).None? && !IsBoundary(e)
    ensures CountsAre(Since(h + [e]), rejected, decodeErrors, rateLimited)
    ensures Inputs(Since(h + [e])) == Inputs(Since(h))
  {
    AppendSince(h, e);
    OneMoreEvent(Since(h), e, rejected, decodeErrors, rateLimited);
  }

  lemma BoundaryIsCounted(m: Manager, trace: seq<Event>, e: Event)
    requires IsBoundary(e) && m.trace == trace + [e] && m.rejected == m.decodeErrors == m.rateLimited == 0
    ensures Counted(m)
  {
    AppendSince(trace, e);
  }

  lemma InputKeepsCounted(w: World, m: Manager, msg: Inbound)
    requires Counted(m)
    ensures Counted(ProcessInput(w, m, msg).0)
    ensures Inputs(Since(ProcessInput(w, m, msg).0.trace)) == Inputs(Since(m.trace)) + 1
  {
    var e := InputEventOf(w, m, msg);
    InputMovesItsCounter(w, m, msg);
    AppendSince(m.trace, e);
    OneMoreEvent(Since(m.trace), e, m.rejected, m.decodeErrors, m.rateLimited);
  }

  lemma InputMovesItsCounter(w: World, m: Manager, msg: Inbound)
    ensures var n := ProcessInput(w, m, msg).0;
      var o := OutcomeOf(InputEventOf(w, m, msg));
      && n.trace == m.trace + [InputEventOf(w, m, msg)] && o.Some?
      && n.rejected == Bump(m.rejected, o == Some(RejectedGate) || o == Some(InjectError))
      && n.decodeErrors == Bump(m.decodeErrors, o == Some(DecodeError))
      && n.rateLimited == Bump(m.rateLimited, o == Some(RateLimited))
  {
  }

  /** The one event an input message leaves. */
  function InputEventOf(w: World, m: Manager, msg: Inbound): Event {
    if !InjectionAllowed(m) then Dropped(false)
    else if msg.text.None? || w.decode(msg.text.value).None? then Dropped(true)
    else Reached(w.decode(msg.text.value).value, msg.injector)
  }

  lemma IdentityKeepsCounted(w: World, m: Manager, msg: Inbound)
    requires Counted(m)
    ensures Counted(HandleIdentity(w, m, msg).0)
    ensures Inputs(Since(HandleIdentity(w, m, msg).0.trace)) == Inputs(Since(m.trace))
  {
    if DcJson.Parse(msg.text).Ok? && DcJson.Parse(msg.text).msg.Response? && m.pending.Some? {
      var nonce := m.pending.value;
      var e := Responded(nonce, CheckResponse(w, m, nonce, DcJson.Parse(msg.text).msg.mac, msg).Done?);
      ResponseKeepsCounted(m, HandleIdentity(w, m, msg).0, e);
    }
  }

  lemma ResponseKeepsCounted(m: Manager, n: Manager, e: Event)
    requires Counted(m) && e.Responded?
    requires n == Note(m.(pending := None, identity := n.identity), e)
    ensures Counted(n) && Inputs(Since(n.trace)) == Inputs(Since(m.trace))
  {
    QuietKeepsCounts(m.trace, e, m.rejected, m.decodeErrors, m.rateLimited);
  }

  function InputMessages(msgs: seq<Inbound>): nat {
    if msgs == [] then 0 else (if msgs[0].channel == INPUT_CHANNEL then 1 else 0) + InputMessages(msgs[1..])
  }

  /** A batch that goes through counts every input message in it, once. */
  lemma {:induction false} PollKeepsCounted(w: World, m: Manager, msgs: seq<Inbound>)
    requires Counted(m)
    ensures Counted(PollInbound(w, m, msgs).0)
    ensures PollInbound(w, m, msgs).1.Done? ==>
      Inputs(Since(PollInbound(w, m, msgs).0.trace)) == Inputs(Since(m.trace)) + InputMessages(msgs)
    decreases |msgs|
  {
    if msgs != [] {
      assert |IDENTITY_CHANNEL| != |INPUT_CHANNEL|;
      if msgs[0].channel == IDENTITY_CHANNEL {
        IdentityKeepsCounted(w, m, msgs[0]);
        PollKeepsCounted(w, HandleIdentity(w, m, msgs[0]).0, msgs[1..]);
      } else if msgs[0].channel == INPUT_CHANNEL {
        InputKeepsCounted(w, m, msgs[0]);
        PollKeepsCounted(w, ProcessInput(w, m, msgs[0]).0, msgs[1..]);
      } else {
        PollKeepsCounted(w, m, msgs[1..]);
      }
    }
  }

  /** Every input message has exactly one outcome. */
  lemma {:induction false} OutcomesAddUp(s: seq<Event>)
    ensures Inputs(s) == Count(s, Injected) + Count(s, RejectedGate) + Count(s, DecodeError)
      + Count(s, RateLimited) + Count(s, InjectError)
  {
    if s != [] { OutcomesAddUp(s[..|s| - 1]); }
  }
}
