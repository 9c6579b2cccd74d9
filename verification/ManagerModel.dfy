/** The agent's session manager (apps/host/src/session.rs): its state, what each method does to it, and the
    trace of what happened.  What the transport, the capture backends and the injector answer comes in with
    each call. */
module ManagerModel {
  import opened Common
  import opened Transcript
  import opened OtpCodes
  import DcJson

  const ACCEPTED_INPUT_CAP := 64
  const IDENTITY_CHANNEL := "identity"
  const INPUT_CHANNEL := "input"
  const SESSION_OFFER := "session_offer"
  const SESSION_ANSWER := "session_answer"
  const ICE_CANDIDATE := "ice_candidate"

  /** Session ids and fingerprints, as the UTF-8 bytes that go into a transcript. */
  type ShortText = ShortBytes

  type Nonce = b: Bytes | |b| == 32 witness seq(32, _ => 0)

  /** A decoded input event; only its identity matters here. */
  datatype InputEvent = InputEvent(wire: string)

  datatype World = World(crypto: Primitives, decode: string -> Option<InputEvent>)

  datatype Signal = Signal(sid: ShortText, kind: string, payload: string)

  /** What the injector says: done, dropped by the rate limit, or failed. */
  datatype Injection = Taken | Throttled | Refused

  datatype Outcome = Injected | RejectedGate | DecodeError | RateLimited | InjectError

  datatype Inbound = Inbound(
    channel: string,
    text: Option<string>,
    fpHost: Option<ShortText>,
    fpViewer: Option<ShortText>,
    injector: Injection)

  /** A local ICE candidate waiting to be queued, and the session that was attached when the transport handed it
      over.  The program keeps the payload only. */
  datatype Candidate = Candidate(session: Option<ShortText>, payload: string)

  /** What start_media finds: capture and encoder opened, a peer without an offer yet, the offer it then
      makes (None when any step of making it fails), and the ICE candidates the transport hands over meanwhile. */
  datatype MediaEnv = MediaEnv(captureOk: bool, peerNew: bool, offer: Option<string>, ice: seq<string>)

  datatype SessionError =
    | NoSession | NotAuthorized | NoBindKey | PeerNotConnected | SendFailed
    | BadIdentityMessage | UnexpectedChallenge | NoPendingChallenge | FingerprintUnknown | MacMismatch
    | BadModeBMac | MediaUnavailable | OfferFailed | SignalFailed | UnsupportedSignal

  datatype Status = Done | Failed(error: SessionError)

  datatype Identity = Identity(session: ShortText, authorized: bool, bound: bool)

  datatype Event =
    | Attached(sid: ShortText)
    | Detached
    | Killed
    | PolicySet(enabled: bool)
    | Authorized
    | Challenged(nonce: Nonce)
    | Responded(nonce: Nonce, verified: bool)
    | Dropped(undecodable: bool)
    | Reached(input: InputEvent, injector: Injection)
    | Drained
    | Gathered(ice: seq<Candidate>)
    | Queued(session: ShortText, ice: seq<Candidate>)

  datatype Manager = Manager(
    sid: Option<ShortText>,
    media: bool,
    outbound: seq<Signal>,
    gathered: seq<Candidate>,
    identity: Identity,
    bindKey: Option<Bytes>,
    pending: Option<Nonce>,
    accepted: seq<InputEvent>,
    rejected: u64,
    decodeErrors: u64,
    rateLimited: u64,
    policyEnabled: bool,
    trace: seq<Event>)

  /** A manager without a session.  The candidates of its transport stay. */
  function Fresh(gathered: seq<Candidate>, trace: seq<Event>): Manager {
    Manager(None, false, [], gathered, Identity([], false, false), None, None, [], 0, 0, 0, false, trace)
  }

  function Note(m: Manager, e: Event): Manager {
    m.(trace := m.trace + [e])
  }

  predicate InputAllowed(m: Manager) {
    m.identity.bound && m.identity.authorized
  }

  predicate InjectionAllowed(m: Manager) {
    m.policyEnabled && InputAllowed(m)
  }

  // ---- session and authorization -----------------------------------------------------------

  function Attach(m: Manager, sid: ShortText): Manager {
    Fresh(m.gathered, m.trace + [Attached(sid)]).(sid := Some(sid), identity := Identity(sid, false, false))
  }

  function Detach(m: Manager): Manager {
    Fresh(m.gathered, m.trace + [Detached])
  }

  function Authorize(m: Manager, key: Bytes): Manager {
    Note(m.(bindKey := Some(key), identity := m.identity.(authorized := true)), Authorized)
  }

  function ModeBMac(w: World, secret: Bytes, sid: ShortBytes, nonce: ShortBytes, fpHost: ShortBytes,
                    fpViewer: ShortBytes): Bytes {
    w.crypto.hmac(secret, ModeBMessage(sid, nonce, fpHost, fpViewer))
  }

  function AuthorizeModeB(w: World, m: Manager, secret: Bytes, nonce: ShortBytes, fpHost: ShortBytes,
                          fpViewer: ShortBytes, mac: Bytes): (Manager, Status) {
    if m.sid.None? then (m, Failed(NoSession))
    else if mac != ModeBMac(w, secret, m.sid.value, nonce, fpHost, fpViewer) then (m, Failed(BadModeBMac))
    else (Authorize(m, secret), Done)
  }

  function AuthorizeUnattended(m: Manager, secret: Bytes): (Manager, Status) {
    if m.sid.None? then (m, Failed(NoSession)) else (Authorize(m, secret), Done)
  }

  // ---- the identity challenge --------------------------------------------------------------

  function StartChallenge(m: Manager, connected: bool, nonce: Nonce, sent: bool): (Manager, Status) {
    if m.sid.None? then (m, Failed(NoSession))
    else if !m.identity.authorized then (m, Failed(NotAuthorized))
    else if m.bindKey.None? then (m, Failed(NoBindKey))
    else if !connected then (m, Failed(PeerNotConnected))
    else if !sent then (m, Failed(SendFailed))
    else (Note(m.(pending := Some(nonce)), Challenged(nonce)), Done)
  }

  function DcBindMac(w: World, key: Bytes, sid: ShortText, nonce: Nonce, fpHost: ShortText,
                     fpViewer: ShortText): Bytes {
    w.crypto.hmac(key, DcBindMessage(sid, nonce, fpHost, fpViewer))
  }

  /** The check of a response, once the challenge it answers has been taken. */
  function CheckResponse(w: World, m: Manager, nonce: Nonce, mac: Bytes, msg: Inbound): Status {
    if m.bindKey.None? then Failed(NoBindKey)
    else if msg.fpHost.None? || msg.fpViewer.None? then Failed(FingerprintUnknown)
    else if mac != DcBindMac(w, m.bindKey.value, m.identity.session, nonce, msg.fpHost.value, msg.fpViewer.value) then
      Failed(MacMismatch)
    else Done
  }

  /** The pending challenge is gone as soon as a response arrives, whatever becomes of the response. */
  function HandleIdentity(w: World, m: Manager, msg: Inbound): (Manager, Status) {
    match DcJson.Parse(msg.text)
    case Err(_) => (m, Failed(BadIdentityMessage))
    case Ok(Challenge(_)) => (m, Failed(UnexpectedChallenge))
    case Ok(Response(mac)) =>
      if m.pending.None? then (m, Failed(NoPendingChallenge))
      else
        var status := CheckResponse(w, m, m.pending.value, mac, msg);
        var identity := if status.Done? then m.identity.(bound := true) else m.identity;
        (Note(m.(pending := None, identity := identity), Responded(m.pending.value, status.Done?)), status)
  }

  // ---- input -------------------------------------------------------------------------------

  /** Drop from the front so that one more fits. */
  function PushRing(ring: seq<InputEvent>, e: InputEvent): seq<InputEvent> {
    (if |ring| >= ACCEPTED_INPUT_CAP then ring[|ring| + 1 - ACCEPTED_INPUT_CAP..] else ring) + [e]
  }

  function ProcessInput(w: World, m: Manager, msg: Inbound): (Manager, Outcome) {
    if !InjectionAllowed(m) then (Note(m.(rejected := SatSucc(m.rejected)), Dropped(false)), RejectedGate)
    else if msg.text.None? || w.decode(msg.text.value).None? then
      (Note(m.(decodeErrors := SatSucc(m.decodeErrors)), Dropped(true)), DecodeError)
    else
      var e := w.decode(msg.text.value).value;
      var n := Note(m, Reached(e, msg.injector));
      match msg.injector
      case Taken => (n.(accepted := PushRing(m.accepted, e)), Injected)
      case Throttled => (n.(rateLimited := SatSucc(m.rateLimited)), RateLimited)
      case Refused => (n.(rejected := SatSucc(m.rejected)), InjectError)
  }

  /** One batch of data messages.  The first identity message that fails ends it, and the rest is lost. */
  function PollInbound(w: World, m: Manager, msgs: seq<Inbound>): (Manager, Status)
    decreases |msgs|
  {
    if msgs == [] then (m, Done)
    else if msgs[0].channel == IDENTITY_CHANNEL then
      var (n, status) := HandleIdentity(w, m, msgs[0]);
      if status.Failed? then (n, status) else PollInbound(w, n, msgs[1..])
    else if msgs[0].channel == INPUT_CHANNEL then PollInbound(w, ProcessInput(w, m, msgs[0]).0, msgs[1..])
    else PollInbound(w, m, msgs[1..])
  }

  function TakeAccepted(m: Manager): Manager {
    Note(m.(accepted := []), Drained)
  }

  // ---- media and signalling ----------------------------------------------------------------

  function IceSignals(sid: ShortText, ice: seq<string>): seq<Signal> {
    seq(|ice|, i requires 0 <= i < |ice| => Signal(sid, ICE_CANDIDATE, ice[i]))
  }

  function Tagged(session: Option<ShortText>, ice: seq<string>): seq<Candidate> {
    seq(|ice|, i requires 0 <= i < |ice| => Candidate(session, ice[i]))
  }

  function Payloads(ice: seq<Candidate>): seq<string> {
    seq(|ice|, i requires 0 <= i < |ice| => ice[i].payload)
  }

  /** The transport hands over candidates. */
  function Gather(m: Manager, ice: seq<string>): Manager {
    Note(m.(gathered := m.gathered + Tagged(m.sid, ice)), Gathered(Tagged(m.sid, ice)))
  }

  /** Everything gathered goes out under the id of the attached session. */
  function QueueIce(m: Manager, sid: ShortText): Manager {
    Note(m.(outbound := m.outbound + IceSignals(sid, Payloads(m.gathered)), gathered := []), Queued(sid, m.gathered))
  }

  /** Whether the media plane comes up on a peer. */
  predicate MediaReady(env: MediaEnv) {
    env.captureOk && (env.peerNew ==> env.offer.Some?)
  }

  function StartMedia(m: Manager, env: MediaEnv): (Manager, Status) {
    if m.sid.None? then (m, Failed(NoSession))
    else if m.media then (m, Done)
    else if !env.captureOk then (m, Failed(MediaUnavailable))
    else
      var on := m.(media := true);
      if !env.peerNew then (QueueIce(on, m.sid.value), Done)
      else
        var made := Gather(on, env.ice);
        if env.offer.None? then (made, Failed(OfferFailed))
        else
          var offer := Signal(m.sid.value, SESSION_OFFER, env.offer.value);
          (QueueIce(made.(outbound := m.outbound + [offer]), m.sid.value), Done)
  }

  /** `ice` is what the transport hands over while it applies the signal. */
  function ApplySignal(m: Manager, kind: string, applied: bool, ice: seq<string>): (Manager, Status) {
    if kind == SESSION_OFFER || kind == SESSION_ANSWER then
      var n := Gather(m, ice);
      if !applied then (n, Failed(SignalFailed))
      else if m.sid.None? then (n, Done)
      else (QueueIce(n, m.sid.value), Done)
    else if kind == ICE_CANDIDATE then
      (Gather(m, ice), if applied then Done else Failed(SignalFailed))
    else (m, Failed(UnsupportedSignal))
  }

  // ---- reading the trace -------------------------------------------------------------------

  predicate IsBoundary(e: Event) {
    e.Attached? || e.Detached? || e.Killed?
  }

  /** The events since the last attach, detach or kill. */
  function Since(h: seq<Event>): seq<Event> {
    if h == [] || IsBoundary(h[|h| - 1]) then [] else Since(h[..|h| - 1]) + [h[|h| - 1]]
  }

  /** The session attached at the end of the trace. */
  function CurrentSession(h: seq<Event>): Option<ShortText> {
    if h == [] then None
    else
      match h[|h| - 1]
      case Attached(sid) => Some(sid)
      case Detached => None
      case Killed => None
      case _ => CurrentSession(h[..|h| - 1])
  }

  /** The challenge waiting for a response at the end of the trace. */
  function Outstanding(h: seq<Event>): Option<Nonce> {
    if h == [] then None
    else
      match h[|h| - 1]
      case Challenged(nonce) => Some(nonce)
      case Responded(_, _) => None
      case Attached(_) => None
      case Detached => None
      case Killed => None
      case _ => Outstanding(h[..|h| - 1])
  }

  /** The last accepted policy. */
  predicate PolicyOn(h: seq<Event>) {
    h != [] && if h[|h| - 1].PolicySet? then h[|h| - 1].enabled else PolicyOn(h[..|h| - 1])
  }

  ghost predicate ChallengedIn(s: seq<Event>, nonce: Nonce) {
    exists c :: 0 <= c < |s| && s[c] == Challenged(nonce) && Authorized in s[..c]
  }

  /** An authorization, then a challenge, then a verified response to it. */
  ghost predicate BoundIn(s: seq<Event>) {
    exists r :: 0 <= r < |s| && s[r].Responded? && s[r].verified && ChallengedIn(s[..r], s[r].nonce)
  }

  /** The candidates gathered since the last queueing.  No attach, detach or kill clears them. */
  function Waiting(h: seq<Event>): seq<Candidate> {
    if h == [] then []
    else
      match h[|h| - 1]
      case Gathered(ice) => Waiting(h[..|h| - 1]) + ice
      case Queued(_, _) => []
      case _ => Waiting(h[..|h| - 1])
  }

  /** What must have happened before an event may reach the injector. */
  ghost predicate Justified(h: seq<Event>) {
    CurrentSession(h).Some? && BoundIn(Since(h)) && PolicyOn(Since(h))
  }

  ghost predicate InOrder(h: seq<Event>, e: Event) {
    match e
    case Reached(_, _) => Justified(h)
    case Responded(nonce, _) => Outstanding(h) == Some(nonce)
    case Gathered(ice) => forall c :: c in ice ==> c.session == CurrentSession(h)
    case Queued(session, ice) => CurrentSession(h) == Some(session) && ice == Waiting(h)
    case _ => true
  }

  ghost predicate GoodTrace(h: seq<Event>) {
    forall i :: 0 <= i < |h| ==> InOrder(h[..i], h[i])
  }

  /** Injected events since the ring was last emptied: by an attach, a detach or a drain. */
  function InjectedSince(h: seq<Event>): seq<InputEvent> {
    if h == [] then []
    else
      var front := h[..|h| - 1];
      match h[|h| - 1]
      case Attached(_) => []
      case Detached => []
      case Drained => []
      case Reached(e, took) => if took.Taken? then InjectedSince(front) + [e] else InjectedSince(front)
      case _ => InjectedSince(front)
  }

  function LastN(s: seq<InputEvent>, n: nat): seq<InputEvent> {
    if |s| <= n then s else s[|s| - n..]
  }

  // ---- counting ----------------------------------------------------------------------------

  /** What became of one input message. */
  function OutcomeOf(e: Event): Option<Outcome> {
    match e
    case Dropped(undecodable) => Some(if undecodable then DecodeError else RejectedGate)
    case Reached(_, injector) =>
      Some(if injector.Taken? then Injected else if injector.Throttled? then RateLimited else InjectError)
    case _ => None
  }

  function Count(s: seq<Event>, o: Outcome): nat {
    if s == [] then 0
    else Count(s[..|s| - 1], o) + if OutcomeOf(s[|s| - 1]) == Some(o) then 1 else 0
  }

  /** All input messages. */
  function Inputs(s: seq<Event>): nat {
    if s == [] then 0
    else Inputs(s[..|s| - 1]) + if OutcomeOf(s[|s| - 1]).Some? then 1 else 0
  }
}
