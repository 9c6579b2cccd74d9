/** The server's session registry (apps/server/src/session.rs) as a transition system.

    Every public operation holds one mutex for its whole body, so it is one atomic step here.
    Three things the program leaves to its environment are inputs of a step: the clock (`now`),
    whether the receiving half of a connection's channel still exists (`receivers`), and the order
    in which a hash map lists the sessions an operation is about to close (`order`).

    `log` records what the registry itself sends, one entry per message, with the connections
    whose channel took it.  Error texts are reduced to their stable codes. */
module RegistryModel {
  import opened Common

  type ConnId = nat
  type PublicId = string
  type SessionId = string

  datatype Role = Host | Viewer

  datatype SessionMode = Otp | Unattended | Password

  datatype RejectReason = Busy | Auth | Policy

  datatype SessionState = Pending | Active | Closed

  /** The message types that relay_media_signal forwards. */
  datatype RelayKind =
    | Offer | Answer | Ice | MediaRestart | Renegotiate | AuthChallenge | AuthResponse | Stats

  datatype SignalMessage =
    | SessionIncoming(sid: SessionId, num: u64, viewerInfo: string, mode: SessionMode)
    | SessionAccept(sid: SessionId, num: u64)
    | SessionReject(sid: SessionId, num: u64, reason: RejectReason)
    | Relay(kind: RelayKind, sid: SessionId, num: u64, body: string)
    | SessionEnd(sid: SessionId, num: u64, why: string)
    | Error(code: string)
    | OtherMessage(tag: string)

  datatype PeerIdentity = PeerIdentity(
    role: Role,
    devicePublicId: Option<PublicId>,
    deviceId: Option<int>,
    anonymous: bool)

  datatype Session = Session(
    sid: SessionId,
    host: PublicId,
    hostDeviceId: int,
    hostConn: ConnId,
    viewerConn: ConnId,
    mode: SessionMode,
    state: SessionState,
    nextSeq: u64,
    createdAt: int,
    expiresAt: int)

  /** A message the registry sent, and the connections whose channel accepted it. */
  datatype Event = Event(msg: SignalMessage, to: seq<ConnId>)

  datatype Registry = Registry(
    pendingTtl: int,
    activeTtl: int,
    nextConn: ConnId,
    conns: set<ConnId>,
    receivers: set<ConnId>,
    hosts: map<PublicId, ConnId>,
    peers: map<ConnId, PeerIdentity>,
    sessions: map<SessionId, Session>,
    busy: map<PublicId, SessionId>,
    log: seq<Event>)

  datatype Outcome = Ok | Err(reply: SignalMessage)

  datatype CreateRequest = CreateRequest(
    viewerConn: ConnId,
    sid: SessionId,
    host: PublicId,
    hostDeviceId: int,
    mode: SessionMode,
    num: u64,
    viewerInfo: string)

  function Initial(pendingTtl: int, activeTtl: int): Registry {
    Registry(pendingTtl, activeTtl, 1, {}, {}, map[], map[], map[], map[], [])
  }

  /** `order` lists every element of `s` exactly once. */
  ghost predicate Enumerates<T>(order: seq<T>, s: set<T>) {
    && (forall i :: 0 <= i < |order| ==> order[i] in s)
    && (forall x :: x in s ==> x in order)
    && (forall i, j :: 0 <= i < j < |order| ==> order[i] != order[j])
  }

  // ---- sending -----------------------------------------------------------------------------

  /** A send succeeds when the connection is registered and its receiver still exists. */
  predicate CanSend(r: Registry, c: ConnId) {
    c in r.conns && c in r.receivers
  }

  function Taken(r: Registry, to: seq<ConnId>): seq<ConnId> {
    if to == [] then []
    else (if CanSend(r, to[0]) then [to[0]] else []) + Taken(r, to[1..])
  }

  function Send(r: Registry, msg: SignalMessage, to: seq<ConnId>): Registry {
    r.(log := r.log + [Event(msg, Taken(r, to))])
  }

  // ---- closing sessions --------------------------------------------------------------------

  function CloseSession(r: Registry, sid: SessionId, reason: string): Registry {
    if sid !in r.sessions then r
    else
      var s := r.sessions[sid];
      var r1 := r.(sessions := r.sessions - {sid}, busy := r.busy - {s.host});
      if s.state == Closed then r1
      else Send(r1, SessionEnd(sid, s.nextSeq, reason), [s.hostConn, s.viewerConn])
  }

  function CloseAll(r: Registry, order: seq<SessionId>, reason: string): Registry {
    if order == [] then r
    else CloseSession(CloseAll(r, order[..|order| - 1], reason), order[|order| - 1], reason)
  }

  function Expired(r: Registry, now: int): set<SessionId> {
    set sid | sid in r.sessions && r.sessions[sid].state != Closed && r.sessions[sid].expiresAt <= now
  }

  function Reap(r: Registry, order: seq<SessionId>): Registry {
    CloseAll(r, order, "session_ttl")
  }

  // ---- connections and presence ------------------------------------------------------------

  function RegisterConn(r: Registry): Registry {
    r.(nextConn := r.nextConn + 1,
    conns := r.conns + {r.nextConn},
    receivers := r.receivers + {r.nextConn})
  }

  function PartyOf(r: Registry, c: ConnId): set<SessionId> {
    set sid | sid in r.sessions && (r.sessions[sid].hostConn == c || r.sessions[sid].viewerConn == c)
  }

  function ForgetConn(r: Registry, c: ConnId): Registry {
    r.(conns := r.conns - {c},
    peers := r.peers - {c},
    hosts := map p | p in r.hosts && r.hosts[p] != c :: r.hosts[p])
  }

  function UnregisterConn(r: Registry, c: ConnId, order: seq<SessionId>): Registry {
    CloseAll(ForgetConn(r, c), order, "peer_disconnected")
  }

  function Rebind(s: Session, host: PublicId, prior: ConnId, next: ConnId): Session {
    if s.hostConn == prior && s.host == host then s.(hostConn := next) else s
  }

  function EvictConn(r: Registry, prior: ConnId): Registry {
    var r1 := r.(conns := r.conns - {prior}, peers := r.peers - {prior});
    if prior !in r.conns then r1
    else r1.(log := r.log + [Event(Error("connection_replaced"), Taken(r, [prior]))])
  }

  function PublishHost(r: Registry, c: ConnId, host: PublicId): Registry {
    var r1 := r.(hosts := r.hosts[host := c]);
    if host !in r.hosts || r.hosts[host] == c then r1
    else
      var prior := r.hosts[host];
      EvictConn(r1.(sessions := map sid | sid in r.sessions :: Rebind(r.sessions[sid], host, prior, c)), prior)
  }

  function BindPeer(r: Registry, c: ConnId, id: PeerIdentity): Registry {
    var r1 := if id.role == Host && id.devicePublicId.Some? then PublishHost(r, c, id.devicePublicId.value) else r;
    r1.(peers := r1.peers[c := id])
  }

  // ---- session life cycle ------------------------------------------------------------------

  function NewSession(r: Registry, req: CreateRequest, hostConn: ConnId, next: u64, now: int): Session {
    Session(
      req.sid, req.host, req.hostDeviceId, hostConn, req.viewerConn, req.mode, Pending, next, now, now + r.pendingTtl)
  }

  function CreateAfterReap(r: Registry, req: CreateRequest, now: int): (Registry, Outcome) {
    if req.sid in r.sessions then (r, Err(Error("conflict")))
    else if req.host in r.busy then (r, Err(SessionReject(req.sid, SatSucc(req.num), Busy)))
    else if req.host !in r.hosts then (r, Err(Error("host_offline")))
    else if req.num >= U64_MAX - 1 then (r, Err(Error("bad_request")))
    else
      var c := r.hosts[req.host];
      var s := NewSession(r, req, c, req.num + 2, now);
      var r1 := r.(busy := r.busy[req.host := req.sid], sessions := r.sessions[req.sid := s]);
      if CanSend(r1, c)
      then (Send(r1, SessionIncoming(req.sid, req.num + 1, req.viewerInfo, req.mode), [c]), Ok)
      else (r1.(sessions := r1.sessions - {req.sid}, busy := r1.busy - {req.host}), Err(Error("host_offline")))
  }

  /** The checks accept_session and reject_session share; None means they passed. */
  function HostCheck(r: Registry, c: ConnId, sid: SessionId, num: u64): Option<SignalMessage> {
    if sid !in r.sessions then Some(Error("not_found"))
    else if r.sessions[sid].hostConn != c then Some(Error("unauthorized"))
    else if r.sessions[sid].state != Pending then Some(Error("invalid_state"))
    else if num < r.sessions[sid].nextSeq then Some(Error("stale_signal_seq"))
    else None
  }

  function AcceptAfterReap(r: Registry, c: ConnId, sid: SessionId, num: u64, now: int): (Registry, Outcome) {
    match HostCheck(r, c, sid, num)
    case Some(e) => (r, Err(e))
    case None =>
      var s := r.sessions[sid];
      var s1 := s.(state := Active, expiresAt := now + r.activeTtl, nextSeq := SatSucc(num));
      (Send(r.(sessions := r.sessions[sid := s1]), SessionAccept(sid, num), [s.viewerConn]), Ok)
  }

  function RejectAfterReap(r: Registry, c: ConnId, sid: SessionId, num: u64, reason: RejectReason)
    : (Registry, Outcome)
  {
    match HostCheck(r, c, sid, num)
    case Some(e) => (r, Err(e))
    case None =>
      var s := r.sessions[sid];
      var r1 := r.(busy := r.busy - {s.host}, sessions := r.sessions - {sid});
      (Send(r1, SessionReject(sid, num, reason), [s.viewerConn]), Ok)
  }

  function OtherParty(s: Session, c: ConnId): ConnId {
    if s.hostConn == c then s.viewerConn else s.hostConn
  }

  function EndAfterReap(r: Registry, c: ConnId, sid: SessionId, num: u64, reason: string): (Registry, Outcome) {
    if sid !in r.sessions then (r, Err(Error("not_found")))
    else
      var s := r.sessions[sid];
      if s.hostConn != c && s.viewerConn != c then (r, Err(Error("unauthorized")))
      else if s.state == Closed then (r, Ok)
      else if num < s.nextSeq then (r, Err(Error("stale_signal_seq")))
      else
        var r1 := r.(busy := r.busy - {s.host}, sessions := r.sessions - {sid});
        (Send(r1, SessionEnd(sid, num, reason), [OtherParty(s, c)]), Ok)
  }

  /** The boolean is the operation's Ok(true) / Ok(false). */
  function ForceAfterReap(r: Registry, sid: SessionId, reason: string): (Registry, bool) {
    if sid !in r.sessions then (r, false)
    else if r.sessions[sid].state == Closed then (r.(sessions := r.sessions - {sid}), false)
    else (CloseSession(r, sid, reason), true)
  }

  function RelayAfterReap(r: Registry, from: ConnId, msg: SignalMessage): (Registry, Outcome)
    requires msg.Relay?
  {
    if msg.sid !in r.sessions then (r, Err(Error("not_found")))
    else
      var s := r.sessions[msg.sid];
      if s.hostConn != from && s.viewerConn != from then (r, Err(Error("unauthorized")))
      else if s.state != Active then (r, Err(Error("invalid_state")))
      else if msg.num < s.nextSeq then
        (r, if msg.kind == Ice then Ok else Err(Error("stale_signal_seq")))
      else if msg.kind == Offer && s.hostConn != from then (r, Err(Error("unauthorized")))
      else if msg.kind == Answer && s.hostConn == from then (r, Err(Error("unauthorized")))
      else
        var peer := OtherParty(s, from);
        var r1 := r.(sessions := r.sessions[msg.sid := s.(nextSeq := SatSucc(msg.num))]);
        (Send(r1, msg, [peer]), if CanSend(r1, peer) then Ok else Err(Error("peer_offline")))
  }

  // ---- runs --------------------------------------------------------------------------------

  datatype Step =
    | Register
    | DropReceiver(conn: ConnId)
    | Bind(conn: ConnId, id: PeerIdentity)
    | Unregister(conn: ConnId, order: seq<SessionId>)
    | ReapStep(now: int, order: seq<SessionId>)
    | Create(req: CreateRequest, now: int, order: seq<SessionId>)
    | Accept(conn: ConnId, sid: SessionId, num: u64, now: int, order: seq<SessionId>)
    | Reject(conn: ConnId, sid: SessionId, num: u64, reason: RejectReason, now: int, order: seq<SessionId>)
    | End(conn: ConnId, sid: SessionId, num: u64, why: string, now: int, order: seq<SessionId>)
    | Force(sid: SessionId, why: string, now: int, order: seq<SessionId>)
    | RelaySignal(conn: ConnId, msg: SignalMessage, now: int, order: seq<SessionId>)

  /** The order a step was given is one its hash map could have produced. */
  ghost predicate Enabled(r: Registry, st: Step) {
    match st
    case Register => true
    case DropReceiver(_) => true
    case Bind(_, _) => true
    case Unregister(c, order) => Enumerates(order, PartyOf(r, c))
    case RelaySignal(_, msg, now, order) => if msg.Relay? then Enumerates(order, Expired(r, now)) else order == []
    case _ => Enumerates(st.order, Expired(r, st.now))
  }

  function Apply(r: Registry, st: Step): Registry {
    match st
    case Register => RegisterConn(r)
    case DropReceiver(c) => r.(receivers := r.receivers - {c})
    case Bind(c, id) => BindPeer(r, c, id)
    case Unregister(c, order) => UnregisterConn(r, c, order)
    case ReapStep(_, order) => Reap(r, order)
    case Create(req, now, order) => CreateAfterReap(Reap(r, order), req, now).0
    case Accept(c, sid, num, now, order) => AcceptAfterReap(Reap(r, order), c, sid, num, now).0
    case Reject(c, sid, num, reason, _, order) => RejectAfterReap(Reap(r, order), c, sid, num, reason).0
    case End(c, sid, num, why, _, order) => EndAfterReap(Reap(r, order), c, sid, num, why).0
    case Force(sid, why, _, order) => ForceAfterReap(Reap(r, order), sid, why).0
    case RelaySignal(c, msg, _, order) => if msg.Relay? then RelayAfterReap(Reap(r, order), c, msg).0 else r
  }

  function Run(r: Registry, steps: seq<Step>): Registry {
    if steps == [] then r else Apply(Run(r, steps[..|steps| - 1]), steps[|steps| - 1])
  }

  ghost predicate ValidRun(r: Registry, steps: seq<Step>) {
    steps == [] ||
    (ValidRun(r, steps[..|steps| - 1]) && Enabled(Run(r, steps[..|steps| - 1]), steps[|steps| - 1]))
  }
}
