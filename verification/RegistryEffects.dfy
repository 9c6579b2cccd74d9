/** What each operation of the registry promises its callers: exactly when it is accepted, what it then does, and that
    it does nothing otherwise.  Every operation starts with a reap, so the conditions are on the sessions that are
    stored and have not expired. */
module RegistryEffects {
  import opened Common
  import opened RegistryModel
  import opened RegistryProofs
  import opened RegistryTheorems

  /** The session is stored and has not expired. */
  predicate Live(r: Registry, sid: SessionId, now: int) {
    sid in r.sessions && now < r.sessions[sid].expiresAt
  }

  ghost predicate HostFree(r: Registry, host: PublicId, now: int) {
    forall sid :: Live(r, sid, now) ==> r.sessions[sid].host != host
  }

  /** A message as it goes out to one connection. */
  function Told(r: Registry, msg: SignalMessage, c: ConnId): Event {
    Event(msg, if CanSend(r, c) then [c] else [])
  }

  /** What the reap in front of an operation leaves. */
  ghost predicate ReapedAt(r: Registry, now: int, r1: Registry) {
    && (forall sid :: sid in r1.sessions <==> Live(r, sid, now))
    && (forall sid :: sid in r1.sessions ==> r1.sessions[sid] == r.sessions[sid])
    && OnlyClosed(r, r1)
    && Inv(r1)
  }

  lemma Reaped(r: Registry, now: int, order: seq<SessionId>)
    requires Reachable(r) && Enumerates(order, Expired(r, now))
    ensures ReapedAt(r, now, Reap(r, order))
  {
    ReachableInv(r);
    CloseAllEffect(r, order, "session_ttl");
    CloseAllKeepsInv(r, order, "session_ttl");
    ReapKeepsTheUnexpired(r, now, order);
  }

  /** Each expired session ends with one message to those of its parties that can be reached. */
  lemma ReapTellsBothParties(r: Registry, now: int, order: seq<SessionId>, i: nat)
    requires Reachable(r) && Enumerates(order, Expired(r, now)) && i < |order|
    ensures |Reap(r, order).log| == |r.log| + |order|
    ensures var s := r.sessions[order[i]];
      Reap(r, order).log[|r.log| + i]
        == Event(SessionEnd(order[i], s.nextSeq, "session_ttl"),
                 (if CanSend(r, s.hostConn) then [s.hostConn] else [])
                 + (if CanSend(r, s.viewerConn) then [s.viewerConn] else []))
  {
    ReachableInv(r);
    CloseAllEvents(r, order, "session_ttl");
    TakenTwo(r, r.sessions[order[i]].hostConn, r.sessions[order[i]].viewerConn);
  }

  // ---- relaying ----------------------------------------------------------------------------

  /** The session is active, the number is not stale, an offer comes from its host, an answer from its viewer and
      anything else from either. */
  predicate MayRelay(r: Registry, now: int, from: ConnId, msg: SignalMessage)
    requires msg.Relay?
  {
    Live(r, msg.sid, now) &&
    var s := r.sessions[msg.sid];
    && s.state == Active && s.nextSeq <= msg.num
    && match msg.kind
       case Offer => from == s.hostConn
       case Answer => from == s.viewerConn && from != s.hostConn
       case _ => from == s.hostConn || from == s.viewerConn
  }

  function Receiving(r: Registry, from: ConnId, sid: SessionId): ConnId
    requires sid in r.sessions
  {
    if from == r.sessions[sid].hostConn then r.sessions[sid].viewerConn else r.sessions[sid].hostConn
  }

  /** A relay is passed on exactly when it may be and its receiver can be reached.  When it may be, it is logged as
      it came and its number is used up; when it may not, nothing happens beyond the reap. */
  lemma RelayAcceptedExactlyWhen(r: Registry, now: int, order: seq<SessionId>, from: ConnId, msg: SignalMessage)
    requires Reachable(r) && Enumerates(order, Expired(r, now)) && msg.Relay?
    ensures var r1 := Reap(r, order); var (r2, out) := RelayAfterReap(r1, from, msg);
      && (out.Ok? && r2 != r1 <==> MayRelay(r, now, from, msg) && CanSend(r, Receiving(r, from, msg.sid)))
      && (out == Err(Error("peer_offline")) <==>
            MayRelay(r, now, from, msg) && !CanSend(r, Receiving(r, from, msg.sid)))
      && (MayRelay(r, now, from, msg) ==>
            && r2.log == r1.log + [Told(r, msg, Receiving(r, from, msg.sid))]
            && r2.sessions == r1.sessions[msg.sid := r.sessions[msg.sid].(nextSeq := SatSucc(msg.num))]
            && r2 == r1.(log := r2.log, sessions := r2.sessions))
      && (!MayRelay(r, now, from, msg) ==> r2 == r1)
  {
    Reaped(r, now, order);
    RelayFrom(r, now, Reap(r, order), from, msg);
  }

  lemma RelayFrom(r: Registry, now: int, r1: Registry, from: ConnId, msg: SignalMessage)
    requires ReapedAt(r, now, r1) && msg.Relay?
    ensures var (r2, out) := RelayAfterReap(r1, from, msg);
      if MayRelay(r, now, from, msg) then
        var peer := Receiving(r, from, msg.sid);
        && out == (if CanSend(r, peer) then Ok else Err(Error("peer_offline")))
        && r2.log == r1.log + [Told(r, msg, peer)]
        && r2.sessions == r1.sessions[msg.sid := r.sessions[msg.sid].(nextSeq := SatSucc(msg.num))]
        && r2 == r1.(log := r2.log, sessions := r2.sessions)
      else r2 == r1 && out != Err(Error("peer_offline"))
  {
    if MayRelay(r, now, from, msg) {
      var s := r1.sessions[msg.sid];
      var noted := r1.(sessions := r1.sessions[msg.sid := s.(nextSeq := SatSucc(msg.num))]);
      TakenOne(noted, Receiving(r, from, msg.sid));
    }
  }

  /** Why a relay is not passed on, case by case.  A stale candidate is dropped without an error. */
  lemma RelayRefusals(r: Registry, now: int, order: seq<SessionId>, from: ConnId, msg: SignalMessage)
    requires Reachable(r) && Enumerates(order, Expired(r, now)) && msg.Relay?
    ensures var out := RelayAfterReap(Reap(r, order), from, msg).1;
      && (out == Err(Error("not_found")) <==> !Live(r, msg.sid, now))
      && (Live(r, msg.sid, now) ==>
          var s := r.sessions[msg.sid];
          var party := from == s.hostConn || from == s.viewerConn;
          var due := s.nextSeq <= msg.num;
          && (out == Err(Error("invalid_state")) <==> party && s.state != Active)
          && (out == Err(Error("stale_signal_seq")) <==> party && s.state == Active && !due && msg.kind != Ice)
          && (out == Err(Error("unauthorized")) <==>
                !party || (s.state == Active && due && ((msg.kind == Offer && from != s.hostConn)
                                                          || (msg.kind == Answer && from == s.hostConn))))
          && (out.Ok? && RelayAfterReap(Reap(r, order), from, msg).0 == Reap(r, order) <==>
                party && s.state == Active && !due && msg.kind == Ice))
  {
    Reaped(r, now, order);
    RelayFrom(r, now, Reap(r, order), from, msg);
  }

  /** What a step sends of an offer reaches the viewer of the session only, and of an answer its host only. */
  ghost predicate Gated(r: Registry, e: Event) {
    e.msg.Relay? && (e.msg.kind == Offer || e.msg.kind == Answer) ==>
      && e.msg.sid in r.sessions
      && var s := r.sessions[e.msg.sid];
         s.state == Active && forall x :: x in e.to ==> x == if e.msg.kind == Offer then s.viewerConn else s.hostConn
  }

  ghost predicate StepGated(r: Registry, r1: Registry) {
    r.log <= r1.log && forall i :: |r.log| <= i < |r1.log| ==> Gated(r, r1.log[i])
  }

  lemma RelayStepGated(r: Registry, now: int, order: seq<SessionId>, from: ConnId, msg: SignalMessage)
    requires Reachable(r) && Enumerates(order, Expired(r, now)) && msg.Relay?
    ensures StepGated(r, RelayAfterReap(Reap(r, order), from, msg).0)
  {
    Reaped(r, now, order);
    ClosingIsGated(r, order, "session_ttl");
    RelayFrom(r, now, Reap(r, order), from, msg);
  }

  lemma ClosingIsGated(r: Registry, order: seq<SessionId>, reason: string)
    ensures r.log <= CloseAll(r, order, reason).log
    ensures forall i :: |r.log| <= i < |CloseAll(r, order, reason).log| ==>
      !CloseAll(r, order, reason).log[i].msg.Relay?
  {
    if order != [] { ClosingIsGated(r, order[..|order| - 1], reason); }
  }

  lemma ForcedIsGated(r: Registry, order: seq<SessionId>, sid: SessionId, why: string)
    ensures StepGated(r, ForceAfterReap(Reap(r, order), sid, why).0)
  {
    ClosingIsGated(r, order, "session_ttl");
  }

  lemma OneMessageIsGated(r: Registry, st: Step)
    requires st.Create? || st.Accept? || st.Reject? || st.End?
    ensures StepGated(r, Apply(r, st))
  {
    ClosingIsGated(r, st.order, "session_ttl");
  }

  lemma EveryStepIsGated(r: Registry, st: Step)
    requires Reachable(r) && Enabled(r, st)
    ensures StepGated(r, Apply(r, st))
  {
    match st
    case Register =>
    case DropReceiver(_) =>
    case Bind(c, id) =>
    case Unregister(c, order) => ClosingIsGated(ForgetConn(r, c), order, "peer_disconnected");
    case ReapStep(_, order) => ClosingIsGated(r, order, "session_ttl");
    case Force(sid, why, _, order) => ForcedIsGated(r, order, sid, why);
    case RelaySignal(c, msg, now, order) => if msg.Relay? { RelayStepGated(r, now, order, c, msg); }
    case _ => OneMessageIsGated(r, st);
  }

  /** On every run: whatever the log holds, it was sent by some step, and if it is an offer that step found its
      session active and gave it to the viewer only, an answer to the host only. */
  lemma {:induction false} OffersGoToTheViewer(p: int, a: int, steps: seq<Step>, i: nat) returns (k: nat)
    requires ValidRun(Initial(p, a), steps) && i < |Run(Initial(p, a), steps).log|
    ensures k < |steps| && ValidRun(Initial(p, a), steps[..k]) && ValidRun(Initial(p, a), steps[..k + 1])
    ensures |Run(Initial(p, a), steps[..k]).log| <= i < |Run(Initial(p, a), steps[..k + 1]).log|
    ensures Gated(Run(Initial(p, a), steps[..k]), Run(Initial(p, a), steps).log[i])
  {
    var n := |steps| - 1;
    var r := Run(Initial(p, a), steps[..n]);
    assert Reachable(r);
    EveryStepIsGated(r, steps[n]);
    assert steps[..n + 1] == steps;
    if i < |r.log| {
      k := OffersGoToTheViewer(p, a, steps[..n], i);
      assert steps[..n][..k] == steps[..k] && steps[..n][..k + 1] == steps[..k + 1];
    } else {
      k := n;
    }
  }

  // ---- accept and reject -------------------------------------------------------------------

  /** The host of a pending session answers with a number that is not stale. */
  predicate MayAnswerIntent(r: Registry, now: int, c: ConnId, sid: SessionId, num: u64) {
    Live(r, sid, now) &&
    var s := r.sessions[sid];
    c == s.hostConn && s.state == Pending && s.nextSeq <= num
  }

  /** Accepting activates the session, gives it a full active TTL from now on and tells the viewer. */
  ghost predicate AcceptPromise(r: Registry, now: int, r1: Registry, c: ConnId, sid: SessionId, num: u64) {
    var (r2, out) := AcceptAfterReap(r1, c, sid, num, now);
    if MayAnswerIntent(r, now, c, sid, num) then
      var s := r.sessions[sid];
      && out.Ok?
      && r2.log == r1.log + [Told(r, SessionAccept(sid, num), s.viewerConn)]
      && r2.sessions == r1.sessions[sid := s.(state := Active, expiresAt := now + r.activeTtl, nextSeq := SatSucc(num))]
      && r2 == r1.(log := r2.log, sessions := r2.sessions)
    else out.Err? && r2 == r1
  }

  lemma AcceptedExactlyWhen(r: Registry, now: int, order: seq<SessionId>, c: ConnId, sid: SessionId, num: u64)
    requires Reachable(r) && Enumerates(order, Expired(r, now))
    ensures AcceptPromise(r, now, Reap(r, order), c, sid, num)
  {
    Reaped(r, now, order);
    AcceptedFrom(r, now, Reap(r, order), c, sid, num);
  }

  lemma AcceptedFrom(r: Registry, now: int, r1: Registry, c: ConnId, sid: SessionId, num: u64)
    requires ReapedAt(r, now, r1)
    ensures AcceptPromise(r, now, r1, c, sid, num)
  {
    if MayAnswerIntent(r, now, c, sid, num) {
      var s := r1.sessions[sid].(state := Active, expiresAt := now + r1.activeTtl, nextSeq := SatSucc(num));
      TakenOne(r1.(sessions := r1.sessions[sid := s]), s.viewerConn);
    }
  }

  /** Rejecting removes the session and its lock, so the host is free again, and tells the viewer why. */
  lemma RejectedExactlyWhen(r: Registry, now: int, order: seq<SessionId>, c: ConnId, sid: SessionId, num: u64,
                            reason: RejectReason)
    requires Reachable(r) && Enumerates(order, Expired(r, now))
    ensures var r1 := Reap(r, order); var (r2, out) := RejectAfterReap(r1, c, sid, num, reason);
      && (out.Ok? <==> MayAnswerIntent(r, now, c, sid, num))
      && (out.Err? ==> r2 == r1)
      && (out.Ok? ==>
            var s := r.sessions[sid];
            && r2.log == r1.log + [Told(r, SessionReject(sid, num, reason), s.viewerConn)]
            && Removed(r1, r2, sid) && HostFree(r2, s.host, now))
  {
    Reaped(r, now, order);
    var r1 := Reap(r, order);
    if MayAnswerIntent(r, now, c, sid, num) {
      var s := r1.sessions[sid];
      TakenOne(r1.(busy := r1.busy - {s.host}, sessions := r1.sessions - {sid}), s.viewerConn);
    }
  }

  /** Only the session and its lock are gone. */
  ghost predicate Removed(r1: Registry, r2: Registry, sid: SessionId)
    requires sid in r1.sessions
  {
    r2 == r1.(log := r2.log, sessions := r1.sessions - {sid}, busy := r1.busy - {r1.sessions[sid].host})
  }

  // ---- end and force-disconnect ------------------------------------------------------------

  predicate MayEnd(r: Registry, now: int, c: ConnId, sid: SessionId, num: u64) {
    Live(r, sid, now) &&
    var s := r.sessions[sid];
    (c == s.hostConn || c == s.viewerConn) && s.nextSeq <= num
  }

  /** Either party ends a session, pending or active; the other one is told, and the host is free again. */
  lemma EndedExactlyWhen(r: Registry, now: int, order: seq<SessionId>, c: ConnId, sid: SessionId, num: u64, why: string)
    requires Reachable(r) && Enumerates(order, Expired(r, now))
    ensures var r1 := Reap(r, order); var (r2, out) := EndAfterReap(r1, c, sid, num, why);
      && (out.Ok? <==> MayEnd(r, now, c, sid, num))
      && (out.Err? ==> r2 == r1)
      && (out.Ok? ==>
            && r2.log == r1.log + [Told(r, SessionEnd(sid, num, why), Receiving(r, c, sid))]
            && Removed(r1, r2, sid) && HostFree(r2, r.sessions[sid].host, now))
  {
    Reaped(r, now, order);
    var r1 := Reap(r, order);
    NoneClosed(r1);
    if MayEnd(r, now, c, sid, num) {
      var s := r1.sessions[sid];
      TakenOne(r1.(busy := r1.busy - {s.host}, sessions := r1.sessions - {sid}), Receiving(r, c, sid));
    }
  }

  /** The administrator's call is true exactly for a live session, which it removes, telling both parties. */
  lemma ForcedExactlyWhen(r: Registry, now: int, order: seq<SessionId>, sid: SessionId, why: string)
    requires Reachable(r) && Enumerates(order, Expired(r, now))
    ensures var r1 := Reap(r, order); var (r2, closed) := ForceAfterReap(r1, sid, why);
      && (closed <==> Live(r, sid, now))
      && (!closed ==> r2 == r1)
      && (closed ==>
            var s := r.sessions[sid];
            && r2.log == r1.log + [Event(SessionEnd(sid, s.nextSeq, why),
                                         (if CanSend(r, s.hostConn) then [s.hostConn] else [])
                                         + (if CanSend(r, s.viewerConn) then [s.viewerConn] else []))]
            && Removed(r1, r2, sid) && HostFree(r2, s.host, now))
  {
    Reaped(r, now, order);
    var r1 := Reap(r, order);
    NoneClosed(r1);
    if Live(r, sid, now) {
      var s := r1.sessions[sid];
      TakenTwo(r1.(sessions := r1.sessions - {sid}, busy := r1.busy - {s.host}), s.hostConn, s.viewerConn);
    }
  }

  // ---- intents -----------------------------------------------------------------------------

  ghost predicate MayCreate(r: Registry, now: int, req: CreateRequest) {
    && !Live(r, req.sid, now) && HostFree(r, req.host, now)
    && req.host in r.hosts && CanSend(r, r.hosts[req.host]) && req.num + 2 <= U64_MAX
  }

  /** It then stores a pending session with a full pending TTL, takes the lock and tells the host. */
  ghost predicate IntentPromise(r: Registry, now: int, r1: Registry, req: CreateRequest) {
    var (r2, out) := CreateAfterReap(r1, req, now);
    if MayCreate(r, now, req) then
      var h := r.hosts[req.host];
      var s := Session(req.sid, req.host, req.hostDeviceId, h, req.viewerConn, req.mode, Pending, req.num + 2,
                       now, now + r.pendingTtl);
      && out.Ok?
      && r2.log == r1.log + [Told(r, SessionIncoming(req.sid, req.num + 1, req.viewerInfo, req.mode), h)]
      && r2.sessions == r1.sessions[req.sid := s] && r2.busy == r1.busy[req.host := req.sid]
      && r2 == r1.(log := r2.log, sessions := r2.sessions, busy := r2.busy)
    else out.Err? && r2 == r1
  }

  /** An intent is accepted exactly when its id is new, its host is published, free and reachable, and two numbers
      are left. */
  lemma CreatedExactlyWhen(r: Registry, now: int, order: seq<SessionId>, req: CreateRequest)
    requires Reachable(r) && Enumerates(order, Expired(r, now))
    ensures IntentPromise(r, now, Reap(r, order), req)
  {
    Reaped(r, now, order);
    IntentFrom(r, now, Reap(r, order), req);
  }

  lemma IntentFrom(r: Registry, now: int, r1: Registry, req: CreateRequest)
    requires ReapedAt(r, now, r1)
    ensures IntentPromise(r, now, r1, req)
  {
    CreateAnswers(r, now, r1, req);
    if MayCreate(r, now, req) {
      CreatedFrom(r1, now, req);
    } else {
      FailedCreateChangesNothing(r1, req, now);
    }
  }

  lemma CreateAnswers(r: Registry, now: int, r1: Registry, req: CreateRequest)
    requires ReapedAt(r, now, r1)
    ensures CreateAfterReap(r1, req, now).1.Ok? <==> MayCreate(r, now, req)
    ensures MayCreate(r, now, req) ==> req.sid !in r1.sessions && req.host !in r1.busy
  {
    LockMeansNotFree(r, now, r1, req.host);
  }

  lemma CreatedFrom(r: Registry, now: int, req: CreateRequest)
    requires req.sid !in r.sessions && req.host !in r.busy && req.host in r.hosts && CanSend(r, r.hosts[req.host])
    requires req.num + 2 <= U64_MAX
    ensures var h := r.hosts[req.host];
      var s := Session(req.sid, req.host, req.hostDeviceId, h, req.viewerConn, req.mode, Pending, req.num + 2,
                       now, now + r.pendingTtl);
      CreateAfterReap(r, req, now) ==
        (r.(sessions := r.sessions[req.sid := s], busy := r.busy[req.host := req.sid],
            log := r.log + [Told(r, SessionIncoming(req.sid, req.num + 1, req.viewerInfo, req.mode), h)]), Ok)
  {
    var s := NewSession(r, req, r.hosts[req.host], req.num + 2, now);
    TakenOne(r.(busy := r.busy[req.host := req.sid], sessions := r.sessions[req.sid := s]), r.hosts[req.host]);
  }

  lemma LockMeansNotFree(r: Registry, now: int, r1: Registry, host: PublicId)
    requires ReapedAt(r, now, r1)
    ensures host in r1.busy <==> !HostFree(r, host, now)
  {
    if !HostFree(r, host, now) {
      var sid :| Live(r, sid, now) && r.sessions[sid].host == host;
      assert sid in r1.sessions;
    }
  }

  /** Why an intent is refused. */
  lemma IntentRefusals(r: Registry, now: int, order: seq<SessionId>, req: CreateRequest)
    requires Reachable(r) && Enumerates(order, Expired(r, now))
    ensures var out := CreateAfterReap(Reap(r, order), req, now).1;
      var unused := !Live(r, req.sid, now);
      var free := HostFree(r, req.host, now);
      && (out == Err(Error("conflict")) <==> !unused)
      && (out == Err(SessionReject(req.sid, SatSucc(req.num), Busy)) <==> unused && !free)
      && (out == Err(Error("bad_request")) <==> unused && free && req.host in r.hosts && req.num + 2 > U64_MAX)
      && (out == Err(Error("host_offline")) <==>
            (unused && free && (req.host !in r.hosts || (req.num + 2 <= U64_MAX && !CanSend(r, r.hosts[req.host])))))
  {
    Reaped(r, now, order);
    LockMeansNotFree(r, now, Reap(r, order), req.host);
  }

  // ---- time --------------------------------------------------------------------------------

  /** An accepted intent stays for exactly the pending TTL and an accepted session for exactly the active one: a reap
      at time t finds it expired exactly when that has passed. */
  lemma SessionsLiveTheirTtl(r: Registry, now: int, order: seq<SessionId>, req: CreateRequest, c: ConnId, num: u64,
                             t: int)
    requires Reachable(r) && Enumerates(order, Expired(r, now))
    ensures var (r2, out) := CreateAfterReap(Reap(r, order), req, now);
      out.Ok? ==> (req.sid in Expired(r2, t) <==> now + r.pendingTtl <= t)
    ensures var (r2, out) := AcceptAfterReap(Reap(r, order), c, req.sid, num, now);
      out.Ok? ==> (req.sid in Expired(r2, t) <==> now + r.activeTtl <= t)
  {
    CreatedExactlyWhen(r, now, order, req);
    AcceptedExactlyWhen(r, now, order, c, req.sid, num);
  }

  // ---- hello -------------------------------------------------------------------------------

  /** A host's hello on a new socket removes the old one and tells it so, exactly if it was another. */
  lemma ReplacedSocketIsTold(r: Registry, c: ConnId, id: PeerIdentity)
    requires id.role == Host && id.devicePublicId.Some?
    ensures var h := id.devicePublicId.value; var r1 := BindPeer(r, c, id);
      if h in r.hosts && r.hosts[h] != c then
        var prior := r.hosts[h];
        && r1.conns == r.conns - {prior} && r1.peers == (r.peers - {prior})[c := id]
        && r1.log == r.log + if prior in r.conns then [Told(r, Error("connection_replaced"), prior)] else []
      else r1.conns == r.conns && r1.peers == r.peers[c := id] && r1.log == r.log
  {
    var h := id.devicePublicId.value;
    if h in r.hosts {
      TakenOne(r, r.hosts[h]);
      TakenOne(r.(hosts := r.hosts[h := c],
                  sessions := map sid | sid in r.sessions :: Rebind(r.sessions[sid], h, r.hosts[h], c)), r.hosts[h]);
    }
  }

  /** A viewer's hello only makes it known. */
  lemma ViewerHelloOnlyAddsThePeer(r: Registry, c: ConnId, id: PeerIdentity)
    requires id.role == Viewer || id.devicePublicId.None?
    ensures BindPeer(r, c, id) == r.(peers := r.peers[c := id])
  {
  }

  // ---- whole conversations -----------------------------------------------------------------

  /** A free host that can be reached serves a session from intent to end: the offer of the host and the answer of
      the viewer are passed on, each message reaches exactly the party it is for, with the next number, and
      afterwards both tables are what they were, so the host is free again. */
  lemma FreeHostServesASession(r: Registry, req: CreateRequest, now: int, offer: string, answer: string, reason: string)
    requires req.sid !in r.sessions && req.host !in r.busy
    requires req.host in r.hosts && CanSend(r, r.hosts[req.host]) && CanSend(r, req.viewerConn)
    requires r.hosts[req.host] != req.viewerConn && req.num + 5 <= U64_MAX
    ensures var h, n := r.hosts[req.host], req.num;
      var (r1, created) := CreateAfterReap(r, req, now);
      var (r2, accepted) := AcceptAfterReap(r1, h, req.sid, n + 2, now);
      var (r3, offered) := RelayAfterReap(r2, h, Relay(Offer, req.sid, n + 3, offer));
      var (r4, answered) := RelayAfterReap(r3, req.viewerConn, Relay(Answer, req.sid, n + 4, answer));
      var (r5, ended) := EndAfterReap(r4, h, req.sid, n + 5, reason);
      && created.Ok? && accepted.Ok? && offered.Ok? && answered.Ok? && ended.Ok?
      && r5.log == r.log + [Event(SessionIncoming(req.sid, n + 1, req.viewerInfo, req.mode), [h]),
                            Event(SessionAccept(req.sid, n + 2), [req.viewerConn]),
                            Event(Relay(Offer, req.sid, n + 3, offer), [req.viewerConn]),
                            Event(Relay(Answer, req.sid, n + 4, answer), [h]),
                            Event(SessionEnd(req.sid, n + 5, reason), [req.viewerConn])]
      && r5 == r.(log := r5.log)
  {
    var h, n := r.hosts[req.host], req.num;
    var r2 := IntentIsAccepted(r, req, now);
    var r5 := ActiveSessionIsServed(r2, req.sid, h, req.viewerConn, n + 3, offer, answer, reason);
    assert r5.sessions == r.sessions && r5.busy == r.busy;
  }

  lemma IntentIsAccepted(r: Registry, req: CreateRequest, now: int) returns (r2: Registry)
    requires req.sid !in r.sessions && req.host !in r.busy
    requires req.host in r.hosts && CanSend(r, r.hosts[req.host]) && CanSend(r, req.viewerConn)
    requires req.num + 5 <= U64_MAX
    ensures var h := r.hosts[req.host];
      var (r1, created) := CreateAfterReap(r, req, now);
      created.Ok? && AcceptAfterReap(r1, h, req.sid, req.num + 2, now) == (r2, Ok)
    ensures var h := r.hosts[req.host];
      var s := Session(req.sid, req.host, req.hostDeviceId, h, req.viewerConn, req.mode, Active, req.num + 3,
                       now, now + r.activeTtl);
      r2 == r.(busy := r.busy[req.host := req.sid], sessions := r.sessions[req.sid := s], log := r2.log)
    ensures r2.log == r.log + [
        Event(SessionIncoming(req.sid, req.num + 1, req.viewerInfo, req.mode), [r.hosts[req.host]]),
        Event(SessionAccept(req.sid, req.num + 2), [req.viewerConn])]
  {
    Created(r, req, now);
    r2 := AcceptStep(CreateAfterReap(r, req, now).0, req.sid, req.num + 2, now);
  }

  lemma ActiveSessionIsServed(r: Registry, sid: SessionId, h: ConnId, v: ConnId, n: u64,
                              offer: string, answer: string, reason: string) returns (r3: Registry)
    requires sid in r.sessions && r.sessions[sid].hostConn == h && r.sessions[sid].viewerConn == v && h != v
    requires r.sessions[sid].state == Active && r.sessions[sid].nextSeq <= n && n + 2 <= U64_MAX
    requires CanSend(r, h) && CanSend(r, v)
    ensures var (r1, offered) := RelayAfterReap(r, h, Relay(Offer, sid, n, offer));
      var (r2, answered) := RelayAfterReap(r1, v, Relay(Answer, sid, n + 1, answer));
      offered.Ok? && answered.Ok? && EndAfterReap(r2, h, sid, n + 2, reason) == (r3, Ok)
    ensures r3 == r.(log := r3.log, sessions := r.sessions - {sid}, busy := r.busy - {r.sessions[sid].host})
    ensures r3.log == r.log + [Event(Relay(Offer, sid, n, offer), [v]),
                               Event(Relay(Answer, sid, n + 1, answer), [h]),
                               Event(SessionEnd(sid, n + 2, reason), [v])]
  {
    var r1 := RelayStep(r, h, Relay(Offer, sid, n, offer));
    var r2 := RelayStep(r1, v, Relay(Answer, sid, n + 1, answer));
    r3 := EndStep(r2, h, sid, n + 2, reason);
    assert r3.sessions == r.sessions - {sid};
  }

  lemma AcceptStep(r: Registry, sid: SessionId, num: u64, now: int) returns (r1: Registry)
    requires sid in r.sessions && r.sessions[sid].state == Pending && r.sessions[sid].nextSeq <= num < U64_MAX
    requires CanSend(r, r.sessions[sid].viewerConn)
    ensures var s := r.sessions[sid];
      AcceptAfterReap(r, s.hostConn, sid, num, now) == (r1, Ok)
      && r1 == r.(log := r.log + [Event(SessionAccept(sid, num), [s.viewerConn])],
                  sessions := r.sessions[sid := s.(state := Active, expiresAt := now + r.activeTtl,
                                                    nextSeq := num + 1)])
  {
    var s := r.sessions[sid];
    r1 := AcceptAfterReap(r, s.hostConn, sid, num, now).0;
    var s1 := s.(state := Active, expiresAt := now + r.activeTtl, nextSeq := num + 1);
    TakenOne(r.(sessions := r.sessions[sid := s1]), s.viewerConn);
  }

  lemma RelayStep(r: Registry, from: ConnId, msg: SignalMessage) returns (r1: Registry)
    requires msg.Relay? && msg.sid in r.sessions
    requires var s := r.sessions[msg.sid];
      && s.state == Active && s.nextSeq <= msg.num < U64_MAX && (from == s.hostConn || from == s.viewerConn)
      && (msg.kind == Offer ==> from == s.hostConn) && (msg.kind == Answer ==> from != s.hostConn)
    requires CanSend(r, Receiving(r, from, msg.sid))
    ensures var s := r.sessions[msg.sid];
      RelayAfterReap(r, from, msg) == (r1, Ok)
      && r1 == r.(log := r.log + [Event(msg, [Receiving(r, from, msg.sid)])],
                  sessions := r.sessions[msg.sid := s.(nextSeq := msg.num + 1)])
  {
    r1 := RelayAfterReap(r, from, msg).0;
    var s := r.sessions[msg.sid];
    TakenOne(r.(sessions := r.sessions[msg.sid := s.(nextSeq := msg.num + 1)]), Receiving(r, from, msg.sid));
  }

  lemma EndStep(r: Registry, c: ConnId, sid: SessionId, num: u64, why: string) returns (r1: Registry)
    requires sid in r.sessions && r.sessions[sid].state != Closed && r.sessions[sid].nextSeq <= num
    requires c == r.sessions[sid].hostConn || c == r.sessions[sid].viewerConn
    requires CanSend(r, Receiving(r, c, sid))
    ensures EndAfterReap(r, c, sid, num, why) == (r1, Ok) && Removed(r, r1, sid)
    ensures r1.log == r.log + [Event(SessionEnd(sid, num, why), [Receiving(r, c, sid)])]
  {
    r1 := EndAfterReap(r, c, sid, num, why).0;
    var s := r.sessions[sid];
    TakenOne(r.(busy := r.busy - {s.host}, sessions := r.sessions - {sid}), Receiving(r, c, sid));
  }
}
