/** The registry as the program has it: one object whose methods edit five maps in place.  Each
    method is proved to do exactly what the transition of the same name does, for some order in which
    the hash map may have listed the sessions it closes. */
module RegistryService {
  import opened Common
  import opened RegistryModel

  class SessionRegistry {
    const pendingTtl: int
    const activeTtl: int
    var nextConn: ConnId
    var conns: set<ConnId>
    var receivers: set<ConnId>
    var hosts: map<PublicId, ConnId>
    var peers: map<ConnId, PeerIdentity>
    var sessions: map<SessionId, Session>
    var busy: map<PublicId, SessionId>
    var log: seq<Event>

    function State(): Registry
      reads this
    {
      Registry(pendingTtl, activeTtl, nextConn, conns, receivers, hosts, peers, sessions, busy, log)
    }

    constructor (pendingTtl: int, activeTtl: int)
      ensures State() == Initial(pendingTtl, activeTtl)
    {
      this.pendingTtl, this.activeTtl := pendingTtl, activeTtl;
      nextConn, conns, receivers := 1, {}, {};
      hosts, peers, sessions, busy, log := map[], map[], map[], map[], [];
    }

    method RegisterNewConn() returns (id: ConnId)
      modifies this
      ensures id == old(nextConn)
      ensures State() == RegisterConn(old(State()))
    {
      id := nextConn;
      nextConn := nextConn + 1;
      conns := conns + {id};
      receivers := receivers + {id};
    }

    /** Send to one connection if it is registered and its receiver exists. */
    method TrySend(c: ConnId) returns (taken: seq<ConnId>)
      ensures taken == Taken(State(), [c])
    {
      assert [c][1..] == [];
      if c in conns && c in receivers {
        taken := [c];
      } else {
        taken := [];
      }
    }

    method CloseSessionLocked(sid: SessionId, reason: string)
      modifies this
      ensures State() == CloseSession(old(State()), sid, reason)
    {
      if sid !in sessions {
        return;
      }
      var session := sessions[sid];
      sessions := sessions - {sid};
      busy := busy - {session.host};
      if session.state == Closed {
        return;
      }
      var msg := SessionEnd(sid, session.nextSeq, reason);
      var toHost := TrySend(session.hostConn);
      var toViewer := TrySend(session.viewerConn);
      TakenPair(State(), session.hostConn, session.viewerConn);
      log := log + [Event(msg, toHost + toViewer)];
    }

    method ReapExpired(now: int) returns (n: nat, ghost order: seq<SessionId>)
      modifies this
      ensures Enumerates(order, Expired(old(State()), now)) && n == |order|
      ensures State() == Reap(old(State()), order)
    {
      var expired := CollectExpired(now);
      order := expired;
      n := |expired|;
      CloseEach(expired, "session_ttl");
    }

    method CollectExpired(now: int) returns (expired: seq<SessionId>)
      ensures Enumerates(expired, Expired(State(), now))
    {
      expired := [];
      var todo := sessions.Keys;
      while todo != {}
        invariant todo <= sessions.Keys
        invariant Enumerates(expired, Expired(State(), now) - todo)
      {
        var sid :| sid in todo;
        todo := todo - {sid};
        var s := sessions[sid];
        if s.state != Closed && s.expiresAt <= now {
          expired := expired + [sid];
        }
      }
      assert Expired(State(), now) - todo == Expired(State(), now);
    }

    method CloseEach(sids: seq<SessionId>, reason: string)
      modifies this
      ensures State() == CloseAll(old(State()), sids, reason)
    {
      for i := 0 to |sids|
        invariant State() == CloseAll(old(State()), sids[..i], reason)
      {
        assert sids[..i + 1][..i] == sids[..i];
        CloseSessionLocked(sids[i], reason);
      }
      assert sids[..|sids|] == sids;
    }

    method Unregister(c: ConnId) returns (ghost order: seq<SessionId>)
      modifies this
      ensures Enumerates(order, PartyOf(old(State()), c))
      ensures State() == UnregisterConn(old(State()), c, order)
    {
      conns := conns - {c};
      peers := peers - {c};
      var todo := hosts.Keys;
      while todo != {}
        invariant todo <= hosts.Keys
        invariant hosts == map p | p in old(hosts) && (p in todo || old(hosts)[p] != c) :: old(hosts)[p]
        invariant State() == old(State()).(conns := old(conns) - {c}, peers := old(peers) - {c}, hosts := hosts)
      {
        var pid :| pid in todo;
        if hosts[pid] == c {
          hosts := hosts - {pid};
        }
        todo := todo - {pid};
      }
      assert State() == ForgetConn(old(State()), c);
      var affected := CollectParty(c);
      order := affected;
      CloseEach(affected, "peer_disconnected");
    }

    method CollectParty(c: ConnId) returns (affected: seq<SessionId>)
      ensures Enumerates(affected, PartyOf(State(), c))
    {
      affected := [];
      var todo := sessions.Keys;
      while todo != {}
        invariant todo <= sessions.Keys
        invariant Enumerates(affected, PartyOf(State(), c) - todo)
      {
        var sid :| sid in todo;
        todo := todo - {sid};
        if sessions[sid].hostConn == c || sessions[sid].viewerConn == c {
          affected := affected + [sid];
        }
      }
      assert PartyOf(State(), c) - todo == PartyOf(State(), c);
    }

    method Bind(c: ConnId, id: PeerIdentity)
      modifies this
      ensures State() == BindPeer(old(State()), c, id)
    {
      if id.role == Host && id.devicePublicId.Some? {
        Publish(c, id.devicePublicId.value);
      }
      peers := peers[c := id];
    }

    method Publish(c: ConnId, host: PublicId)
      modifies this
      ensures State() == PublishHost(old(State()), c, host)
    {
      var known := host in hosts;
      var prior := if known then hosts[host] else c;
      hosts := hosts[host := c];
      if known && prior != c {
        var todo := sessions.Keys;
        while todo != {}
          invariant todo <= sessions.Keys == old(sessions).Keys
          invariant forall sid :: sid in sessions ==>
            sessions[sid] == if sid in todo then old(sessions)[sid] else Rebind(old(sessions)[sid], host, prior, c)
          invariant State() == old(State()).(hosts := old(hosts)[host := c], sessions := sessions)
        {
          var sid :| sid in todo;
          if sessions[sid].hostConn == prior && sessions[sid].host == host {
            sessions := sessions[sid := sessions[sid].(hostConn := c)];
          }
          todo := todo - {sid};
        }
        assert sessions == map sid | sid in old(sessions) :: Rebind(old(sessions)[sid], host, prior, c);
        if prior in conns {
          var taken := TrySend(prior);
          log := log + [Event(Error("connection_replaced"), taken)];
          conns := conns - {prior};
        }
        peers := peers - {prior};
      }
    }

    method CreatePending(req: CreateRequest, now: int) returns (out: Outcome, ghost order: seq<SessionId>)
      modifies this
      ensures Enumerates(order, Expired(old(State()), now))
      ensures (State(), out) == CreateAfterReap(Reap(old(State()), order), req, now)
    {
      var reaped;
      reaped, order := ReapExpired(now);
      if req.sid in sessions {
        return Err(Error("conflict")), order;
      }
      if req.host in busy {
        return Err(SessionReject(req.sid, SatSucc(req.num), Busy)), order;
      }
      if req.host !in hosts {
        return Err(Error("host_offline")), order;
      }
      var hostConn := hosts[req.host];
      if req.num == U64_MAX || req.num + 1 == U64_MAX {
        return Err(Error("bad_request")), order;
      }
      var session := Session(
        req.sid, req.host, req.hostDeviceId, hostConn, req.viewerConn, req.mode, Pending, req.num + 2,
        now, now + pendingTtl);
      busy := busy[req.host := req.sid];
      sessions := sessions[req.sid := session];
      var taken := TrySend(hostConn);
      assert [hostConn][1..] == [];
      if taken != [] {
        log := log + [Event(SessionIncoming(req.sid, req.num + 1, req.viewerInfo, req.mode), taken)];
        return Ok, order;
      }
      busy := busy - {sessions[req.sid].host};
      sessions := sessions - {req.sid};
      return Err(Error("host_offline")), order;
    }

    method AcceptSession(c: ConnId, sid: SessionId, num: u64, now: int)
      returns (out: Outcome, ghost order: seq<SessionId>)
      modifies this
      ensures Enumerates(order, Expired(old(State()), now))
      ensures (State(), out) == AcceptAfterReap(Reap(old(State()), order), c, sid, num, now)
    {
      var reaped;
      reaped, order := ReapExpired(now);
      var refusal := CheckHost(c, sid, num);
      if refusal.Some? {
        return Err(refusal.value), order;
      }
      var viewer := sessions[sid].viewerConn;
      var s := sessions[sid].(state := Active, expiresAt := now + activeTtl, nextSeq := SatSucc(num));
      sessions := sessions[sid := s];
      var taken := TrySend(viewer);
      log := log + [Event(SessionAccept(sid, num), taken)];
      return Ok, order;
    }

    /** The lookup, party, state and number checks of accept and reject. */
    method CheckHost(c: ConnId, sid: SessionId, num: u64) returns (refusal: Option<SignalMessage>)
      ensures refusal == HostCheck(State(), c, sid, num)
      ensures refusal.None? ==> sid in sessions
    {
      if sid !in sessions {
        return Some(Error("not_found"));
      }
      var session := sessions[sid];
      if session.hostConn != c {
        return Some(Error("unauthorized"));
      }
      if session.state != Pending {
        return Some(Error("invalid_state"));
      }
      if num < session.nextSeq {
        return Some(Error("stale_signal_seq"));
      }
      return None;
    }

    method RejectSession(c: ConnId, sid: SessionId, num: u64, reason: RejectReason, now: int)
      returns (out: Outcome, ghost order: seq<SessionId>)
      modifies this
      ensures Enumerates(order, Expired(old(State()), now))
      ensures (State(), out) == RejectAfterReap(Reap(old(State()), order), c, sid, num, reason)
    {
      var reaped;
      reaped, order := ReapExpired(now);
      var refusal := CheckHost(c, sid, num);
      if refusal.Some? {
        return Err(refusal.value), order;
      }
      var session := sessions[sid];
      busy := busy - {session.host};
      sessions := sessions - {sid};
      var taken := TrySend(session.viewerConn);
      log := log + [Event(SessionReject(sid, num, reason), taken)];
      return Ok, order;
    }

    method EndSession(c: ConnId, sid: SessionId, num: u64, reason: string, now: int)
      returns (out: Outcome, ghost order: seq<SessionId>)
      modifies this
      ensures Enumerates(order, Expired(old(State()), now))
      ensures (State(), out) == EndAfterReap(Reap(old(State()), order), c, sid, num, reason)
    {
      var reaped;
      reaped, order := ReapExpired(now);
      if sid !in sessions {
        return Err(Error("not_found")), order;
      }
      var session := sessions[sid];
      if session.hostConn != c && session.viewerConn != c {
        return Err(Error("unauthorized")), order;
      }
      if session.state == Closed {
        return Ok, order;
      }
      if num < session.nextSeq {
        return Err(Error("stale_signal_seq")), order;
      }
      busy := busy - {session.host};
      sessions := sessions - {sid};
      var peer := if session.hostConn == c then session.viewerConn else session.hostConn;
      var taken := TrySend(peer);
      log := log + [Event(SessionEnd(sid, num, reason), taken)];
      return Ok, order;
    }

    method ForceDisconnect(sid: SessionId, reason: string, now: int) returns (closed: bool, ghost order: seq<SessionId>)
      modifies this
      ensures Enumerates(order, Expired(old(State()), now))
      ensures (State(), closed) == ForceAfterReap(Reap(old(State()), order), sid, reason)
    {
      var reaped;
      reaped, order := ReapExpired(now);
      if sid !in sessions {
        return false, order;
      }
      if sessions[sid].state == Closed {
        sessions := sessions - {sid};
        return false, order;
      }
      CloseSessionLocked(sid, reason);
      return true, order;
    }

    method RelayMediaSignal(from: ConnId, msg: SignalMessage, now: int)
      returns (out: Outcome, ghost order: seq<SessionId>)
      modifies this
      ensures !msg.Relay? ==> out == Err(Error("protocol_error")) && State() == old(State())
      ensures msg.Relay? ==>
        && Enumerates(order, Expired(old(State()), now))
        && (State(), out) == RelayAfterReap(Reap(old(State()), order), from, msg)
    {
      if !msg.Relay? {
        return Err(Error("protocol_error")), [];
      }
      var reaped;
      reaped, order := ReapExpired(now);
      if msg.sid !in sessions {
        return Err(Error("not_found")), order;
      }
      var session := sessions[msg.sid];
      if session.hostConn != from && session.viewerConn != from {
        return Err(Error("unauthorized")), order;
      }
      if session.state != Active {
        return Err(Error("invalid_state")), order;
      }
      if msg.num < session.nextSeq {
        if msg.kind == Ice {
          return Ok, order;
        }
        return Err(Error("stale_signal_seq")), order;
      }
      var isHost := session.hostConn == from;
      if (msg.kind == Offer && !isHost) || (msg.kind == Answer && isHost) {
        return Err(Error("unauthorized")), order;
      }
      var peer := if isHost then session.viewerConn else session.hostConn;
      sessions := sessions[msg.sid := session.(nextSeq := SatSucc(msg.num))];
      var taken := TrySend(peer);
      assert [peer][1..] == [];
      log := log + [Event(msg, taken)];
      out := if taken == [] then Err(Error("peer_offline")) else Ok;
    }
  }

  /** Sending to two connections one after the other. */
  lemma TakenPair(r: Registry, a: ConnId, b: ConnId)
    ensures Taken(r, [a, b]) == Taken(r, [a]) + Taken(r, [b])
  {
    assert [a, b][1..] == [b];
    assert [a][1..] == [] && [b][1..] == [];
  }
}
