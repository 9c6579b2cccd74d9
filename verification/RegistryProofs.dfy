/** What every run of the session registry keeps: the maps agree with each other, locks expire,
    and the messages of one session lifetime form a strictly numbered protocol conversation. */
module RegistryProofs {
  import opened Common
  import opened RegistryModel

  // ---- the invariant over the maps ---------------------------------------------------------

  /** The session table and the lock table are inverse to each other. */
  ghost predicate Locked(r: Registry) {
    && (forall sid :: sid in r.sessions ==> r.sessions[sid].host in r.busy && r.busy[r.sessions[sid].host] == sid)
    && (forall h :: h in r.busy ==> r.busy[h] in r.sessions && r.sessions[r.busy[h]].host == h)
  }

  /** One stored session agrees with the published presence and the TTLs. */
  ghost predicate GoodSession(r: Registry, sid: SessionId, s: Session) {
    && s.sid == sid
    && s.host in r.hosts && r.hosts[s.host] == s.hostConn
    && Bounded(r, s)
  }

  /** A pending session holds the lock for exactly the pending TTL; accepting it adds less than the
      active TTL.  No stored session is Closed. */
  ghost predicate Bounded(r: Registry, s: Session) {
    match s.state
    case Pending => s.expiresAt == s.createdAt + r.pendingTtl
    case Active => s.expiresAt < s.createdAt + r.pendingTtl + r.activeTtl
    case Closed => false
  }

  ghost predicate Consistent(r: Registry) {
    Locked(r) && forall sid :: sid in r.sessions ==> GoodSession(r, sid, r.sessions[sid])
  }

  // ---- the conversation of one session id --------------------------------------------------

  /** Where a session id stands after a prefix of the log. */
  datatype Track = Idle | Live(phase: SessionState, last: u64)

  predicate Scoped(m: SignalMessage) {
    !m.Error? && !m.OtherMessage?
  }

  predicate About(m: SignalMessage, sid: SessionId) {
    Scoped(m) && m.sid == sid
  }

  function Advance(m: SignalMessage): Track
    requires Scoped(m)
  {
    match m
    case SessionIncoming(_, n, _, _) => Live(Pending, n)
    case SessionAccept(_, n) => Live(Active, n)
    case Relay(_, _, n, _) => Live(Active, n)
    case SessionReject(_, _, _) => Idle
    case SessionEnd(_, _, _) => Idle
  }

  function TrackOf(log: seq<Event>, sid: SessionId): Track {
    if log == [] then Idle
    else
      var m := log[|log| - 1].msg;
      if About(m, sid) then Advance(m) else TrackOf(log[..|log| - 1], sid)
  }

  /** The number is above everything sent before in this lifetime; at 2^64 - 1 it may repeat. */
  predicate Newer(t: Track, n: u64)
    requires t.Live?
  {
    n >= SatSucc(t.last)
  }

  /** Incoming, then Reject or End, or Accept followed by relays and one End. */
  predicate Admissible(t: Track, m: SignalMessage)
    requires Scoped(m)
  {
    match m
    case SessionIncoming(_, _, _, _) => t.Idle?
    case SessionAccept(_, n) => t.Live? && t.phase == Pending && Newer(t, n)
    case SessionReject(_, n, _) => t.Live? && t.phase == Pending && Newer(t, n)
    case Relay(_, _, n, _) => t.Live? && t.phase == Active && Newer(t, n)
    case SessionEnd(_, n, _) => t.Live? && Newer(t, n)
  }

  ghost predicate GoodLog(log: seq<Event>) {
    forall i :: 0 <= i < |log| && Scoped(log[i].msg) ==> Admissible(TrackOf(log[..i], log[i].msg.sid), log[i].msg)
  }

  /** The session table is what the log says: same live ids, same phase, same next number. */
  ghost predicate Agrees(t: Track, sessions: map<SessionId, Session>, sid: SessionId) {
    if sid in sessions
    then t.Live? && t.phase == sessions[sid].state && sessions[sid].nextSeq == SatSucc(t.last)
    else t.Idle?
  }

  ghost predicate LogAgrees(r: Registry) {
    forall sid :: Agrees(TrackOf(r.log, sid), r.sessions, sid)
  }

  ghost predicate Inv(r: Registry) {
    Consistent(r) && GoodLog(r.log) && LogAgrees(r)
  }

  // ---- appending to the log ----------------------------------------------------------------

  lemma TrackAppend(log: seq<Event>, e: Event, sid: SessionId)
    ensures TrackOf(log + [e], sid) == if About(e.msg, sid) then Advance(e.msg) else TrackOf(log, sid)
  {
    assert (log + [e])[..|log|] == log;
  }

  lemma GoodLogAppend(log: seq<Event>, e: Event)
    requires GoodLog(log)
    requires Scoped(e.msg) ==> Admissible(TrackOf(log, e.msg.sid), e.msg)
    ensures GoodLog(log + [e])
  {
    var l1 := log + [e];
    forall i | 0 <= i < |l1| && Scoped(l1[i].msg)
      ensures Admissible(TrackOf(l1[..i], l1[i].msg.sid), l1[i].msg)
    {
      assert l1[..i] == log[..i];
      if i == |log| { assert log[..i] == log; }
    }
  }

  /** One event about `sid` moves only that id's track. */
  lemma LogStep(r: Registry, r1: Registry, e: Event, sid: SessionId)
    requires GoodLog(r.log) && LogAgrees(r)
    requires r1.log == r.log + [e] && About(e.msg, sid)
    requires Admissible(TrackOf(r.log, sid), e.msg)
    requires forall x :: x != sid ==> (x in r1.sessions <==> x in r.sessions)
    requires forall x :: x != sid && x in r.sessions ==>
      r1.sessions[x].state == r.sessions[x].state && r1.sessions[x].nextSeq == r.sessions[x].nextSeq
    requires Agrees(Advance(e.msg), r1.sessions, sid)
    ensures GoodLog(r1.log) && LogAgrees(r1)
  {
    GoodLogAppend(r.log, e);
    forall x ensures Agrees(TrackOf(r1.log, x), r1.sessions, x) {
      TrackAppend(r.log, e, x);
      assert Agrees(TrackOf(r.log, x), r.sessions, x);
    }
  }

  // ---- closing -----------------------------------------------------------------------------

  /** The sessions outside `gone`. */
  function SessionsLeft(sessions: map<SessionId, Session>, gone: seq<SessionId>): map<SessionId, Session> {
    map x | x in sessions && x !in gone :: sessions[x]
  }

  /** The locks not held by a session in `gone`. */
  function LocksLeft(busy: map<PublicId, SessionId>, gone: seq<SessionId>): map<PublicId, SessionId> {
    map h | h in busy && busy[h] !in gone :: busy[h]
  }

  /** Nothing but sessions, locks and the log differs, and the log only grows. */
  ghost predicate OnlyClosed(r: Registry, r1: Registry) {
    && r1.conns == r.conns && r1.receivers == r.receivers && r1.nextConn == r.nextConn
    && r1.hosts == r.hosts && r1.peers == r.peers
    && r1.pendingTtl == r.pendingTtl && r1.activeTtl == r.activeTtl
    && r.log <= r1.log
  }

  lemma LeftNone(r: Registry)
    ensures SessionsLeft(r.sessions, []) == r.sessions
    ensures LocksLeft(r.busy, []) == r.busy
  {
  }

  /** Closing one more session of a list removes it and, because the lock table is the inverse of the
      session table, exactly its lock. */
  lemma LeftOneMore(r: Registry, gone: seq<SessionId>, sid: SessionId, sessions: map<SessionId, Session>,
                    busy: map<PublicId, SessionId>)
    requires Locked(r)
    requires sessions == SessionsLeft(r.sessions, gone) && busy == LocksLeft(r.busy, gone)
    ensures sid in sessions ==> sessions - {sid} == SessionsLeft(r.sessions, gone + [sid])
    ensures sid in sessions ==> busy - {sessions[sid].host} == LocksLeft(r.busy, gone + [sid])
    ensures sid !in sessions ==> sessions == SessionsLeft(r.sessions, gone + [sid])
    ensures sid !in sessions ==> busy == LocksLeft(r.busy, gone + [sid])
  {
    forall h | h in r.busy && r.busy[h] == sid ensures sid in r.sessions && h == r.sessions[sid].host {}
  }

  /** Needs only that locks and sessions are inverse, not that the presence map agrees: while the
      sessions of a dropped connection are being closed, that map is already smaller. */
  lemma {:induction false} CloseAllEffect(r: Registry, order: seq<SessionId>, reason: string)
    requires Locked(r)
    ensures CloseAll(r, order, reason).sessions == SessionsLeft(r.sessions, order)
    ensures CloseAll(r, order, reason).busy == LocksLeft(r.busy, order)
    ensures OnlyClosed(r, CloseAll(r, order, reason))
  {
    if order == [] {
      LeftNone(r);
    } else {
      var n := |order| - 1;
      var r0 := CloseAll(r, order[..n], reason);
      CloseAllEffect(r, order[..n], reason);
      LeftOneMore(r, order[..n], order[n], r0.sessions, r0.busy);
      assert order == order[..n] + [order[n]];
    }
  }

  lemma CloseKeepsLog(r: Registry, sid: SessionId, reason: string)
    requires GoodLog(r.log) && LogAgrees(r)
    requires sid in r.sessions ==> r.sessions[sid].state != Closed
    ensures GoodLog(CloseSession(r, sid, reason).log) && LogAgrees(CloseSession(r, sid, reason))
  {
    if sid in r.sessions {
      var r1 := CloseSession(r, sid, reason);
      assert Agrees(TrackOf(r.log, sid), r.sessions, sid);
      LogStep(r, r1, r1.log[|r.log|], sid);
    }
  }

  lemma {:induction false} CloseAllKeepsLog(r: Registry, order: seq<SessionId>, reason: string)
    requires Locked(r) && GoodLog(r.log) && LogAgrees(r)
    requires forall sid :: sid in r.sessions ==> r.sessions[sid].state != Closed
    ensures GoodLog(CloseAll(r, order, reason).log) && LogAgrees(CloseAll(r, order, reason))
  {
    if order != [] {
      var n := |order| - 1;
      CloseAllKeepsLog(r, order[..n], reason);
      CloseAllEffect(r, order[..n], reason);
      CloseKeepsLog(CloseAll(r, order[..n], reason), order[n], reason);
    }
  }

  lemma CloseAllKeepsInv(r: Registry, order: seq<SessionId>, reason: string)
    requires Inv(r)
    ensures Inv(CloseAll(r, order, reason))
  {
    NoneClosed(r);
    CloseAllEffect(r, order, reason);
    CloseAllKeepsLog(r, order, reason);
    var r1 := CloseAll(r, order, reason);
    forall x | x in r1.sessions ensures GoodSession(r1, x, r1.sessions[x]) {
      assert GoodSession(r, x, r.sessions[x]);
    }
  }

  lemma NoneClosed(r: Registry)
    requires Consistent(r)
    ensures forall sid :: sid in r.sessions ==> r.sessions[sid].state != Closed
  {
    assert forall sid :: sid in r.sessions ==> GoodSession(r, sid, r.sessions[sid]);
  }

  /** Forgetting a connection first and closing its sessions afterwards ends in a consistent state,
      because exactly the sessions whose host socket was forgotten are among the closed ones. */
  lemma UnregisterKeepsInv(r: Registry, c: ConnId, order: seq<SessionId>)
    requires Inv(r) && Enumerates(order, PartyOf(r, c))
    ensures Inv(UnregisterConn(r, c, order))
  {
    var f := ForgetConn(r, c);
    NoneClosed(r);
    ForgetKeepsLog(r, c);
    CloseAllEffect(f, order, "peer_disconnected");
    CloseAllKeepsLog(f, order, "peer_disconnected");
    var r1 := UnregisterConn(r, c, order);
    forall x | x in r1.sessions ensures GoodSession(r1, x, r1.sessions[x]) {
      assert GoodSession(r, x, r.sessions[x]);
      assert x !in PartyOf(r, c);
    }
  }

  lemma ForgetKeepsLog(r: Registry, c: ConnId)
    requires Inv(r)
    ensures GoodLog(ForgetConn(r, c).log) && LogAgrees(ForgetConn(r, c))
  {
    var f := ForgetConn(r, c);
    forall sid ensures Agrees(TrackOf(f.log, sid), f.sessions, sid) {
      assert Agrees(TrackOf(r.log, sid), r.sessions, sid);
    }
  }

  // ---- the operations ----------------------------------------------------------------------

  lemma CreateKeepsInv(r: Registry, req: CreateRequest, now: int)
    requires Inv(r)
    ensures Inv(CreateAfterReap(r, req, now).0)
  {
    var r1 := CreateAfterReap(r, req, now).0;
    if CreateAfterReap(r, req, now).1.Ok? {
      assert Agrees(TrackOf(r.log, req.sid), r.sessions, req.sid);
      LogStep(r, r1, r1.log[|r.log|], req.sid);
      forall x | x in r1.sessions ensures GoodSession(r1, x, r1.sessions[x]) {
        if x != req.sid { assert GoodSession(r, x, r.sessions[x]); }
      }
    } else {
      FailedCreateChangesNothing(r, req, now);
    }
  }

  /** The rollback after an undeliverable session_incoming restores the state exactly. */
  lemma FailedCreateChangesNothing(r: Registry, req: CreateRequest, now: int)
    ensures CreateAfterReap(r, req, now).1.Err? ==> CreateAfterReap(r, req, now).0 == r
  {
    if req.sid !in r.sessions && req.host !in r.busy && req.host in r.hosts && req.num < U64_MAX - 1 {
      var s := NewSession(r, req, r.hosts[req.host], req.num + 2, now);
      assert r.sessions[req.sid := s] - {req.sid} == r.sessions;
      assert r.busy[req.host := req.sid] - {req.host} == r.busy;
    }
  }

  /** A session replaced by one with the same id, host, connections and no longer lock. */
  lemma UpdateKeepsConsistent(r: Registry, r1: Registry, sid: SessionId)
    requires Consistent(r) && sid in r.sessions && sid in r1.sessions
    requires r1.sessions == r.sessions[sid := r1.sessions[sid]]
    requires r1.busy == r.busy && r1.hosts == r.hosts
    requires GoodSession(r1, sid, r1.sessions[sid]) && r1.sessions[sid].host == r.sessions[sid].host
    requires r1.pendingTtl == r.pendingTtl && r1.activeTtl == r.activeTtl
    ensures Consistent(r1)
  {
    forall x | x in r1.sessions ensures GoodSession(r1, x, r1.sessions[x]) {
      if x != sid { assert GoodSession(r, x, r.sessions[x]); }
    }
  }

  /** Taking one session and its lock out. */
  lemma RemoveKeepsConsistent(r: Registry, r1: Registry, sid: SessionId)
    requires Consistent(r) && sid in r.sessions
    requires r1.sessions == r.sessions - {sid} && r1.busy == r.busy - {r.sessions[sid].host}
    requires r1.hosts == r.hosts && r1.pendingTtl == r.pendingTtl && r1.activeTtl == r.activeTtl
    ensures Consistent(r1)
  {
    assert GoodSession(r, sid, r.sessions[sid]);
    forall x | x in r1.sessions ensures GoodSession(r1, x, r1.sessions[x]) {
      assert GoodSession(r, x, r.sessions[x]);
    }
  }

  /** Accepting needs the reap before it: an unexpired pending session is what bounds the active one. */
  lemma AcceptKeepsInv(r: Registry, c: ConnId, sid: SessionId, num: u64, now: int)
    requires Inv(r)
    requires Expired(r, now) == {}
    ensures Inv(AcceptAfterReap(r, c, sid, num, now).0)
  {
    if HostCheck(r, c, sid, num).None? {
      var r1 := AcceptAfterReap(r, c, sid, num, now).0;
      assert GoodSession(r, sid, r.sessions[sid]);
      assert sid !in Expired(r, now);
      assert Agrees(TrackOf(r.log, sid), r.sessions, sid);
      LogStep(r, r1, r1.log[|r.log|], sid);
      UpdateKeepsConsistent(r, r1, sid);
    }
  }

  lemma RejectKeepsInv(r: Registry, c: ConnId, sid: SessionId, num: u64, reason: RejectReason)
    requires Inv(r)
    ensures Inv(RejectAfterReap(r, c, sid, num, reason).0)
  {
    if HostCheck(r, c, sid, num).None? {
      var r1 := RejectAfterReap(r, c, sid, num, reason).0;
      assert Agrees(TrackOf(r.log, sid), r.sessions, sid);
      LogStep(r, r1, r1.log[|r.log|], sid);
      RemoveKeepsConsistent(r, r1, sid);
    }
  }

  lemma EndKeepsInv(r: Registry, c: ConnId, sid: SessionId, num: u64, why: string)
    requires Inv(r)
    ensures Inv(EndAfterReap(r, c, sid, num, why).0)
  {
    var r1 := EndAfterReap(r, c, sid, num, why).0;
    if r1 != r {
      assert GoodSession(r, sid, r.sessions[sid]);
      assert Agrees(TrackOf(r.log, sid), r.sessions, sid);
      LogStep(r, r1, r1.log[|r.log|], sid);
      RemoveKeepsConsistent(r, r1, sid);
    }
  }

  lemma RelayKeepsInv(r: Registry, from: ConnId, msg: SignalMessage)
    requires Inv(r) && msg.Relay?
    ensures Inv(RelayAfterReap(r, from, msg).0)
  {
    var r1 := RelayAfterReap(r, from, msg).0;
    if r1 != r {
      assert GoodSession(r, msg.sid, r.sessions[msg.sid]);
      assert Agrees(TrackOf(r.log, msg.sid), r.sessions, msg.sid);
      LogStep(r, r1, r1.log[|r.log|], msg.sid);
      UpdateKeepsConsistent(r, r1, msg.sid);
    }
  }

  /** Only an invariant that excludes stored Closed sessions makes this hold: the branch for them keeps the lock. */
  lemma ForceKeepsInv(r: Registry, sid: SessionId, why: string)
    requires Inv(r)
    ensures Inv(ForceAfterReap(r, sid, why).0)
  {
    if sid in r.sessions {
      assert GoodSession(r, sid, r.sessions[sid]);
      CloseAllKeepsInv(r, [sid], why);
      assert CloseAll(r, [sid], why) == CloseSession(CloseAll(r, [], why), sid, why);
    }
  }

  lemma BindKeepsInv(r: Registry, c: ConnId, id: PeerIdentity)
    requires Inv(r)
    ensures Inv(BindPeer(r, c, id))
  {
    if id.role == Host && id.devicePublicId.Some? {
      PublishKeepsInv(r, c, id.devicePublicId.value);
      SameTables(PublishHost(r, c, id.devicePublicId.value), BindPeer(r, c, id));
    } else {
      SameTables(r, BindPeer(r, c, id));
    }
  }

  /** Replacing a host's socket moves its sessions along, whatever the old socket was. */
  lemma PublishKeepsInv(r: Registry, c: ConnId, host: PublicId)
    requires Inv(r)
    ensures Inv(PublishHost(r, c, host))
  {
    var r1 := PublishHost(r, c, host);
    PublishKeepsConsistent(r, c, host);
    forall sid ensures Agrees(TrackOf(r.log, sid), r1.sessions, sid) {
      assert Agrees(TrackOf(r.log, sid), r.sessions, sid);
    }
    if r1.log != r.log {
      UnscopedEvent(r, r1, r1.log[|r.log|]);
    }
  }

  lemma PublishKeepsConsistent(r: Registry, c: ConnId, host: PublicId)
    requires Consistent(r)
    ensures Consistent(PublishHost(r, c, host))
  {
    var r1 := PublishHost(r, c, host);
    forall x | x in r1.sessions ensures GoodSession(r1, x, r1.sessions[x]) {
      assert GoodSession(r, x, r.sessions[x]);
    }
  }

  lemma UnscopedEvent(r: Registry, r1: Registry, e: Event)
    requires GoodLog(r.log) && !Scoped(e.msg) && r1.log == r.log + [e]
    requires forall sid :: Agrees(TrackOf(r.log, sid), r1.sessions, sid)
    ensures GoodLog(r1.log) && LogAgrees(r1)
  {
    GoodLogAppend(r.log, e);
    forall sid ensures Agrees(TrackOf(r1.log, sid), r1.sessions, sid) {
      TrackAppend(r.log, e, sid);
    }
  }

  // ---- the main theorem --------------------------------------------------------------------

  lemma ReapLeavesNoneExpired(r: Registry, now: int, order: seq<SessionId>)
    requires Inv(r) && Enumerates(order, Expired(r, now))
    ensures Inv(Reap(r, order)) && Expired(Reap(r, order), now) == {}
  {
    CloseAllKeepsInv(r, order, "session_ttl");
    CloseAllEffect(r, order, "session_ttl");
  }

  lemma StepKeepsInv(r: Registry, st: Step)
    requires Inv(r) && Enabled(r, st)
    ensures Inv(Apply(r, st))
  {
    match st
    case Register => SameTables(r, Apply(r, st));
    case DropReceiver(c) => SameTables(r, Apply(r, st));
    case Bind(c, id) => BindKeepsInv(r, c, id);
    case Unregister(c, order) => UnregisterKeepsInv(r, c, order);
    case ReapStep(now, order) => ReapLeavesNoneExpired(r, now, order);
    case Create(req, now, order) =>
      ReapLeavesNoneExpired(r, now, order);
      CreateKeepsInv(Reap(r, order), req, now);
    case Accept(c, sid, num, now, order) =>
      ReapLeavesNoneExpired(r, now, order);
      AcceptKeepsInv(Reap(r, order), c, sid, num, now);
    case Reject(c, sid, num, reason, now, order) =>
      ReapLeavesNoneExpired(r, now, order);
      RejectKeepsInv(Reap(r, order), c, sid, num, reason);
    case End(c, sid, num, why, now, order) =>
      ReapLeavesNoneExpired(r, now, order);
      EndKeepsInv(Reap(r, order), c, sid, num, why);
    case Force(sid, why, now, order) =>
      ReapLeavesNoneExpired(r, now, order);
      ForceKeepsInv(Reap(r, order), sid, why);
    case RelaySignal(c, msg, now, order) =>
      if msg.Relay? {
        ReapLeavesNoneExpired(r, now, order);
        RelayKeepsInv(Reap(r, order), c, msg);
      }
  }

  lemma SameTables(r: Registry, r1: Registry)
    requires Inv(r)
    requires r1.sessions == r.sessions && r1.busy == r.busy && r1.hosts == r.hosts && r1.log == r.log
    requires r1.pendingTtl == r.pendingTtl && r1.activeTtl == r.activeTtl
    ensures Inv(r1)
  {
    forall x | x in r1.sessions ensures GoodSession(r1, x, r1.sessions[x]) {
      assert GoodSession(r, x, r.sessions[x]);
    }
    forall sid ensures Agrees(TrackOf(r1.log, sid), r1.sessions, sid) {
      assert Agrees(TrackOf(r.log, sid), r.sessions, sid);
    }
  }

  /** Every reachable state of the registry satisfies the invariant. */
  lemma {:induction false} EveryRunKeepsInv(pendingTtl: int, activeTtl: int, steps: seq<Step>)
    requires ValidRun(Initial(pendingTtl, activeTtl), steps)
    ensures Inv(Run(Initial(pendingTtl, activeTtl), steps))
  {
    if steps != [] {
      var n := |steps| - 1;
      EveryRunKeepsInv(pendingTtl, activeTtl, steps[..n]);
      StepKeepsInv(Run(Initial(pendingTtl, activeTtl), steps[..n]), steps[n]);
    }
  }
}
