/** Consequences of the registry invariant, stated for every reachable state. */
module RegistryTheorems {
  import opened Common
  import opened RegistryModel
  import opened RegistryProofs

  ghost predicate Reachable(r: Registry) {
    exists p, a, steps :: ValidRun(Initial(p, a), steps) && r == Run(Initial(p, a), steps)
  }

  lemma ReachableInv(r: Registry)
    requires Reachable(r)
    ensures Inv(r)
  {
    var p, a, steps :| ValidRun(Initial(p, a), steps) && r == Run(Initial(p, a), steps);
    EveryRunKeepsInv(p, a, steps);
  }

  // ---- the busy lock -----------------------------------------------------------------------

  /** The session table and the busy lock are inverse to each other, every session's host socket is the
      published one, and no stored session is Closed. */
  lemma LockIsInverseOfSessions(r: Registry)
    requires Reachable(r)
    ensures forall h, sid :: (h in r.busy && r.busy[h] == sid) <==> (sid in r.sessions && r.sessions[sid].host == h)
    ensures forall sid :: sid in r.sessions ==>
      && r.sessions[sid].state != Closed
      && r.sessions[sid].host in r.hosts && r.hosts[r.sessions[sid].host] == r.sessions[sid].hostConn
  {
    ReachableInv(r);
    assert forall sid :: sid in r.sessions ==> GoodSession(r, sid, r.sessions[sid]);
  }

  lemma OneSessionPerHost(r: Registry, a: SessionId, b: SessionId)
    requires Reachable(r) && a in r.sessions && b in r.sessions
    ensures r.sessions[a].host == r.sessions[b].host ==> a == b
  {
    ReachableInv(r);
    assert GoodSession(r, a, r.sessions[a]) && GoodSession(r, b, r.sessions[b]);
  }

  // ---- numbering ---------------------------------------------------------------------------

  predicate Terminal(m: SignalMessage) {
    m.SessionReject? || m.SessionEnd?
  }

  /** Positions i < j carry messages of one lifetime of `sid`: no session_incoming starts another in between. */
  ghost predicate SameLifetime(log: seq<Event>, sid: SessionId, i: nat, j: nat) {
    && i < j < |log|
    && About(log[i].msg, sid) && About(log[j].msg, sid)
    && forall k :: i < k <= j && About(log[k].msg, sid) ==> !log[k].msg.SessionIncoming?
  }

  /** Within a lifetime the numbers never fall, a later message comes only after a non-terminal one,
      and they strictly rise exactly when the earlier number is below 2^64 - 1. */
  lemma {:induction false} NumbersRise(log: seq<Event>, sid: SessionId, i: nat, j: nat)
    requires GoodLog(log) && SameLifetime(log, sid, i, j)
    ensures !Terminal(log[i].msg)
    ensures log[i].msg.num <= log[j].msg.num
    ensures log[i].msg.num < log[j].msg.num <==> log[i].msg.num < U64_MAX
    decreases j
  {
    var p := LastAbout(log, sid, i, j);
    assert Admissible(TrackOf(log[..j], sid), log[j].msg);
    if p != i {
      NumbersRise(log, sid, i, p);
    }
  }

  /** The last message about `sid` before j decides the track there. */
  lemma {:induction false} LastAbout(log: seq<Event>, sid: SessionId, i: nat, j: nat) returns (p: nat)
    requires i < j <= |log| && About(log[i].msg, sid)
    ensures i <= p < j && About(log[p].msg, sid) && TrackOf(log[..j], sid) == Advance(log[p].msg)
    decreases j
  {
    if About(log[j - 1].msg, sid) {
      p := j - 1;
    } else {
      p := LastAbout(log, sid, i, j - 1);
      assert log[..j][..j - 1] == log[..j - 1];
    }
  }

  /** The messages about `sid` that connection `c` took, from one position of the log on. */
  function Delivered(log: seq<Event>, sid: SessionId, c: ConnId, from: nat): seq<SignalMessage> {
    if |log| <= from then []
    else
      var e := log[|log| - 1];
      Delivered(log[..|log| - 1], sid, c, from) + if About(e.msg, sid) && c in e.to then [e.msg] else []
  }

  /** Two messages of the stream, found in the log. */
  lemma {:induction false} DeliveredFrom(log: seq<Event>, sid: SessionId, c: ConnId, from: nat, a: nat, b: nat)
    returns (i: nat, j: nat)
    requires a <= b < |Delivered(log, sid, c, from)|
    ensures from <= i <= j < |log| && (a < b ==> i < j)
    ensures About(log[i].msg, sid) && log[i].msg == Delivered(log, sid, c, from)[a]
    ensures About(log[j].msg, sid) && log[j].msg == Delivered(log, sid, c, from)[b]
  {
    var n := |log| - 1;
    var front := Delivered(log[..n], sid, c, from);
    if b < |front| {
      i, j := DeliveredFrom(log[..n], sid, c, from, a, b);
    } else if a == b {
      i, j := n, n;
    } else {
      i, j := DeliveredFrom(log[..n], sid, c, from, a, a);
      j := n;
    }
  }

  /** What one recipient gets of one lifetime: a stream whose numbers strictly increase below the ceiling and in
      which nothing follows the terminal message. */
  lemma RecipientStream(r: Registry, sid: SessionId, c: ConnId, from: nat, to: nat, a: nat, b: nat)
    requires Reachable(r) && from <= to <= |r.log|
    requires forall k :: from < k < to && About(r.log[k].msg, sid) ==> !r.log[k].msg.SessionIncoming?
    requires a < b < |Delivered(r.log[..to], sid, c, from)|
    ensures var stream := Delivered(r.log[..to], sid, c, from);
      && Scoped(stream[a]) && Scoped(stream[b])
      && !Terminal(stream[a])
      && (stream[a].num < stream[b].num <==> stream[a].num < U64_MAX)
  {
    ReachableInv(r);
    var i, j := DeliveredFrom(r.log[..to], sid, c, from, a, b);
    assert r.log[..to][i] == r.log[i] && r.log[..to][j] == r.log[j];
    NumbersRise(r.log, sid, i, j);
  }

  /** At the ceiling the counter stops: the same relay is taken twice with the same number. */
  lemma CeilingRepeats(r: Registry, sid: SessionId, body: string)
    requires sid in r.sessions && r.sessions[sid].state == Active && r.sessions[sid].nextSeq == U64_MAX
    ensures var m := Relay(Stats, sid, U64_MAX, body);
      var r1 := RelayAfterReap(r, r.sessions[sid].hostConn, m).0;
      var r2 := RelayAfterReap(r1, r.sessions[sid].hostConn, m).0;
      |r2.log| == |r.log| + 2 && r2.log[|r.log|].msg == m && r2.log[|r.log| + 1].msg == m
  {
  }

  lemma ReachableStep(r: Registry, st: Step)
    requires Reachable(r) && Enabled(r, st)
    ensures Reachable(Apply(r, st))
  {
    var p, a, steps :| ValidRun(Initial(p, a), steps) && r == Run(Initial(p, a), steps);
    assert (steps + [st])[..|steps|] == steps;
    assert ValidRun(Initial(p, a), steps + [st]) && Apply(r, st) == Run(Initial(p, a), steps + [st]);
  }

  lemma Published() returns (r: Registry)
    ensures Reachable(r) && r.hosts == map["h" := 1] && r.sessions == map[] && r.busy == map[]
    ensures CanSend(r, 1) && r.pendingTtl == 120 && r.nextConn == 2
  {
    r := Initial(120, 28800);
    assert ValidRun(r, []) && r == Run(r, []);
    ReachableStep(r, Register);
    r := Apply(r, Register);
    var hello := Bind(1, PeerIdentity(Host, Some("h"), Some(7), false));
    ReachableStep(r, hello);
    r := Apply(r, hello);
  }

  /** The ceiling is reachable: an accept may carry any number, so one accept leads there. */
  lemma CeilingIsReachable() returns (r: Registry)
    ensures Reachable(r)
    ensures "s" in r.sessions && r.sessions["s"].state == Active && r.sessions["s"].nextSeq == U64_MAX
  {
    r := Published();
    ReachableStep(r, Register);
    r := Apply(r, Register);
    assert 2 in r.conns && Expired(r, 0) == {};
    var intent := Create(CreateRequest(2, "s", "h", 7, Otp, 0, ""), 0, []);
    ReachableStep(r, intent);
    r := Apply(r, intent);
    assert r.sessions == map["s" := Session("s", "h", 7, 1, 2, Otp, Pending, 2, 0, 120)];
    AcceptAtCeiling(r);
    r := Apply(r, Accept(1, "s", U64_MAX, 0, []));
  }

  lemma AcceptAtCeiling(r: Registry)
    requires Reachable(r)
    requires r.sessions == map["s" := Session("s", "h", 7, 1, 2, Otp, Pending, 2, 0, 120)]
    ensures var r1 := Apply(r, Accept(1, "s", U64_MAX, 0, []));
      Reachable(r1) && "s" in r1.sessions && r1.sessions["s"].state == Active && r1.sessions["s"].nextSeq == U64_MAX
  {
    assert Expired(r, 0) == {};
    ReachableStep(r, Accept(1, "s", U64_MAX, 0, []));
  }

  /** Relaying answers Ok in two cases only: the message went out verbatim to the other party, or it was
      a stale ICE candidate and nothing at all changed.  "peer_offline" still uses the number up. */
  lemma RelayOutcome(r: Registry, from: ConnId, msg: SignalMessage)
    requires msg.Relay? && Reachable(r)
    ensures var (r1, out) := RelayAfterReap(r, from, msg);
      && (out.Ok? ==>
          || (r1 == r && msg.kind == Ice && msg.sid in r.sessions && msg.num < r.sessions[msg.sid].nextSeq)
          || (&& msg.sid in r.sessions && msg.num >= r.sessions[msg.sid].nextSeq
              && r1.log == r.log + [Event(msg, [OtherParty(r.sessions[msg.sid], from)])]
              && r1.sessions[msg.sid].nextSeq == SatSucc(msg.num)))
      && (out.Err? ==> (r1 != r <==> (out.reply == Error("peer_offline") && r1.log == r.log + [Event(msg, [])])))
  {
    if msg.sid in r.sessions {
      var s := r.sessions[msg.sid];
      TakenOne(r.(sessions := r.sessions[msg.sid := s.(nextSeq := SatSucc(msg.num))]), OtherParty(s, from));
    }
    assert |r.log + [Event(msg, [])]| == |r.log| + 1;
  }

  lemma TakenOne(r: Registry, c: ConnId)
    ensures Taken(r, [c]) == if CanSend(r, c) then [c] else []
  {
    assert [c][1..] == [];
  }

  // ---- expiry ------------------------------------------------------------------------------

  function Max(a: int, b: int): int {
    if a < b then b else a
  }

  /** A reap at `now` leaves exactly the unexpired sessions, each unchanged. */
  lemma ReapKeepsTheUnexpired(r: Registry, now: int, order: seq<SessionId>)
    requires Reachable(r) && Enumerates(order, Expired(r, now))
    ensures Reap(r, order).sessions == map sid | sid in r.sessions && r.sessions[sid].expiresAt > now :: r.sessions[sid]
  {
    ReachableInv(r);
    NoneClosed(r);
    CloseAllEffect(r, order, "session_ttl");
    assert forall sid :: sid in r.sessions ==> (sid in order <==> sid in Expired(r, now));
  }

  /** The count it returns is the number of sessions it closed. */
  lemma ReapCounts(r: Registry, now: int, order: seq<SessionId>)
    requires Reachable(r) && Enumerates(order, Expired(r, now))
    ensures |order| == |r.sessions| - |Reap(r, order).sessions|
  {
    ReachableInv(r);
    CloseAllEffect(r, order, "session_ttl");
    EnumerationSize(order, Expired(r, now));
    LeftSize(r.sessions, order, Expired(r, now));
  }

  lemma LeftSize(sessions: map<SessionId, Session>, order: seq<SessionId>, gone: set<SessionId>)
    requires gone <= sessions.Keys && forall sid :: sid in gone <==> sid in order
    ensures |SessionsLeft(sessions, order)| == |sessions| - |gone|
  {
    var left := SessionsLeft(sessions, order);
    assert left.Keys == sessions.Keys - gone;
    assert |left.Keys| == |left|;
  }

  /** No host stays locked forever: after a reap, whatever still holds a lock is younger than both TTLs together. */
  lemma NoLockOutlivesItsTtls(r: Registry, now: int, order: seq<SessionId>, h: PublicId)
    requires Reachable(r) && Enumerates(order, Expired(r, now))
    requires h in Reap(r, order).busy
    ensures var r1 := Reap(r, order);
      r1.busy[h] in r1.sessions && now < r1.sessions[r1.busy[h]].createdAt + r.pendingTtl + Max(0, r.activeTtl)
  {
    ReachableInv(r);
    CloseAllEffect(r, order, "session_ttl");
    ReapLeavesNoneExpired(r, now, order);
    var r1 := Reap(r, order);
    assert GoodSession(r1, r1.busy[h], r1.sessions[r1.busy[h]]);
    assert r1.busy[h] !in Expired(r1, now);
  }

  lemma {:induction false} EnumerationSize<T>(order: seq<T>, s: set<T>)
    requires Enumerates(order, s)
    ensures |order| == |s|
  {
    if order == [] {
      assert s == {};
    } else {
      var n := |order| - 1;
      forall x | x in s - {order[n]} ensures x in order[..n] {
        assert x in order;
      }
      EnumerationSize(order[..n], s - {order[n]});
    }
  }

  // ---- dropping a connection ---------------------------------------------------------------

  /** One SessionEnd per closed session, to those of its two parties that can still be reached. */
  function EndEvents(r: Registry, sessions: map<SessionId, Session>, order: seq<SessionId>, reason: string): seq<Event>
    requires forall i :: 0 <= i < |order| ==> order[i] in sessions
  {
    seq(|order|, i requires 0 <= i < |order| =>
      var s := sessions[order[i]];
      Event(SessionEnd(order[i], s.nextSeq, reason), Taken(r, [s.hostConn, s.viewerConn])))
  }

  lemma TakenSame(r: Registry, r1: Registry, to: seq<ConnId>)
    requires r.conns == r1.conns && r.receivers == r1.receivers
    ensures Taken(r, to) == Taken(r1, to)
  {
  }

  lemma {:induction false} CloseAllEvents(r: Registry, order: seq<SessionId>, reason: string)
    requires Locked(r)
    requires forall i :: 0 <= i < |order| ==> order[i] in r.sessions && r.sessions[order[i]].state != Closed
    requires forall i, j :: 0 <= i < j < |order| ==> order[i] != order[j]
    ensures CloseAll(r, order, reason).log == r.log + EndEvents(r, r.sessions, order, reason)
  {
    if order != [] {
      var n := |order| - 1;
      CloseAllEvents(r, order[..n], reason);
      CloseAllEffect(r, order[..n], reason);
      var r0 := CloseAll(r, order[..n], reason);
      var s := r.sessions[order[n]];
      assert order[n] in r0.sessions;
      TakenSame(r, r0.(sessions := r0.sessions - {order[n]}, busy := r0.busy - {s.host}), [s.hostConn, s.viewerConn]);
      assert EndEvents(r, r.sessions, order, reason)
        == EndEvents(r, r.sessions, order[..n], reason)
         + [Event(SessionEnd(order[n], s.nextSeq, reason), Taken(r, [s.hostConn, s.viewerConn]))];
    }
  }

  /** Dropping a connection leaves no map entry that mentions it and closes exactly the sessions it was
      a party to. */
  lemma UnregisterCleansUp(r: Registry, c: ConnId, order: seq<SessionId>)
    requires Reachable(r) && Enumerates(order, PartyOf(r, c))
    ensures var r1 := UnregisterConn(r, c, order);
      && c !in r1.conns && c !in r1.peers && c !in r1.hosts.Values && PartyOf(r1, c) == {}
      && r1.sessions == r.sessions - PartyOf(r, c)
  {
    ReachableInv(r);
    CloseAllEffect(ForgetConn(r, c), order, "peer_disconnected");
  }

  /** The one message about a closed session, to its other party if that one can still be reached. */
  function Farewell(r: Registry, s: Session, sid: SessionId, gone: ConnId): Event {
    var other := OtherParty(s, gone);
    Event(SessionEnd(sid, s.nextSeq, "peer_disconnected"), if other != gone && CanSend(r, other) then [other] else [])
  }

  /** Each surviving reachable party of a closed session is told once, and nobody else. */
  lemma UnregisterTellsSurvivors(r: Registry, c: ConnId, order: seq<SessionId>)
    requires Reachable(r) && Enumerates(order, PartyOf(r, c))
    ensures |UnregisterConn(r, c, order).log| == |r.log| + |order|
    ensures r.log <= UnregisterConn(r, c, order).log
    ensures forall i :: 0 <= i < |order| ==>
      UnregisterConn(r, c, order).log[|r.log| + i] == Farewell(r, r.sessions[order[i]], order[i], c)
  {
    ReachableInv(r);
    NoneClosed(r);
    var f := ForgetConn(r, c);
    CloseAllEvents(f, order, "peer_disconnected");
    forall i | 0 <= i < |order|
      ensures Taken(f, [r.sessions[order[i]].hostConn, r.sessions[order[i]].viewerConn])
        == Farewell(r, r.sessions[order[i]], order[i], c).to
    {
      assert order[i] in PartyOf(r, c);
      FarewellIsTaken(r, c, order[i]);
    }
  }

  lemma FarewellIsTaken(r: Registry, c: ConnId, sid: SessionId)
    requires sid in PartyOf(r, c)
    ensures var s := r.sessions[sid];
      Taken(ForgetConn(r, c), [s.hostConn, s.viewerConn]) == Farewell(r, s, sid, c).to
  {
    TakenTwo(ForgetConn(r, c), r.sessions[sid].hostConn, r.sessions[sid].viewerConn);
  }

  lemma TakenTwo(r: Registry, a: ConnId, b: ConnId)
    ensures Taken(r, [a, b]) == (if CanSend(r, a) then [a] else []) + (if CanSend(r, b) then [b] else [])
  {
    assert [a, b][1..] == [b];
    TakenOne(r, b);
  }

  // ---- host reconnect ----------------------------------------------------------------------

  /** The session table after host `h` moves to socket `c`. */
  function Moved(sessions: map<SessionId, Session>, h: PublicId, c: ConnId): map<SessionId, Session> {
    map sid | sid in sessions :: if sessions[sid].host == h then sessions[sid].(hostConn := c) else sessions[sid]
  }

  lemma PublishMoves(r: Registry, c: ConnId, h: PublicId)
    requires Consistent(r)
    ensures PublishHost(r, c, h).sessions == Moved(r.sessions, h, c)
  {
    forall sid | sid in r.sessions
      ensures sid in PublishHost(r, c, h).sessions && PublishHost(r, c, h).sessions[sid] == Moved(r.sessions, h, c)[sid]
    {
      assert GoodSession(r, sid, r.sessions[sid]);
    }
  }

  /** A host that connects again keeps its sessions: same ids, states and numbers, no message about
      them; only the host socket of this host's own sessions moves. */
  lemma ReconnectKeepsSessions(r: Registry, c: ConnId, id: PeerIdentity)
    requires Reachable(r) && id.role == Host && id.devicePublicId.Some?
    ensures BindPeer(r, c, id).sessions == Moved(r.sessions, id.devicePublicId.value, c)
    ensures BindPeer(r, c, id).busy == r.busy && BindPeer(r, c, id).hosts == r.hosts[id.devicePublicId.value := c]
    ensures forall i :: |r.log| <= i < |BindPeer(r, c, id).log| ==> !Scoped(BindPeer(r, c, id).log[i].msg)
  {
    ReachableInv(r);
    PublishMoves(r, c, id.devicePublicId.value);
  }

  /** A socket that is not the published one of host `h` can be dropped without touching `h`: its
      presence stays, and so does its session, unless that socket is the session's viewer. */
  lemma StaleSocketIsHarmless(r: Registry, h: PublicId, prior: ConnId, order: seq<SessionId>)
    requires Reachable(r) && Enumerates(order, PartyOf(r, prior))
    requires h in r.hosts && r.hosts[h] != prior
    ensures var r1 := UnregisterConn(r, prior, order);
      && h in r1.hosts && r1.hosts[h] == r.hosts[h]
      && (h in r.busy ==> r.busy[h] in r.sessions && (r.sessions[r.busy[h]].viewerConn != prior ==>
          && h in r1.busy && r1.busy[h] == r.busy[h]
          && r1.busy[h] in r1.sessions && r1.sessions[r1.busy[h]] == r.sessions[r.busy[h]]))
  {
    ReachableInv(r);
    CloseAllEffect(ForgetConn(r, prior), order, "peer_disconnected");
    if h in r.busy {
      assert GoodSession(r, r.busy[h], r.sessions[r.busy[h]]);
    }
  }

  /** Once replaced, a socket is published for that host again only by a hello of its own, so the
      previous lemma applies whenever the old socket's task gets round to unregistering it. */
  lemma {:induction false} ReplacedStaysReplaced(r: Registry, h: PublicId, prior: ConnId, steps: seq<Step>)
    requires Inv(r) && ValidRun(r, steps)
    requires h !in r.hosts || r.hosts[h] != prior
    requires forall i :: 0 <= i < |steps| && steps[i].Bind? && steps[i].conn == prior ==>
      steps[i].id.devicePublicId != Some(h)
    ensures Inv(Run(r, steps))
    ensures var r1 := Run(r, steps); h !in r1.hosts || r1.hosts[h] != prior
  {
    if steps != [] {
      var n := |steps| - 1;
      ReplacedStaysReplaced(r, h, prior, steps[..n]);
      var r0 := Run(r, steps[..n]);
      StepKeepsInv(r0, steps[n]);
      HostsAfter(r0, steps[n]);
    }
  }

  /** Only hello and disconnect touch the presence map. */
  lemma HostsAfter(r: Registry, st: Step)
    requires Inv(r) && Enabled(r, st)
    ensures st.Unregister? ==> Apply(r, st).hosts == ForgetConn(r, st.conn).hosts
    ensures !st.Unregister? && !st.Bind? ==> Apply(r, st).hosts == r.hosts
  {
    match st
    case Register =>
    case DropReceiver(_) =>
    case Bind(_, _) =>
    case Unregister(c, order) => CloseAllEffect(ForgetConn(r, c), order, "peer_disconnected");
    case RelaySignal(_, msg, now, order) => if msg.Relay? { CloseAllEffect(r, order, "session_ttl"); }
    case Force(sid, why, now, order) => HostsAfterForce(r, sid, why, order);
    case ReapStep(_, order) => CloseAllEffect(r, order, "session_ttl");
    case _ => HostsAfterExchange(r, st);
  }

  lemma HostsAfterForce(r: Registry, sid: SessionId, why: string, order: seq<SessionId>)
    requires Inv(r)
    ensures ForceAfterReap(Reap(r, order), sid, why).0.hosts == r.hosts
  {
    CloseAllEffect(r, order, "session_ttl");
  }

  lemma HostsAfterExchange(r: Registry, st: Step)
    requires Inv(r)
    requires st.Create? || st.Accept? || st.Reject? || st.End?
    ensures Apply(r, st).hosts == r.hosts
  {
    CloseAllEffect(r, st.order, "session_ttl");
  }

  // ---- who is told -------------------------------------------------------------------------

  ghost predicate IsParty(r: Registry, sid: SessionId, x: ConnId) {
    sid in r.sessions && (x == r.sessions[sid].hostConn || x == r.sessions[sid].viewerConn)
  }

  /** Every message about a session that a step sends goes to parties of that session only. */
  ghost predicate OnlyPartiesTold(r: Registry, r1: Registry) {
    && r.log <= r1.log
    && forall i, x :: |r.log| <= i < |r1.log| && Scoped(r1.log[i].msg) && x in r1.log[i].to
        ==> IsParty(r, r1.log[i].msg.sid, x) || IsParty(r1, r1.log[i].msg.sid, x)
  }

  lemma CloseAllTellsOnlyParties(r: Registry, order: seq<SessionId>, why: string)
    requires Locked(r)
    requires forall i :: 0 <= i < |order| ==> order[i] in r.sessions && r.sessions[order[i]].state != Closed
    requires forall i, j :: 0 <= i < j < |order| ==> order[i] != order[j]
    ensures OnlyPartiesTold(r, CloseAll(r, order, why))
  {
    CloseAllEvents(r, order, why);
    forall i | 0 <= i < |order|
      ensures forall x :: x in Taken(r, [r.sessions[order[i]].hostConn, r.sessions[order[i]].viewerConn]) ==>
        IsParty(r, order[i], x)
    {
      TakenTwo(r, r.sessions[order[i]].hostConn, r.sessions[order[i]].viewerConn);
    }
  }

  /** At most one more message, to `x`, who is a party of the session it is about. */
  ghost predicate OneMoreTo(r1: Registry, r2: Registry, x: ConnId) {
    || r2.log == r1.log
    || (&& |r2.log| == |r1.log| + 1 && r1.log <= r2.log
        && Scoped(r2.log[|r1.log|].msg)
        && (IsParty(r1, r2.log[|r1.log|].msg.sid, x) || IsParty(r2, r2.log[|r1.log|].msg.sid, x))
        && forall y :: y in r2.log[|r1.log|].to ==> y == x)
  }

  lemma ReapThenOneMore(r: Registry, now: int, order: seq<SessionId>, r2: Registry, x: ConnId)
    requires Inv(r) && Enumerates(order, Expired(r, now))
    requires OneMoreTo(Reap(r, order), r2, x)
    ensures OnlyPartiesTold(r, r2)
  {
    NoneClosed(r);
    CloseAllEffect(r, order, "session_ttl");
    CloseAllTellsOnlyParties(r, order, "session_ttl");
  }

  /** Who hears what `c` sends about a session: the other party, so never `c` itself unless it is both. */
  function Receiver(r: Registry, sid: SessionId, c: ConnId): (x: ConnId)
    ensures IsParty(r, sid, c) ==> IsParty(r, sid, x)
    ensures IsParty(r, sid, c) && r.sessions[sid].hostConn != r.sessions[sid].viewerConn ==> x != c
  {
    if sid !in r.sessions then 0 else OtherParty(r.sessions[sid], c)
  }

  lemma CreateTellsHost(r: Registry, req: CreateRequest, now: int)
    ensures OneMoreTo(r, CreateAfterReap(r, req, now).0, if req.host in r.hosts then r.hosts[req.host] else 0)
  {
    if CreateAfterReap(r, req, now).1.Ok? {
      var s := NewSession(r, req, r.hosts[req.host], req.num + 2, now);
      TakenOne(r.(busy := r.busy[req.host := req.sid], sessions := r.sessions[req.sid := s]), r.hosts[req.host]);
    }
  }

  lemma AcceptTellsViewer(r: Registry, c: ConnId, sid: SessionId, num: u64, now: int)
    ensures OneMoreTo(r, AcceptAfterReap(r, c, sid, num, now).0, Receiver(r, sid, c))
  {
    if HostCheck(r, c, sid, num).None? {
      var s1 := r.sessions[sid].(state := Active, expiresAt := now + r.activeTtl, nextSeq := SatSucc(num));
      TakenOne(r.(sessions := r.sessions[sid := s1]), r.sessions[sid].viewerConn);
    }
  }

  lemma RejectTellsViewer(r: Registry, c: ConnId, sid: SessionId, num: u64, reason: RejectReason)
    ensures OneMoreTo(r, RejectAfterReap(r, c, sid, num, reason).0, Receiver(r, sid, c))
  {
    if HostCheck(r, c, sid, num).None? {
      var s := r.sessions[sid];
      TakenOne(r.(busy := r.busy - {s.host}, sessions := r.sessions - {sid}), s.viewerConn);
    }
  }

  lemma EndTellsOther(r: Registry, c: ConnId, sid: SessionId, num: u64, why: string)
    ensures OneMoreTo(r, EndAfterReap(r, c, sid, num, why).0, Receiver(r, sid, c))
  {
    if sid in r.sessions {
      var s := r.sessions[sid];
      TakenOne(r.(busy := r.busy - {s.host}, sessions := r.sessions - {sid}), OtherParty(s, c));
    }
  }

  lemma RelayTellsOther(r: Registry, c: ConnId, msg: SignalMessage)
    requires msg.Relay?
    ensures OneMoreTo(r, RelayAfterReap(r, c, msg).0, Receiver(r, msg.sid, c))
  {
    if msg.sid in r.sessions {
      var s := r.sessions[msg.sid];
      TakenOne(r.(sessions := r.sessions[msg.sid := s.(nextSeq := SatSucc(msg.num))]), OtherParty(s, c));
    }
  }

  lemma ForceTellsParties(r: Registry, sid: SessionId, why: string)
    requires Inv(r)
    ensures OnlyPartiesTold(r, ForceAfterReap(r, sid, why).0)
  {
    NoneClosed(r);
    if sid in r.sessions {
      CloseAllTellsOnlyParties(r, [sid], why);
      assert CloseAll(r, [sid], why) == CloseSession(CloseAll(r, [], why), sid, why);
    }
  }

  lemma Chain(r: Registry, r1: Registry, r2: Registry)
    requires OnlyPartiesTold(r, r1) && OnlyPartiesTold(r1, r2)
    requires forall sid :: sid in r1.sessions ==> sid in r.sessions && r1.sessions[sid] == r.sessions[sid]
    ensures OnlyPartiesTold(r, r2)
  {
  }

  /** The four operations that begin with a reap and then send at most one message. */
  lemma ExchangeTellsParties(r: Registry, st: Step)
    requires Inv(r) && Enabled(r, st)
    requires st.Create? || st.Accept? || st.Reject? || st.End?
    ensures OnlyPartiesTold(r, Apply(r, st))
  {
    var r1 := Reap(r, st.order);
    match st
    case Create(req, now, order) =>
      CreateTellsHost(r1, req, now);
      ReapThenOneMore(r, now, order, Apply(r, st), if req.host in r1.hosts then r1.hosts[req.host] else 0);
    case Accept(c, sid, num, now, order) =>
      AcceptTellsViewer(r1, c, sid, num, now);
      ReapThenOneMore(r, now, order, Apply(r, st), Receiver(r1, sid, c));
    case Reject(c, sid, num, reason, now, order) =>
      RejectTellsViewer(r1, c, sid, num, reason);
      ReapThenOneMore(r, now, order, Apply(r, st), Receiver(r1, sid, c));
    case End(c, sid, num, why, now, order) =>
      EndTellsOther(r1, c, sid, num, why);
      ReapThenOneMore(r, now, order, Apply(r, st), Receiver(r1, sid, c));
  }

  lemma DropTellsParties(r: Registry, c: ConnId, order: seq<SessionId>)
    requires Inv(r) && Enumerates(order, PartyOf(r, c))
    ensures OnlyPartiesTold(r, UnregisterConn(r, c, order))
  {
    NoneClosed(r);
    CloseAllTellsOnlyParties(ForgetConn(r, c), order, "peer_disconnected");
    CloseAllEffect(ForgetConn(r, c), order, "peer_disconnected");
  }

  lemma ReapTellsParties(r: Registry, now: int, order: seq<SessionId>)
    requires Inv(r) && Enumerates(order, Expired(r, now))
    ensures OnlyPartiesTold(r, Reap(r, order))
  {
    NoneClosed(r);
    CloseAllTellsOnlyParties(r, order, "session_ttl");
  }

  lemma ForceStepTellsParties(r: Registry, sid: SessionId, why: string, now: int, order: seq<SessionId>)
    requires Inv(r) && Enumerates(order, Expired(r, now))
    ensures OnlyPartiesTold(r, ForceAfterReap(Reap(r, order), sid, why).0)
  {
    ReapTellsParties(r, now, order);
    ReapLeavesNoneExpired(r, now, order);
    CloseAllEffect(r, order, "session_ttl");
    ForceTellsParties(Reap(r, order), sid, why);
    Chain(r, Reap(r, order), ForceAfterReap(Reap(r, order), sid, why).0);
  }

  /** Whatever step is taken, a message about a session reaches only that session's host and viewer. */
  lemma OnlyPartiesAreTold(r: Registry, st: Step)
    requires Reachable(r) && Enabled(r, st)
    ensures OnlyPartiesTold(r, Apply(r, st))
  {
    ReachableInv(r);
    match st
    case Register =>
    case DropReceiver(_) =>
    case Bind(c, id) =>
    case Unregister(c, order) => DropTellsParties(r, c, order);
    case ReapStep(now, order) => ReapTellsParties(r, now, order);
    case Force(sid, why, now, order) => ForceStepTellsParties(r, sid, why, now, order);
    case RelaySignal(c, msg, now, order) =>
      if msg.Relay? {
        RelayTellsOther(Reap(r, order), c, msg);
        ReapThenOneMore(r, now, order, Apply(r, st), Receiver(Reap(r, order), msg.sid, c));
      }
    case _ => ExchangeTellsParties(r, st);
  }

  lemma Created(r: Registry, req: CreateRequest, now: int)
    requires req.sid !in r.sessions && req.host !in r.busy && req.host in r.hosts && CanSend(r, r.hosts[req.host])
    requires req.num + 3 <= U64_MAX
    ensures var h := r.hosts[req.host];
      var (r1, out) := CreateAfterReap(r, req, now);
      && out.Ok?
      && r1 == r.(busy := r.busy[req.host := req.sid],
                  sessions := r.sessions[req.sid := NewSession(r, req, h, req.num + 2, now)],
                  log := r.log + [Event(SessionIncoming(req.sid, req.num + 1, req.viewerInfo, req.mode), [h])])
  {
    var s := NewSession(r, req, r.hosts[req.host], req.num + 2, now);
    TakenOne(r.(busy := r.busy[req.host := req.sid], sessions := r.sessions[req.sid := s]), r.hosts[req.host]);
  }
}
