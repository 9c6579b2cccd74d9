/** The connection set and the peer table.  The registry alone would let any number say hello; the socket handler
    (apps/server/src/routes/ws.rs) does so once for each connection it has registered, and lets only viewers ask
    for a session.  Under that discipline all five maps agree. */
module RegistryConnections {
  import opened Common
  import opened RegistryModel
  import opened RegistryProofs

  predicate IsHostOf(r: Registry, c: ConnId, h: PublicId) {
    c in r.peers && r.peers[c].role == Host && r.peers[c].devicePublicId == Some(h)
  }

  predicate IsViewer(r: Registry, c: ConnId) {
    c in r.peers && r.peers[c].role == Viewer
  }

  /** What the socket handler sees to before it calls the registry. */
  predicate Served(r: Registry, st: Step) {
    match st
    case Bind(c, _) => c in r.conns && c !in r.peers
    case Create(req, _, _) => IsViewer(r, req.viewerConn)
    case _ => true
  }

  ghost predicate ServedRun(r: Registry, steps: seq<Step>) {
    steps == [] ||
    (ServedRun(r, steps[..|steps| - 1])
     && Enabled(Run(r, steps[..|steps| - 1]), steps[|steps| - 1])
     && Served(Run(r, steps[..|steps| - 1]), steps[|steps| - 1]))
  }

  /** Connections and peers are known sockets with old ids, the presence map is the inverse of the host peers, and
      a session's viewer is a connected viewer. */
  ghost predicate Linked(r: Registry) {
    && (forall c :: c in r.conns ==> c < r.nextConn)
    && (forall c :: c in r.peers ==> c in r.conns)
    && (forall h :: h in r.hosts ==> IsHostOf(r, r.hosts[h], h))
    && (forall c, h :: IsHostOf(r, c, h) ==> h in r.hosts && r.hosts[h] == c)
    && (forall sid :: sid in r.sessions ==> IsViewer(r, r.sessions[sid].viewerConn))
  }

  // ---- each step ---------------------------------------------------------------------------

  /** Closing sessions cannot break a link. */
  lemma CloseAllKeepsLinked(r: Registry, order: seq<SessionId>, reason: string)
    requires Inv(r) && Linked(r)
    ensures Linked(CloseAll(r, order, reason))
  {
    CloseAllEffect(r, order, reason);
    SameConnections(r, CloseAll(r, order, reason));
  }

  lemma SameConnections(r: Registry, r1: Registry)
    requires Linked(r)
    requires r1.nextConn == r.nextConn && r1.conns == r.conns && r1.peers == r.peers && r1.hosts == r.hosts
    requires forall sid :: sid in r1.sessions ==>
      sid in r.sessions && r1.sessions[sid].viewerConn == r.sessions[sid].viewerConn
    ensures Linked(r1)
  {
    forall c, h | IsHostOf(r1, c, h) ensures h in r1.hosts && r1.hosts[h] == c {
      assert IsHostOf(r, c, h);
    }
    forall sid | sid in r1.sessions ensures IsViewer(r1, r1.sessions[sid].viewerConn) {
      assert IsViewer(r, r.sessions[sid].viewerConn);
    }
  }

  lemma RegisterKeepsLinked(r: Registry)
    requires Linked(r)
    ensures Linked(RegisterConn(r))
  {
    var r1 := RegisterConn(r);
    forall c, h | IsHostOf(r1, c, h) ensures h in r1.hosts && r1.hosts[h] == c {
      assert IsHostOf(r, c, h);
    }
    forall sid | sid in r1.sessions ensures IsViewer(r1, r1.sessions[sid].viewerConn) {
      assert IsViewer(r, r.sessions[sid].viewerConn);
    }
  }

  /** Dropping a connection takes it out of conns, peers and hosts together, and closes the sessions it was in. */
  lemma UnregisterKeepsLinked(r: Registry, c: ConnId, order: seq<SessionId>)
    requires Inv(r) && Linked(r) && Enumerates(order, PartyOf(r, c))
    ensures Linked(UnregisterConn(r, c, order))
  {
    var f := ForgetConn(r, c);
    var r1 := UnregisterConn(r, c, order);
    CloseAllEffect(f, order, "peer_disconnected");
    forall h | h in r1.hosts ensures IsHostOf(r1, r1.hosts[h], h) {
      assert IsHostOf(r, r.hosts[h], h);
    }
    forall d, h | IsHostOf(r1, d, h) ensures h in r1.hosts && r1.hosts[h] == d {
      assert IsHostOf(r, d, h);
    }
    forall sid | sid in r1.sessions ensures IsViewer(r1, r1.sessions[sid].viewerConn) {
      assert IsViewer(r, r.sessions[sid].viewerConn);
      assert sid !in PartyOf(r, c);
    }
  }

  function PublishedId(id: PeerIdentity): Option<PublicId> {
    if id.role == Host then id.devicePublicId else None
  }

  /** The hello does not contradict what the socket has been so far: it is connected, keeps the public id it is
      published under, and stays a viewer while it has a session as one. */
  ghost predicate Fits(r: Registry, c: ConnId, id: PeerIdentity) {
    && c in r.conns
    && (c in r.peers && PublishedId(r.peers[c]).Some? ==> PublishedId(id) == PublishedId(r.peers[c]))
    && (forall sid :: sid in r.sessions && r.sessions[sid].viewerConn == c ==> id.role == Viewer)
  }

  /** A hello that publishes nothing. */
  lemma PeerKeepsLinked(r: Registry, c: ConnId, id: PeerIdentity)
    requires Linked(r) && Fits(r, c, id) && PublishedId(id).None?
    ensures Linked(BindPeer(r, c, id))
  {
    var r1 := BindPeer(r, c, id);
    forall h | h in r1.hosts ensures IsHostOf(r1, r1.hosts[h], h) {
      assert IsHostOf(r, r.hosts[h], h);
    }
    forall d, h | IsHostOf(r1, d, h) ensures h in r1.hosts && r1.hosts[h] == d {
      assert IsHostOf(r, d, h);
    }
    forall sid | sid in r1.sessions ensures IsViewer(r1, r1.sessions[sid].viewerConn) {
      assert IsViewer(r, r.sessions[sid].viewerConn);
    }
  }

  /** A host's hello: whoever was published before is evicted from conns and peers, so the newcomer is the only
      peer with that public id. */
  lemma HostKeepsLinked(r: Registry, c: ConnId, id: PeerIdentity)
    requires Linked(r) && Fits(r, c, id) && PublishedId(id).Some?
    ensures Linked(BindPeer(r, c, id))
  {
    var r1 := BindPeer(r, c, id);
    var host := id.devicePublicId.value;
    HostHello(r, c, id);
    forall h | h in r1.hosts ensures IsHostOf(r1, r1.hosts[h], h) {
      if h != host {
        assert IsHostOf(r, r.hosts[h], h);
      }
    }
    forall d, h | IsHostOf(r1, d, h) ensures h in r1.hosts && r1.hosts[h] == d {
      if d != c {
        assert IsHostOf(r, d, h);
      }
    }
    forall sid | sid in r1.sessions ensures IsViewer(r1, r1.sessions[sid].viewerConn) {
      assert IsViewer(r, r.sessions[sid].viewerConn);
    }
  }

  /** What a host's hello does to the maps: the newcomer is published, and a socket published before is gone. */
  lemma HostHello(r: Registry, c: ConnId, id: PeerIdentity)
    requires Linked(r) && Fits(r, c, id) && PublishedId(id).Some?
    ensures var r1 := BindPeer(r, c, id);
      var gone := PriorHost(r, c, id.devicePublicId.value);
      && c !in gone && r1.nextConn == r.nextConn && r1.conns == r.conns - gone
      && r1.peers == (r.peers - gone)[c := id] && r1.hosts == r.hosts[id.devicePublicId.value := c]
      && (forall d :: d in gone ==> IsHostOf(r, d, id.devicePublicId.value))
      && (forall sid :: sid in r1.sessions ==>
            sid in r.sessions && r1.sessions[sid].viewerConn == r.sessions[sid].viewerConn)
  {
    var host := id.devicePublicId.value;
    if host in r.hosts {
      assert IsHostOf(r, r.hosts[host], host);
    }
  }

  function PriorHost(r: Registry, c: ConnId, host: PublicId): set<ConnId> {
    if host in r.hosts && r.hosts[host] != c then {r.hosts[host]} else {}
  }

  /** So the maps stay in agreement under a hello exactly when it fits. */
  lemma HelloKeepsLinkedExactlyWhen(r: Registry, c: ConnId, id: PeerIdentity)
    requires Linked(r)
    ensures Linked(BindPeer(r, c, id)) <==> Fits(r, c, id)
  {
    var r1 := BindPeer(r, c, id);
    if Fits(r, c, id) {
      if PublishedId(id).Some? { HostKeepsLinked(r, c, id); } else { PeerKeepsLinked(r, c, id); }
    } else if Linked(r1) {
      LinkedMeansItFitted(r, c, id);
    }
  }

  lemma LinkedMeansItFitted(r: Registry, c: ConnId, id: PeerIdentity)
    requires Linked(r) && Linked(BindPeer(r, c, id))
    ensures Fits(r, c, id)
  {
    var r1 := BindPeer(r, c, id);
    assert c in r1.peers && r1.peers[c] == id;
    if c in r.peers && PublishedId(r.peers[c]).Some? {
      var h := PublishedId(r.peers[c]).value;
      assert IsHostOf(r, c, h);
      assert r1.hosts[h] == c && IsHostOf(r1, c, h);
    }
    forall sid | sid in r.sessions && r.sessions[sid].viewerConn == c ensures id.role == Viewer {
      assert IsViewer(r1, r1.sessions[sid].viewerConn);
    }
  }

  /** An intent adds one session, between a viewer and the host. */
  lemma CreateKeepsLinked(r: Registry, req: CreateRequest, now: int)
    requires Linked(r) && IsViewer(r, req.viewerConn)
    ensures Linked(CreateAfterReap(r, req, now).0)
  {
    var r1 := CreateAfterReap(r, req, now).0;
    var without := r1.(sessions := r1.sessions - {req.sid});
    SameConnections(r, without);
    forall c, h | IsHostOf(r1, c, h) ensures h in r1.hosts && r1.hosts[h] == c {
      assert IsHostOf(without, c, h);
    }
    forall sid | sid in r1.sessions ensures IsViewer(r1, r1.sessions[sid].viewerConn) {
      if sid != req.sid { assert sid in without.sessions; }
    }
  }

  /** The tests an intent has to pass, the last one that the host can be told. */
  predicate Accepts(r: Registry, req: CreateRequest) {
    && req.sid !in r.sessions && req.host !in r.busy && req.host in r.hosts && req.num < U64_MAX - 1
    && CanSend(r, r.hosts[req.host])
  }

  /** And under an intent exactly when it is refused or comes from a viewer. */
  lemma IntentKeepsLinkedExactlyWhen(r: Registry, req: CreateRequest, now: int)
    requires Inv(r) && Linked(r)
    ensures Linked(CreateAfterReap(r, req, now).0) <==> (Accepts(r, req) ==> IsViewer(r, req.viewerConn))
  {
    var r1 := CreateAfterReap(r, req, now).0;
    if IsViewer(r, req.viewerConn) {
      CreateKeepsLinked(r, req, now);
    } else if Accepts(r, req) {
      assert r1.sessions[req.sid].viewerConn == req.viewerConn && r1.peers == r.peers;
    } else {
      SameConnections(r, r1);
    }
  }

  /** The other operations on a session leave the connections alone and add none. */
  lemma AnswerKeepsLinked(r: Registry, st: Step)
    requires Linked(r) && (st.Accept? || st.Reject? || st.End?)
    ensures Linked(AfterReap(r, st))
  {
    SameConnections(r, AfterReap(r, st));
  }

  function AfterReap(r: Registry, st: Step): Registry
    requires st.Accept? || st.Reject? || st.End?
  {
    match st
    case Accept(c, sid, num, now, _) => AcceptAfterReap(r, c, sid, num, now).0
    case Reject(c, sid, num, reason, _, _) => RejectAfterReap(r, c, sid, num, reason).0
    case End(c, sid, num, why, _, _) => EndAfterReap(r, c, sid, num, why).0
  }

  lemma RelayKeepsLinked(r: Registry, c: ConnId, msg: SignalMessage)
    requires Linked(r) && msg.Relay?
    ensures Linked(RelayAfterReap(r, c, msg).0)
  {
    SameConnections(r, RelayAfterReap(r, c, msg).0);
  }

  lemma ConnectionStepKeepsLinked(r: Registry, st: Step)
    requires Inv(r) && Linked(r) && Enabled(r, st) && Served(r, st)
    requires st.Register? || st.DropReceiver? || st.Bind? || st.Unregister?
    ensures Linked(Apply(r, st))
  {
    match st
    case Register => RegisterKeepsLinked(r);
    case DropReceiver(_) => SameConnections(r, Apply(r, st));
    case Bind(c, id) =>
      assert forall sid :: sid in r.sessions ==> IsViewer(r, r.sessions[sid].viewerConn);
      HelloKeepsLinkedExactlyWhen(r, c, id);
    case Unregister(c, order) => UnregisterKeepsLinked(r, c, order);
  }

  /** The reap leaves the requesting viewer connected. */
  lemma CreateStepKeepsLinked(r: Registry, st: Step)
    requires Inv(r) && Linked(r) && st.Create? && Served(r, st)
    ensures Linked(Apply(r, st))
  {
    CloseAllKeepsLinked(r, st.order, "session_ttl");
    CloseAllEffect(r, st.order, "session_ttl");
    CreateKeepsLinked(Reap(r, st.order), st.req, st.now);
  }

  lemma AnswerStepKeepsLinked(r: Registry, st: Step)
    requires Inv(r) && Linked(r) && (st.Accept? || st.Reject? || st.End?)
    ensures Linked(Apply(r, st))
  {
    CloseAllKeepsLinked(r, st.order, "session_ttl");
    AnswerKeepsLinked(Reap(r, st.order), st);
  }

  lemma StepKeepsLinked(r: Registry, st: Step)
    requires Inv(r) && Linked(r) && Enabled(r, st) && Served(r, st)
    ensures Linked(Apply(r, st))
  {
    match st
    case ReapStep(_, order) => CloseAllKeepsLinked(r, order, "session_ttl");
    case Force(sid, why, now, order) => ForceKeepsLinked(r, sid, why, now, order);
    case RelaySignal(c, msg, _, order) =>
      if msg.Relay? {
        CloseAllKeepsLinked(r, order, "session_ttl");
        RelayKeepsLinked(Reap(r, order), c, msg);
      }
    case Create(_, _, _) => CreateStepKeepsLinked(r, st);
    case Accept(_, _, _, _, _) => AnswerStepKeepsLinked(r, st);
    case Reject(_, _, _, _, _, _) => AnswerStepKeepsLinked(r, st);
    case End(_, _, _, _, _, _) => AnswerStepKeepsLinked(r, st);
    case _ => ConnectionStepKeepsLinked(r, st);
  }

  lemma ForceKeepsLinked(r: Registry, sid: SessionId, why: string, now: int, order: seq<SessionId>)
    requires Inv(r) && Linked(r) && Enumerates(order, Expired(r, now))
    ensures Linked(ForceAfterReap(Reap(r, order), sid, why).0)
  {
    ReapLeavesNoneExpired(r, now, order);
    CloseAllKeepsLinked(r, order, "session_ttl");
    SameConnections(Reap(r, order), ForceAfterReap(Reap(r, order), sid, why).0);
  }

  // ---- every served run --------------------------------------------------------------------

  lemma {:induction false} EveryServedRunIsLinked(pendingTtl: int, activeTtl: int, steps: seq<Step>)
    requires ServedRun(Initial(pendingTtl, activeTtl), steps)
    ensures ValidRun(Initial(pendingTtl, activeTtl), steps)
    ensures Inv(Run(Initial(pendingTtl, activeTtl), steps)) && Linked(Run(Initial(pendingTtl, activeTtl), steps))
  {
    if steps != [] {
      var n := |steps| - 1;
      EveryServedRunIsLinked(pendingTtl, activeTtl, steps[..n]);
      StepKeepsInv(Run(Initial(pendingTtl, activeTtl), steps[..n]), steps[n]);
      StepKeepsLinked(Run(Initial(pendingTtl, activeTtl), steps[..n]), steps[n]);
    }
  }

  /** All five maps agree.  The presence map lists exactly the connected host peers; each session runs between the
      connected host it is for and a connected viewer, two different sockets. */
  lemma FiveMapsAgree(pendingTtl: int, activeTtl: int, steps: seq<Step>)
    requires ServedRun(Initial(pendingTtl, activeTtl), steps)
    ensures var r := Run(Initial(pendingTtl, activeTtl), steps);
      && (forall c, h :: (h in r.hosts && r.hosts[h] == c) <==> (c in r.conns && IsHostOf(r, c, h)))
      && (forall sid :: sid in r.sessions ==>
            var s := r.sessions[sid];
            && IsHostOf(r, s.hostConn, s.host) && IsViewer(r, s.viewerConn)
            && s.hostConn in r.conns && s.viewerConn in r.conns && s.hostConn != s.viewerConn
            && s.host in r.busy && r.busy[s.host] == sid)
  {
    EveryServedRunIsLinked(pendingTtl, activeTtl, steps);
    var r := Run(Initial(pendingTtl, activeTtl), steps);
    forall sid | sid in r.sessions
      ensures IsHostOf(r, r.sessions[sid].hostConn, r.sessions[sid].host)
    {
      assert GoodSession(r, sid, r.sessions[sid]);
    }
  }

  /** Without the discipline they need not: a hello on a socket that has been dropped publishes a host that nobody
      can reach. */
  lemma LateHelloPublishesNobody()
    ensures var steps := [Register, Unregister(1, []), Bind(1, PeerIdentity(Host, Some("h"), Some(7), false))];
      var start := Initial(120, 28800);
      && ValidRun(start, steps) && !ServedRun(start, steps)
      && Run(start, steps).hosts == map["h" := 1] && 1 !in Run(start, steps).conns
  {
    var start := Initial(120, 28800);
    var steps := [Register, Unregister(1, []), Bind(1, PeerIdentity(Host, Some("h"), Some(7), false))];
    assert steps[..2] == [steps[0], steps[1]] && [steps[0], steps[1]][..1] == [steps[0]] && [steps[0]][..0] == [];
    assert Run(start, []) == start;
    assert Run(start, [steps[0]]) == Apply(start, steps[0]);
    var left := Apply(Apply(start, steps[0]), steps[1]);
    assert PartyOf(Apply(start, steps[0]), 1) == {};
    assert ValidRun(start, []) && ValidRun(start, [steps[0]]) && ValidRun(start, steps[..2]);
    assert Run(start, steps[..2]) == left && left.conns == {} && left.hosts == map[];
    assert !Served(left, steps[2]);
  }
}
