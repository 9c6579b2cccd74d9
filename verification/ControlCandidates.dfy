/** Where local ICE candidates go behind the control loop, which builds a new agent after a detach or shutdown and at
    every new connection.  What is left is the kill-switch. */
module ControlCandidates {
  import opened Common
  import opened ManagerModel
  import opened AgentModel
  import opened ControlLoop
  import opened ControlService
  import opened Candidates
  import opened Transcript
  import AgentProofs
  import P = ManagerProofs

  /** What the trace of an agent in the loop looks like beside what holds of every agent: a detach is the first half
      of a kill, a session begins where there is none, and candidates are handed over in sessions only. */
  ghost predicate LoopTrace(h: seq<Event>) {
    && (forall i :: 0 <= i < |h| && h[i].Detached? ==> i + 1 < |h| && h[i + 1].Killed?)
    && (forall i :: 0 <= i < |h| && h[i].Attached? ==> CurrentSession(h[..i]) == None)
    && (forall i :: 0 <= i < |h| && h[i].Gathered? ==> CurrentSession(h[..i]).Some?)
  }

  ghost predicate InLoop(a: Agent) {
    AgentProofs.Inv(a) && LoopTrace(a.mgr.trace)
  }

  // ---- every step of the loop --------------------------------------------------------------

  lemma NotedInLoop(h: seq<Event>, e: Event)
    requires LoopTrace(h) && !e.Detached?
    requires e.Attached? ==> CurrentSession(h) == None
    requires e.Gathered? ==> CurrentSession(h).Some?
    ensures LoopTrace(h + [e])
  {
    forall i | 0 <= i < |h| + 1 ensures (h + [e])[..i] == h[..i] {
    }
    assert h[..|h|] == h;
  }

  lemma KillInLoop(h: seq<Event>)
    requires LoopTrace(h)
    ensures LoopTrace(h + [Detached] + [Killed])
  {
    var l := h + [Detached] + [Killed];
    forall i | 0 <= i < |h| + 1 ensures l[..i] == h[..i] {
    }
  }

  lemma GatherInLoop(m: Manager, ice: seq<string>)
    requires P.Inv(m) && m.sid.Some? && LoopTrace(m.trace)
    ensures LoopTrace(Gather(m, ice).trace) && P.Inv(Gather(m, ice)) && Gather(m, ice).sid == m.sid
  {
    NotedInLoop(m.trace, Gathered(Tagged(m.sid, ice)));
    P.GatherKeepsInv(m, ice);
  }

  lemma MediaInLoop(m: Manager, env: MediaEnv)
    requires P.Inv(m) && LoopTrace(m.trace)
    ensures LoopTrace(ManagerModel.StartMedia(m, env).0.trace)
  {
    if m.sid.Some? && !m.media && env.captureOk {
      var on := m.(media := true);
      AgentProofs.OutboxKeepsInv(m, true, m.outbound);
      GatherInLoop(on, env.ice);
      NotedInLoop(m.trace, Queued(m.sid.value, m.gathered));
      NotedInLoop(Gather(on, env.ice).trace, Queued(m.sid.value, Gather(on, env.ice).gathered));
    }
  }

  lemma SignalInLoop(m: Manager, kind: string, applied: bool, ice: seq<string>)
    requires P.Inv(m) && m.sid.Some? && LoopTrace(m.trace)
    ensures LoopTrace(ManagerModel.ApplySignal(m, kind, applied, ice).0.trace)
  {
    GatherInLoop(m, ice);
    NotedInLoop(Gather(m, ice).trace, Queued(m.sid.value, Gather(m, ice).gathered));
  }

  lemma HandledInLoop(a: Agent, m: ControlMessage, env: AgentEnv)
    requires InLoop(a) && !Rebuilds(m, Handle(a, m, env).1)
    ensures InLoop(Handle(a, m, env).0)
  {
    AgentProofs.HandleKeepsInv(a, m, env);
    AgentProofs.DriveKeepsStep(a, m, env);
    var (c, reply) := HandleControl(a.ctl, m);
    if reply.Ack? || reply.StatsPush? {
      DrivenInLoop(a, c, m, reply, env);
    }
  }

  lemma DrivenInLoop(a: Agent, c: Control, m: ControlMessage, reply: ControlMessage, env: AgentEnv)
    requires InLoop(a) && HandleControl(a.ctl, m) == (c, reply) && (reply.Ack? || reply.StatsPush?)
    requires !m.DetachSession? && !m.ShutdownSession?
    ensures LoopTrace(Drive(c, a.mgr, m, reply, env).0.mgr.trace)
  {
    match m
    case AttachSession(session, _) => NotedInLoop(a.mgr.trace, Attached(session));
    case SetPolicy(_, enabled, _) => NotedInLoop(a.mgr.trace, PolicySet(enabled));
    case StartMedia(_) => MediaInLoop(a.mgr, env.media);
    case KillSwitch(_, _) => KillInLoop(a.mgr.trace);
    case SignalForward(_, kind, _) => SignalInLoop(a.mgr, kind, env.applied, env.ice);
    case _ =>
  }

  lemma PolledInLoop(b: Agent, ice: seq<string>)
    requires InLoop(b) && b.ctl.session.Some? && !b.ctl.killed
    ensures InLoop(b.(mgr := Gather(b.mgr, ice)))
  {
    GatherInLoop(b.mgr, ice);
  }

  lemma DrainedInLoop(b: Agent, m: ControlMessage, reply: ControlMessage, env: AgentEnv)
    requires InLoop(b)
    ensures InLoop(Drain(b, m, reply, env).0)
  {
    if Rebuilds(m, reply) {
      FreshInLoop();
    } else {
      var taken := b.(mgr := b.mgr.(outbound := []));
      AgentProofs.OutboxKeepsInv(b.mgr, b.mgr.media, []);
      PeerPolledInLoop(taken, env);
      PumpedInLoop(PollPeer(taken, env), m, env);
    }
  }

  lemma PeerPolledInLoop(b: Agent, env: AgentEnv)
    requires InLoop(b)
    ensures InLoop(PollPeer(b, env))
  {
    if b.ctl.session.Some? && !b.ctl.killed {
      PolledInLoop(b, env.polled);
    }
  }

  lemma PumpedInLoop(b: Agent, m: ControlMessage, env: AgentEnv)
    requires InLoop(b)
    ensures InLoop(Pump(b, m, env))
  {
    if b.ctl.mediaStarted {
      PolledInLoop(b, env.pumped);
    }
  }

  lemma FreshInLoop()
    ensures InLoop(NewAgent())
  {
  }

  lemma ServedInLoop(secret: Option<Bytes>, a: Agent, m: ControlMessage, env: AgentEnv)
    requires InLoop(a)
    ensures InLoop(Serve(secret, a, m, env).0)
  {
    ServeWithoutForbidden(secret, a, m, env);
    if !NeedsAttach(secret, a, m) {
      var (b, reply) := Handle(a, m, env);
      if Rebuilds(m, reply) {
        FreshInLoop();
      } else {
        HandledInLoop(a, m, env);
        DrainedInLoop(b, m, reply, env);
      }
    }
  }

  /** What holds of every agent holds of the one behind the control loop. */
  lemma {:induction false} EveryRunIsInLoop(secret: Option<Bytes>, steps: seq<ControlLoop.Step>)
    requires ValidRun(secret, steps)
    ensures InLoop(ControlLoop.Run(secret, steps).agent)
  {
    if steps == [] {
      FreshInLoop();
    } else {
      var s := ControlLoop.Run(secret, steps[..|steps| - 1]);
      EveryRunIsInLoop(secret, steps[..|steps| - 1]);
      match steps[|steps| - 1]
      case AgentReceive(env) => ServedInLoop(secret, s.agent, s.toAgent[0], env);
      case Reconnect => FreshInLoop();
      case _ =>
    }
  }

  // ---- when a candidate leaves under another session ---------------------------------------

  /** Where a session was attached and then none is, one has been killed or detached. */
  lemma {:induction false} EndedSince(h: seq<Event>, p: nat, a: nat) returns (k: nat)
    requires p <= a <= |h| && CurrentSession(h[..p]).Some? && CurrentSession(h[..a]).None?
    ensures p <= k < a && (h[k].Detached? || h[k].Killed?)
  {
    assert h[..a][..a - 1] == h[..a - 1];
    if IsBoundary(h[a - 1]) {
      k := a - 1;
    } else {
      k := EndedSince(h, p, a - 1);
    }
  }

  /** Handed over at p, then a kill at k, then another session attached at a, all before any queueing up to q. */
  ghost predicate OutlivesAKill(h: seq<Event>, p: nat, k: nat, a: nat, q: nat, c: Candidate) {
    OutlivesItsSession(h, p, a, q, c) && p < k < a && h[k].Killed?
  }

  /** Exactly when a candidate leaves under a session it was not gathered in, behind the control loop: it was handed
      over after the last queueing, a kill-switch ended its session, and the next session was attached to the same
      agent. */
  lemma LeavesUnderAnotherSessionExactlyAfterKill(secret: Option<Bytes>, steps: seq<ControlLoop.Step>,
                                                  q: nat, c: Candidate)
    requires ValidRun(secret, steps)
    requires var h := ControlLoop.Run(secret, steps).agent.mgr.trace; q < |h| && h[q].Queued?
    ensures var h := ControlLoop.Run(secret, steps).agent.mgr.trace;
      (c in h[q].ice && c.session != Some(h[q].session))
        <==> exists p: nat, k: nat, a: nat :: OutlivesAKill(h, p, k, a, q, c)
  {
    EveryRunIsInLoop(secret, steps);
    ForeignExactlyAfterKill(ControlLoop.Run(secret, steps).agent.mgr.trace, q, c);
  }

  lemma ForeignExactlyAfterKill(h: seq<Event>, q: nat, c: Candidate)
    requires GoodTrace(h) && LoopTrace(h) && q < |h| && h[q].Queued?
    ensures (c in h[q].ice && c.session != Some(h[q].session))
      <==> exists p: nat, k: nat, a: nat :: OutlivesAKill(h, p, k, a, q, c)
  {
    ForeignExactlyWhen(h, q, c);
    if p: nat, a: nat :| OutlivesItsSession(h, p, a, q, c) {
      var k := EndedSince(h, p, a);
      var kill := if h[k].Killed? then k else k + 1;
      assert OutlivesAKill(h, p, kill, a, q, c);
    }
  }

  // ---- such a run --------------------------------------------------------------------------

  /** The candidate waits in the manager of session `sid`. */
  ghost predicate WaitsIn(a: Agent, sid: ShortText, ice: string) {
    InLoop(a) && a.ctl.session == Some(sid) && !a.ctl.killed && Candidate(Some(sid), ice) in a.mgr.gathered
  }

  lemma PolledWaits(sid: ShortText, a: Agent, env: AgentEnv, ice: string)
    requires InLoop(a) && a.ctl.session == Some(sid) && !a.ctl.killed && ice in env.polled
    ensures WaitsIn(PollPeer(a, env), sid, ice)
  {
    PeerPolledInLoop(a, env);
    var k :| 0 <= k < |env.polled| && env.polled[k] == ice;
    assert Tagged(a.mgr.sid, env.polled)[k] == Candidate(Some(sid), ice);
  }

  /** Behind the start of its media a session has what the next poll hands over waiting. */
  lemma StartedSessionWaits(sid: ShortText, a: Agent, env: AgentEnv, ice: string)
    requires InLoop(a) && a.ctl.session == Some(sid) && !a.ctl.killed && ice in env.polled
    ensures WaitsIn(Serve(None, a, StartMedia(sid), env).0, sid, ice)
  {
    var m := StartMedia(sid);
    ServeWithoutForbidden(None, a, m, env);
    HandledInLoop(a, m, env);
    StartKeepsSession(sid, a, env);
    DrainWaits(sid, Handle(a, m, env).0, Handle(a, m, env).1, env, ice);
  }

  lemma StartKeepsSession(sid: ShortText, a: Agent, env: AgentEnv)
    requires a.ctl.session == Some(sid) && !a.ctl.killed
    ensures Handle(a, StartMedia(sid), env).0.ctl.session == Some(sid) && !Handle(a, StartMedia(sid), env).0.ctl.killed
  {
  }

  lemma DrainWaits(sid: ShortText, b: Agent, reply: ControlMessage, env: AgentEnv, ice: string)
    requires InLoop(b) && b.ctl.session == Some(sid) && !b.ctl.killed && ice in env.polled
    ensures WaitsIn(Drain(b, StartMedia(sid), reply, env).0, sid, ice)
  {
    AgentProofs.OutboxKeepsInv(b.mgr, b.mgr.media, []);
    PolledWaits(sid, b.(mgr := b.mgr.(outbound := [])), env, ice);
  }

  /** A kill-switch leaves it where it is ... */
  lemma KillLeavesItWaiting(sid: ShortText, a: Agent, env: AgentEnv, ice: string)
    requires WaitsIn(a, sid, ice)
    ensures var b := Serve(None, a, KillSwitch(None, false), env).0;
      InLoop(b) && b.ctl.killed && b.ctl.session == Some(sid) && Candidate(Some(sid), ice) in b.mgr.gathered
  {
    var m := KillSwitch(None, false);
    ServedInLoop(None, a, m, env);
    ServeWithoutForbidden(None, a, m, env);
    KillHandled(a, env);
    DrainKeepsWaiting(Handle(a, m, env).0, m, Handle(a, m, env).1, env, Candidate(Some(sid), ice));
  }

  lemma KillHandled(a: Agent, env: AgentEnv)
    ensures var (b, reply) := Handle(a, KillSwitch(None, false), env);
      b.ctl.killed && b.ctl.session == a.ctl.session && b.mgr.gathered == a.mgr.gathered
  {
    assert HandleControl(a.ctl, KillSwitch(None, false)).1.Ack?;
  }

  lemma DrainKeepsWaiting(b: Agent, m: ControlMessage, reply: ControlMessage, env: AgentEnv, c: Candidate)
    requires !Rebuilds(m, reply) && c in b.mgr.gathered
    ensures var d := Drain(b, m, reply, env).0;
      d.ctl == b.ctl && d.mgr.media == b.mgr.media && c in d.mgr.gathered
  {
  }

  /** ... and so does the attach of the next session ... */
  lemma AttachLeavesItWaiting(next: ShortText, a: Agent, env: AgentEnv, c: Candidate)
    requires InLoop(a) && a.ctl.killed && c in a.mgr.gathered
    ensures var b := Serve(None, a, AttachSession(next, None), env).0;
      InLoop(b) && b.ctl.session == Some(next) && !b.ctl.killed && !b.mgr.media && c in b.mgr.gathered
  {
    var m := AttachSession(next, None);
    ServedInLoop(None, a, m, env);
    ServeWithoutForbidden(None, a, m, env);
    assert HandleControl(a.ctl, m).1.Ack?;
    DrainKeepsWaiting(Handle(a, m, env).0, m, Handle(a, m, env).1, env, c);
  }

  /** ... whose media then sends it out under the new id. */
  lemma NextSessionSendsIt(next: ShortText, a: Agent, env: AgentEnv, c: Candidate)
    requires InLoop(a) && a.ctl.session == Some(next) && !a.ctl.killed && !a.mgr.media && c in a.mgr.gathered
    requires MediaReady(env.media)
    ensures SignalForward(next, ICE_CANDIDATE, c.payload) in Serve(None, a, StartMedia(next), env).1
  {
    var m := StartMedia(next);
    ServeWithoutForbidden(None, a, m, env);
    MediaHandled(next, a, env);
    var k := MediaSends(next, a.mgr, env.media, c);
    DrainSends(Handle(a, m, env).0, m, Handle(a, m, env).1, env, k);
  }

  lemma MediaHandled(sid: ShortText, a: Agent, env: AgentEnv)
    requires a.ctl.session == Some(sid) && !a.ctl.killed
    ensures Handle(a, StartMedia(sid), env).0.mgr == ManagerModel.StartMedia(a.mgr, env.media).0
  {
    assert HandleControl(a.ctl, StartMedia(sid)).1.Ack?;
  }

  lemma DrainSends(b: Agent, m: ControlMessage, reply: ControlMessage, env: AgentEnv, k: nat)
    requires k < |b.mgr.outbound|
    ensures var o := b.mgr.outbound[k];
      SignalForward(o.sid, o.kind, o.payload) in Drain(b, m, reply, env).1
  {
    DrainForwardsTheOutbox(b, m, reply, env, k + 1);
    assert Drain(b, m, reply, env).1[k + 1] in Drain(b, m, reply, env).1;
  }

  lemma MediaSends(sid: ShortText, m: Manager, env: MediaEnv, c: Candidate) returns (k: nat)
    requires m.sid == Some(sid) && !m.media && c in m.gathered && MediaReady(env)
    ensures var n := ManagerModel.StartMedia(m, env).0;
      k < |n.outbound| && n.outbound[k] == Signal(sid, ICE_CANDIDATE, c.payload)
  {
    var i :| 0 <= i < |m.gathered| && m.gathered[i] == c;
    k := |m.outbound| + i + if env.peerNew then 1 else 0;
  }

  /** The run: attach A, start its media, a poll hands over a candidate; kill; attach B, start its media.  Whether or
      not the peer still makes an offer, A's candidate leaves under the id of B. */
  lemma KilledSessionsCandidateLeavesWithTheNext(a: ShortText, b: ShortText, ice: string, quiet: AgentEnv,
                                                 first: AgentEnv, second: AgentEnv)
    requires ice in first.polled && MediaReady(second.media)
    ensures var a1 := Serve(None, NewAgent(), AttachSession(a, None), quiet).0;
      var a2 := Serve(None, a1, StartMedia(a), first).0;
      var a3 := Serve(None, a2, KillSwitch(None, false), quiet).0;
      var a4 := Serve(None, a3, AttachSession(b, None), quiet).0;
      SignalForward(b, ICE_CANDIDATE, ice) in Serve(None, a4, StartMedia(b), second).1
  {
    var a1 := Serve(None, NewAgent(), AttachSession(a, None), quiet).0;
    FirstAttach(a, quiet);
    var a2 := Serve(None, a1, StartMedia(a), first).0;
    StartedSessionWaits(a, a1, first, ice);
    var a3 := Serve(None, a2, KillSwitch(None, false), quiet).0;
    KillLeavesItWaiting(a, a2, quiet, ice);
    var a4 := Serve(None, a3, AttachSession(b, None), quiet).0;
    AttachLeavesItWaiting(b, a3, quiet, Candidate(Some(a), ice));
    NextSessionSendsIt(b, a4, second, Candidate(Some(a), ice));
  }

  lemma FirstAttach(sid: ShortText, env: AgentEnv)
    ensures var b := Serve(None, NewAgent(), AttachSession(sid, None), env).0;
      InLoop(b) && b.ctl.session == Some(sid) && !b.ctl.killed
  {
    FreshInLoop();
    ServeWithoutForbidden(None, NewAgent(), AttachSession(sid, None), env);
    ServedInLoop(None, NewAgent(), AttachSession(sid, None), env);
  }
}
