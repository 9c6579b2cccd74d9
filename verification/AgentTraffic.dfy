/** What an agent counts of the input it is sent, and what it queues for the service. */
module AgentTraffic {
  import opened Common
  import opened ManagerModel
  import opened AgentModel
  import opened AgentProofs
  import M = ManagerModel
  import P = ManagerProofs
  import OtpCodes

  // ---- input counters ----------------------------------------------------------------------

  lemma EndKeepsCounted(c: Control, mgr: Manager, m: ControlMessage, reply: ControlMessage, env: AgentEnv)
    requires P.Counted(mgr) && (m.AttachSession? || m.DetachSession? || m.ShutdownSession? || m.KillSwitch?)
    ensures P.Counted(Drive(c, mgr, m, reply, env).0.mgr)
  {
    var n := Drive(c, mgr, m, reply, env).0.mgr;
    if m.AttachSession? {
      P.BoundaryIsCounted(n, mgr.trace, Attached(m.session));
    } else if m.KillSwitch? {
      P.BoundaryIsCounted(n, mgr.trace + [Detached], Killed);
    } else {
      P.BoundaryIsCounted(n, mgr.trace, Detached);
    }
  }

  lemma PolicyKeepsCounted(c: Control, mgr: Manager, m: ControlMessage, reply: ControlMessage, env: AgentEnv)
    requires P.Counted(mgr) && m.SetPolicy?
    ensures P.Counted(Drive(c, mgr, m, reply, env).0.mgr)
  {
    P.QuietKeepsCounts(mgr.trace, PolicySet(m.enableInput), mgr.rejected, mgr.decodeErrors, mgr.rateLimited);
  }

  lemma OthersCountNothing(c: Control, mgr: Manager, m: ControlMessage, reply: ControlMessage, env: AgentEnv)
    requires !m.AttachSession? && !m.DetachSession? && !m.ShutdownSession? && !m.KillSwitch? && !m.SetPolicy?
    requires !m.StartMedia? && !m.SignalForward?
    ensures var n := Drive(c, mgr, m, reply, env).0.mgr;
      && n.trace == mgr.trace && n.rejected == mgr.rejected && n.decodeErrors == mgr.decodeErrors
      && n.rateLimited == mgr.rateLimited
  {
  }

  /** Handing candidates over and queueing them leaves the counters alone. */
  lemma TransportKeepsCounted(mgr: Manager, ice: seq<string>, sid: ShortText)
    requires P.Counted(mgr)
    ensures P.Counted(M.Gather(mgr, ice)) && P.Counted(M.QueueIce(mgr, sid))
  {
    var handed := Gathered(M.Tagged(mgr.sid, ice));
    P.QuietKeepsCounts(mgr.trace, handed, mgr.rejected, mgr.decodeErrors, mgr.rateLimited);
    var queued := Queued(sid, mgr.gathered);
    P.QuietKeepsCounts(mgr.trace, queued, mgr.rejected, mgr.decodeErrors, mgr.rateLimited);
  }

  lemma MediaKeepsCounted(mgr: Manager, env: MediaEnv)
    requires P.Counted(mgr)
    ensures P.Counted(M.StartMedia(mgr, env).0)
  {
    if mgr.sid.Some? && !mgr.media && env.captureOk {
      var on := mgr.(media := true);
      var made := M.Gather(on, env.ice);
      TransportKeepsCounted(on, env.ice, mgr.sid.value);
      if env.peerNew && env.offer.Some? {
        var offer := Signal(mgr.sid.value, SESSION_OFFER, env.offer.value);
        TransportKeepsCounted(made.(outbound := made.outbound + [offer]), [], mgr.sid.value);
      }
    }
  }

  lemma SignalKeepsCounted(mgr: Manager, kind: string, applied: bool, ice: seq<string>)
    requires P.Counted(mgr)
    ensures P.Counted(M.ApplySignal(mgr, kind, applied, ice).0)
  {
    var sid := if mgr.sid.Some? then mgr.sid.value else [];
    TransportKeepsCounted(mgr, ice, sid);
    TransportKeepsCounted(M.Gather(mgr, ice), [], sid);
  }

  lemma DriveKeepsCounted(c: Control, mgr: Manager, m: ControlMessage, reply: ControlMessage, env: AgentEnv)
    requires P.Counted(mgr)
    ensures P.Counted(Drive(c, mgr, m, reply, env).0.mgr)
  {
    if m.AttachSession? || m.DetachSession? || m.ShutdownSession? || m.KillSwitch? {
      EndKeepsCounted(c, mgr, m, reply, env);
    } else if m.SetPolicy? {
      PolicyKeepsCounted(c, mgr, m, reply, env);
    } else if m.StartMedia? {
      MediaKeepsCounted(mgr, env.media);
    } else if m.SignalForward? {
      SignalKeepsCounted(mgr, m.kind, env.applied, env.ice);
    } else {
      OthersCountNothing(c, mgr, m, reply, env);
    }
  }

  lemma NotedKeepsCounted(mgr: Manager, n: Manager, e: Event)
    requires P.Counted(mgr) && OutcomeOf(e).None? && !IsBoundary(e)
    requires n.trace == mgr.trace || n.trace == mgr.trace + [e]
    requires n.rejected == mgr.rejected && n.decodeErrors == mgr.decodeErrors && n.rateLimited == mgr.rateLimited
    ensures P.Counted(n)
  {
    if n.trace != mgr.trace {
      P.QuietKeepsCounts(mgr.trace, e, mgr.rejected, mgr.decodeErrors, mgr.rateLimited);
    }
  }

  /** The steps beside commands and polls leave at most one event, and not about input. */
  lemma QuietStepKeepsCounted(w: World, a: Agent, st: Step, e: Event)
    requires P.Counted(a.mgr) && !st.Command? && !st.Inbounds? && !st.HandOver?
    requires e == if st.Challenge? then Challenged(st.nonce) else if st.TakeInput? then Drained else Authorized
    ensures P.Counted(Apply(w, a, st).mgr)
  {
    NotedKeepsCounted(a.mgr, Apply(w, a, st).mgr, e);
  }

  lemma StepKeepsCounted(w: World, a: Agent, st: Step)
    requires P.Counted(a.mgr)
    ensures P.Counted(Apply(w, a, st).mgr)
  {
    match st
    case Command(msg, env) =>
      var (c, reply) := HandleControl(a.ctl, msg);
      if reply.Ack? || reply.StatsPush? {
        DriveKeepsCounted(c, a.mgr, msg, reply, env);
      }
    case Inbounds(msgs) => P.PollKeepsCounted(w, a.mgr.(policyEnabled := InputGate(a.ctl)), msgs);
    case Challenge(_, nonce, _) => QuietStepKeepsCounted(w, a, st, Challenged(nonce));
    case TakeInput => QuietStepKeepsCounted(w, a, st, Drained);
    case HandOver(ice) => TransportKeepsCounted(a.mgr, ice, []);
    case _ => QuietStepKeepsCounted(w, a, st, Authorized);
  }

  lemma {:induction false} EveryRunIsCounted(w: World, steps: seq<Step>)
    ensures P.Counted(Run(w, steps).mgr)
  {
    if steps != [] {
      EveryRunIsCounted(w, steps[..|steps| - 1]);
      StepKeepsCounted(w, Run(w, steps[..|steps| - 1]), steps[|steps| - 1]);
    }
  }

  /** No input message is lost or counted twice: as long as a session has seen no more than u64 counts, the three
      counters and the injected events add up to its input messages. */
  lemma CountersAddUp(w: World, steps: seq<Step>)
    requires Inputs(Since(Run(w, steps).mgr.trace)) <= U64_MAX
    ensures var m := Run(w, steps).mgr; var s := Since(m.trace);
      m.rejected + m.decodeErrors + m.rateLimited + Count(s, Injected) == Inputs(s)
  {
    EveryRunIsCounted(w, steps);
    P.OutcomesAddUp(Since(Run(w, steps).mgr.trace));
  }

  /** And a poll that goes through adds exactly the input messages of its batch. */
  lemma PollCountsItsMessages(w: World, steps: seq<Step>, msgs: seq<Inbound>)
    requires M.PollInbound(w, Run(w, steps).mgr, msgs).1.Done?
    ensures Inputs(Since(Poll(w, Run(w, steps), msgs).mgr.trace))
      == Inputs(Since(Run(w, steps).mgr.trace)) + P.InputMessages(msgs)
  {
    var a := Run(w, steps);
    EveryRunIsCounted(w, steps);
    EveryRunKeepsInv(w, steps);
    assert a.mgr.(policyEnabled := InputGate(a.ctl)) == a.mgr;
    P.PollKeepsCounted(w, a.mgr, msgs);
  }

  // ---- the outbox --------------------------------------------------------------------------

  /** Everything queued is an offer or a candidate and carries the id of the session the manager is attached to. */
  ghost predicate OwnOutbox(m: Manager) {
    forall k :: 0 <= k < |m.outbound| ==>
      m.sid == Some(m.outbound[k].sid) && (m.outbound[k].kind == SESSION_OFFER || m.outbound[k].kind == ICE_CANDIDATE)
  }

  lemma DriveKeepsOwnOutbox(c: Control, mgr: Manager, m: ControlMessage, reply: ControlMessage, env: AgentEnv)
    requires OwnOutbox(mgr)
    ensures OwnOutbox(Drive(c, mgr, m, reply, env).0.mgr)
  {
  }

  lemma HandleKeepsOwnOutbox(a: Agent, m: ControlMessage, env: AgentEnv)
    requires OwnOutbox(a.mgr)
    ensures OwnOutbox(Handle(a, m, env).0.mgr)
  {
    var (c, reply) := HandleControl(a.ctl, m);
    if reply.Ack? || reply.StatsPush? {
      DriveKeepsOwnOutbox(c, a.mgr, m, reply, env);
    }
  }

  lemma {:induction false} PollKeepsOutbox(w: World, a: Agent, msgs: seq<Inbound>)
    ensures Poll(w, a, msgs).mgr.outbound == a.mgr.outbound && Poll(w, a, msgs).mgr.sid == a.mgr.sid
  {
    PollLeavesTheRest(w, a.mgr.(policyEnabled := InputGate(a.ctl)), msgs);
  }

  lemma StepKeepsOwnOutbox(w: World, a: Agent, st: Step)
    requires OwnOutbox(a.mgr)
    ensures OwnOutbox(Apply(w, a, st).mgr)
  {
    match st
    case Command(msg, env) => HandleKeepsOwnOutbox(a, msg, env);
    case Inbounds(msgs) => PollKeepsOutbox(w, a, msgs);
    case _ =>
  }

  /** On every run every signal in the outbox carries the id of the attached session, and there is none when none is
      attached.  A candidate need not have been gathered in that session; see the module Candidates. */
  lemma {:induction false} OutboxCarriesTheAttachedId(w: World, steps: seq<Step>)
    ensures OwnOutbox(Run(w, steps).mgr)
    ensures Run(w, steps).mgr.sid.None? ==> Run(w, steps).mgr.outbound == []
  {
    if steps != [] {
      OutboxCarriesTheAttachedId(w, steps[..|steps| - 1]);
      StepKeepsOwnOutbox(w, Run(w, steps[..|steps| - 1]), steps[|steps| - 1]);
    }
    var m := Run(w, steps).mgr;
    assert m.outbound != [] ==> m.sid == Some(m.outbound[0].sid);
  }

  /** What the transport hands over while a command is carried out. */
  function HandedOver(m: ControlMessage, env: AgentEnv): seq<string> {
    if m.StartMedia? then (if env.media.peerNew then env.media.ice else []) else env.ice
  }

  predicate IsDescription(m: ControlMessage) {
    m.SignalForward? && (m.kind == SESSION_OFFER || m.kind == SESSION_ANSWER)
  }

  /** What one command queues: only starting the media of the session or a remote description for it does, and it
      queues at most one offer, then every candidate handed over so far, in order. */
  lemma OnlyMediaAndDescriptionsQueue(a: Agent, m: ControlMessage, env: AgentEnv)
    requires InStep(a) && Sound(a.ctl)
    requires Handle(a, m, env).0.mgr.outbound != a.mgr.outbound && Handle(a, m, env).0.mgr.outbound != []
    ensures (m.StartMedia? || IsDescription(m)) && a.mgr.sid == Some(m.session) && a.ctl.session == Some(m.session)
    ensures exists offers: seq<Signal> ::
      && |offers| <= 1 && (m.SignalForward? ==> offers == [])
      && (forall k :: 0 <= k < |offers| ==> offers[k].kind == SESSION_OFFER && offers[k].sid == m.session)
      && QueuesBehind(a.mgr, Handle(a, m, env).0.mgr, offers, m.session, HandedOver(m, env))
  {
    var n := Handle(a, m, env).0.mgr;
    if m.StartMedia? {
      var offers := if env.media.peerNew then [Signal(m.session, SESSION_OFFER, env.media.offer.value)] else [];
      QueuedBy(n, a.mgr, offers, m.session, HandedOver(m, env));
    } else {
      QueuedBy(n, a.mgr, [], m.session, HandedOver(m, env));
    }
  }

  predicate QueuesBehind(mgr: Manager, n: Manager, offers: seq<Signal>, sid: ShortText, ice: seq<string>) {
    n.outbound == mgr.outbound + offers + M.IceSignals(sid, M.Payloads(mgr.gathered + M.Tagged(mgr.sid, ice)))
  }

  lemma QueuedBy(n: Manager, mgr: Manager, offers: seq<Signal>, sid: ShortText, ice: seq<string>)
    requires
      var all := mgr.gathered + M.Tagged(mgr.sid, ice);
      || n.outbound == mgr.outbound + offers + M.IceSignals(sid, M.Payloads(all))
      || (offers == [] && n.outbound == mgr.outbound + M.IceSignals(sid, M.Payloads(all)))
      || (offers == [] && ice == [] && n.outbound == mgr.outbound + M.IceSignals(sid, M.Payloads(mgr.gathered)))
    ensures QueuesBehind(mgr, n, offers, sid, ice)
  {
    if offers == [] {
      assert mgr.outbound + [] == mgr.outbound;
    }
    if ice == [] {
      assert mgr.gathered + M.Tagged(mgr.sid, ice) == mgr.gathered;
    }
  }

  /** So from an empty outbox, whatever a command queues carries the id of the session it names. */
  lemma QueuedCarriesTheId(a: Agent, m: ControlMessage, env: AgentEnv, k: nat)
    requires InStep(a) && Sound(a.ctl) && a.mgr.outbound == []
    requires k < |Handle(a, m, env).0.mgr.outbound|
    ensures m.StartMedia? || IsDescription(m)
    ensures var o := Handle(a, m, env).0.mgr.outbound[k];
      o.sid == m.session && (o.kind == SESSION_OFFER || o.kind == ICE_CANDIDATE)
  {
    OnlyMediaAndDescriptionsQueue(a, m, env);
  }
}
