/** What each command does to an agent: which commands are acknowledged, what the agent is like afterwards, and which
    error the others are answered with. */
module AgentCommands {
  import opened Common
  import opened ManagerModel
  import opened AgentModel
  import opened AgentProofs
  import M = ManagerModel
  import P = ManagerProofs

  /** The session a command is about.  An attach names the one to come. */
  function Names(m: ControlMessage): Option<ShortText> {
    match m
    case AttachSession(_, _) => None
    case QueryStats(target) => target
    case KillSwitch(target, _) => target
    case Ack(_, _) => None
    case Error(_, _) => None
    case _ => Some(m.session)
  }

  /** The messages that only the agent sends. */
  predicate IsReply(m: ControlMessage) {
    m.StatsPush? || m.LocalConfirmResult? || m.Ack? || m.Error?
  }

  // ---- commands for another session --------------------------------------------------------

  /** A command that names a session other than the attached one is answered with an error and leaves the agent as it
      was, flags and manager alike. */
  lemma OtherSessionIsRefused(a: Agent, m: ControlMessage, env: AgentEnv)
    requires Names(m).Some? && Names(m) != a.ctl.session
    ensures Handle(a, m, env).0 == a && Handle(a, m, env).1.Error?
    ensures !IsReply(m) ==>
      Handle(a, m, env).1 == Error(if a.ctl.session.None? then NotAttached else SessionMismatch, Names(m))
  {
  }

  // ---- which commands are acknowledged -----------------------------------------------------

  predicate LiveIn(c: Control, session: ShortText) {
    c.session == Some(session) && !c.killed
  }

  predicate Admits(a: Agent, m: ControlMessage, env: AgentEnv) {
    match m
    case AttachSession(_, _) => a.ctl.session.None? || a.ctl.killed
    case DetachSession(session) => a.ctl.session == Some(session)
    case ShutdownSession(session) => a.ctl.session == Some(session)
    case StopMedia(session) => a.ctl.session == Some(session)
    case SetPolicy(session, _, unattended) => LiveIn(a.ctl, session) && (unattended ==> !a.ctl.unattendedDisabled)
    case StartMedia(session) => LiveIn(a.ctl, session) && (a.mgr.media || MediaReady(env.media))
    case ShowSessionChrome(session, visible) => LiveIn(a.ctl, session) && visible
    case SignalForward(session, kind, _) => LiveIn(a.ctl, session) && (IsPeerSignal(kind) ==> env.applied)
    case KillSwitch(target, _) => target.None? || target == a.ctl.session
    case QueryStats(target) => a.ctl.session.Some? && (target.None? || target == a.ctl.session)
    case _ => false
  }

  function AckOf(a: Agent, m: ControlMessage): ControlMessage {
    match m
    case QueryStats(_) => StatsPush(if a.ctl.session.Some? then a.ctl.session.value else [])
    case AttachSession(session, _) => Ack(Some(MethodName(m)), Some(session))
    case _ => Ack(Some(MethodName(m)), Names(m))
  }

  /** In every reachable state a command goes through exactly when it names the attached session, if any, the session
      is not killed where that matters, and what it asks for is possible; all others are answered with an error. */
  lemma AcknowledgedExactlyWhen(w: World, steps: seq<Step>, m: ControlMessage, env: AgentEnv)
    ensures var a := Run(w, steps); var reply := Handle(a, m, env).1;
      if Admits(a, m, env) then reply == AckOf(a, m) else reply.Error?
  {
    EveryRunKeepsInv(w, steps);
    AcknowledgedBy(Run(w, steps), m, env);
  }

  lemma AcknowledgedBy(a: Agent, m: ControlMessage, env: AgentEnv)
    requires InStep(a)
    ensures var reply := Handle(a, m, env).1;
      if Admits(a, m, env) then reply == AckOf(a, m) else reply.Error?
  {
    if m.StartMedia? {
      MediaAnswers(a, m, env);
    } else if m.SignalForward? {
      SignalAnswers(a, m, env);
    }
  }

  lemma MediaAnswers(a: Agent, m: ControlMessage, env: AgentEnv)
    requires InStep(a) && m.StartMedia?
    ensures var reply := Handle(a, m, env).1;
      if Admits(a, m, env) then reply == AckOf(a, m) else reply.Error?
  {
  }

  lemma SignalAnswers(a: Agent, m: ControlMessage, env: AgentEnv)
    requires InStep(a) && m.SignalForward?
    ensures var reply := Handle(a, m, env).1;
      if Admits(a, m, env) then reply == AckOf(a, m) else reply.Error?
  {
  }

  // ---- why the others are not --------------------------------------------------------------

  predicate NeedsLive(m: ControlMessage) {
    m.SetPolicy? || m.StartMedia? || m.ShowSessionChrome? || m.SignalForward?
  }

  /** The named errors, each exactly in its case. */
  lemma RefusedFor(a: Agent, m: ControlMessage, env: AgentEnv)
    ensures var reply := Handle(a, m, env).1;
      && (reply.Error? && reply.code.SwitchKilled?
          <==> NeedsLive(m) && a.ctl.session == Some(m.session) && a.ctl.killed)
      && (reply.Error? && reply.code.Busy? <==> m.AttachSession? && a.ctl.session.Some? && !a.ctl.killed)
      && (reply.Error? && reply.code.UnattendedOff? <==>
            m.SetPolicy? && LiveIn(a.ctl, m.session) && m.unattended && a.ctl.unattendedDisabled)
      && (reply.Error? && reply.code.ChromeMandatory? <==>
            m.ShowSessionChrome? && LiveIn(a.ctl, m.session) && !m.visible)
      && (reply.Error? && reply.code.SessionMismatch? <==>
            !IsReply(m) && a.ctl.session.Some? && Names(m).Some? && Names(m) != a.ctl.session)
      && (reply.Error? && reply.code.NotAttached? <==>
            !IsReply(m) && a.ctl.session.None? && (Names(m).Some? || m.QueryStats?))
  {
    if m.StartMedia? || m.SignalForward? {
      LateErrors(a, m, env);
    }
  }

  lemma LateErrors(a: Agent, m: ControlMessage, env: AgentEnv)
    requires m.StartMedia? || m.SignalForward?
    ensures var reply := Handle(a, m, env).1;
      reply.Error? ==>
        if a.ctl.session.None? then reply.code.NotAttached?
        else if a.ctl.session != Some(m.session) then reply.code.SessionMismatch?
        else if a.ctl.killed then reply.code.SwitchKilled?
        else reply.code.Unexpected?
    ensures !LiveIn(a.ctl, m.session) ==> Handle(a, m, env).1.Error?
  {
  }

  // ---- what an acknowledged command leaves -------------------------------------------------

  /** Nothing of a session: no key, no challenge, no binding, no input, no media, nothing to send. */
  predicate Blank(m: Manager) {
    && !m.media && m.outbound == [] && m.bindKey.None? && m.pending.None? && m.accepted == []
    && m.rejected == m.decodeErrors == m.rateLimited == 0
    && !m.policyEnabled && !m.identity.authorized && !m.identity.bound
  }

  /** All that belongs to the identity and the input of the session is as it was. */
  predicate SameSession(m: Manager, n: Manager) {
    && n.sid == m.sid && n.identity == m.identity && n.bindKey == m.bindKey && n.pending == m.pending
    && n.accepted == m.accepted && n.rejected == m.rejected && n.decodeErrors == m.decodeErrors
    && n.rateLimited == m.rateLimited
  }

  /** The agent behind an acknowledged command. */
  predicate Outcome(a: Agent, m: ControlMessage, b: Agent) {
    var latch := a.ctl.unattendedDisabled;
    match m
    case AttachSession(session, _) =>
      && b.ctl == Control(Some(session), false, false, false, true, false, latch)
      && Blank(b.mgr) && b.mgr.sid == Some(session) && b.mgr.identity.session == session
      && b.mgr.gathered == a.mgr.gathered
    case DetachSession(_) =>
      b.ctl == NoControl(latch) && Blank(b.mgr) && b.mgr.sid.None? && b.mgr.gathered == a.mgr.gathered
    case ShutdownSession(_) =>
      b.ctl == NoControl(latch) && Blank(b.mgr) && b.mgr.sid.None? && b.mgr.gathered == a.mgr.gathered
    case KillSwitch(_, disable) =>
      && b.ctl == Control(a.ctl.session, false, false, false, false, true, latch || disable)
      && Blank(b.mgr) && b.mgr.sid.None? && b.mgr.gathered == a.mgr.gathered
    case SetPolicy(_, enableInput, unattended) =>
      && b.ctl == a.ctl.(enableInput := enableInput, unattended := unattended)
      && b.mgr == a.mgr.(policyEnabled := enableInput, trace := b.mgr.trace)
    case StartMedia(_) => b.ctl == a.ctl.(mediaStarted := true) && b.mgr.media && SameSession(a.mgr, b.mgr)
    case StopMedia(_) => b.ctl == a.ctl.(mediaStarted := false) && b.mgr == a.mgr.(media := false)
    case SignalForward(_, _, _) => b.ctl == a.ctl && b.mgr.media == a.mgr.media && SameSession(a.mgr, b.mgr)
    case _ => b == a
  }

  /** In every reachable state an acknowledged command does exactly what it says: an attach starts with nothing of an
      earlier session but the candidates and the latch, a detach, shutdown or kill leaves nothing but these, a policy
      sets the two flags as asked, and the others touch nothing but media and signals. */
  lemma EffectOfAcknowledged(w: World, steps: seq<Step>, m: ControlMessage, env: AgentEnv)
    requires Admits(Run(w, steps), m, env)
    ensures Outcome(Run(w, steps), m, Handle(Run(w, steps), m, env).0)
  {
    EveryRunKeepsInv(w, steps);
    EffectOf(Run(w, steps), m, env);
  }

  lemma EffectOf(a: Agent, m: ControlMessage, env: AgentEnv)
    requires InStep(a) && Sound(a.ctl) && Admits(a, m, env)
    ensures Outcome(a, m, Handle(a, m, env).0)
  {
    var (c, reply) := HandleControl(a.ctl, m);
    assert reply.Ack? || reply.StatsPush?;
    if m.StartMedia? {
      MediaEffect(a, m, env);
    } else if m.SignalForward? {
      SignalEffect(a, m, env);
    } else if m.AttachSession? || m.DetachSession? || m.ShutdownSession? || m.KillSwitch? {
      BoundaryEffect(a, m, env);
    }
  }

  lemma MediaEffect(a: Agent, m: ControlMessage, env: AgentEnv)
    requires InStep(a) && Admits(a, m, env) && m.StartMedia?
    ensures Outcome(a, m, Handle(a, m, env).0)
  {
  }

  lemma SignalEffect(a: Agent, m: ControlMessage, env: AgentEnv)
    requires Admits(a, m, env) && m.SignalForward?
    ensures Outcome(a, m, Handle(a, m, env).0)
  {
  }

  lemma BoundaryEffect(a: Agent, m: ControlMessage, env: AgentEnv)
    requires Admits(a, m, env)
    requires m.AttachSession? || m.DetachSession? || m.ShutdownSession? || m.KillSwitch?
    ensures Outcome(a, m, Handle(a, m, env).0)
  {
  }

  // ---- policies over runs ------------------------------------------------------------------

  /** A policy is taken exactly when it is for the attached session, that is not killed, and no unattended access is
      asked for against the latch; the two flags are then the requested ones. */
  lemma PolicyTakenExactlyWhen(w: World, steps: seq<Step>, session: ShortText, enableInput: bool, unattended: bool,
                               env: AgentEnv)
    ensures var a := Run(w, steps); var (b, reply) := Handle(a, SetPolicy(session, enableInput, unattended), env);
      && (reply.Ack? <==> a.ctl.session == Some(session) && !a.ctl.killed && !(unattended && a.ctl.unattendedDisabled))
      && (reply.Ack? ==> b.ctl.enableInput == enableInput && b.ctl.unattended == unattended)
      && (!reply.Ack? ==> b == a)
  {
    var m := SetPolicy(session, enableInput, unattended);
    AcknowledgedExactlyWhen(w, steps, m, env);
    if Admits(Run(w, steps), m, env) {
      EffectOfAcknowledged(w, steps, m, env);
    }
  }

  lemma CommandKeepsPolicy(a: Agent, m: ControlMessage, env: AgentEnv)
    requires Inv(a) && (a.ctl.enableInput <==> PolicyOn(Since(a.mgr.trace)))
    ensures var b := Handle(a, m, env).0; b.ctl.enableInput <==> PolicyOn(Since(b.mgr.trace))
  {
    var (c, reply) := HandleControl(a.ctl, m);
    if reply.Ack? || reply.StatsPush? {
      DriveKeepsPolicy(a, m, c, reply, env);
    } else {
      ControlKeepsSound(a.ctl, m);
    }
  }

  lemma DriveKeepsPolicy(a: Agent, m: ControlMessage, c: Control, reply: ControlMessage, env: AgentEnv)
    requires a.ctl.enableInput <==> PolicyOn(Since(a.mgr.trace))
    requires HandleControl(a.ctl, m) == (c, reply) && (reply.Ack? || reply.StatsPush?)
    ensures var b := Drive(c, a.mgr, m, reply, env).0; b.ctl.enableInput <==> PolicyOn(Since(b.mgr.trace))
  {
    if m.AttachSession? || m.DetachSession? || m.ShutdownSession? || m.KillSwitch? {
      BoundaryEndsPolicy(a, m, c, reply, env);
    } else if m.SetPolicy? {
      PolicySets(a, m, c, reply, env);
    } else {
      OthersKeepTheFlag(a.ctl, m);
      OthersKeepPolicy(a.mgr, m, c, reply, env);
    }
  }

  lemma PolicySets(a: Agent, m: ControlMessage, c: Control, reply: ControlMessage, env: AgentEnv)
    requires m.SetPolicy? && HandleControl(a.ctl, m) == (c, reply) && reply.Ack?
    ensures var b := Drive(c, a.mgr, m, reply, env).0;
      b.ctl.enableInput == m.enableInput && PolicyOn(Since(b.mgr.trace)) == m.enableInput
  {
    PolicyAfter(a.mgr.trace, PolicySet(m.enableInput));
  }

  lemma OthersKeepTheFlag(c: Control, m: ControlMessage)
    requires !m.AttachSession? && !m.DetachSession? && !m.ShutdownSession? && !m.KillSwitch? && !m.SetPolicy?
    ensures HandleControl(c, m).0.enableInput == c.enableInput
  {
  }

  lemma OthersKeepPolicy(mgr: Manager, m: ControlMessage, c: Control, reply: ControlMessage, env: AgentEnv)
    requires !m.AttachSession? && !m.DetachSession? && !m.ShutdownSession? && !m.KillSwitch? && !m.SetPolicy?
    ensures var b := Drive(c, mgr, m, reply, env).0;
      b.ctl.enableInput == c.enableInput && PolicyOn(Since(b.mgr.trace)) == PolicyOn(Since(mgr.trace))
  {
    if m.StartMedia? {
      MediaKeepsPolicy(mgr, env.media);
    } else if m.SignalForward? {
      SignalKeepsPolicy(mgr, m.kind, env.applied, env.ice);
    }
  }

  lemma BoundaryEndsPolicy(a: Agent, m: ControlMessage, c: Control, reply: ControlMessage, env: AgentEnv)
    requires HandleControl(a.ctl, m) == (c, reply) && reply.Ack?
    requires m.AttachSession? || m.DetachSession? || m.ShutdownSession? || m.KillSwitch?
    ensures var b := Drive(c, a.mgr, m, reply, env).0; !b.ctl.enableInput && !PolicyOn(Since(b.mgr.trace))
  {
    var h := a.mgr.trace;
    match m
    case AttachSession(session, _) => P.AppendSince(h, Attached(session));
    case DetachSession(_) => P.AppendSince(h, Detached);
    case ShutdownSession(_) => P.AppendSince(h, Detached);
    case KillSwitch(_, _) => P.AppendSince(h + [Detached], Killed);
  }

  lemma PolicyAfter(h: seq<Event>, e: Event)
    requires !IsBoundary(e)
    ensures PolicyOn(Since(h + [e])) == if e.PolicySet? then e.enabled else PolicyOn(Since(h))
  {
    P.AppendSince(h, e);
    P.AppendSince(Since(h), e);
  }

  lemma TransportKeepsPolicy(m: Manager, ice: seq<string>, sid: ShortText)
    ensures PolicyOn(Since(Gather(m, ice).trace)) == PolicyOn(Since(m.trace))
    ensures PolicyOn(Since(QueueIce(m, sid).trace)) == PolicyOn(Since(m.trace))
  {
    PolicyAfter(m.trace, Gathered(Tagged(m.sid, ice)));
    PolicyAfter(m.trace, Queued(sid, m.gathered));
  }

  lemma MediaKeepsPolicy(m: Manager, env: MediaEnv)
    ensures PolicyOn(Since(M.StartMedia(m, env).0.trace)) == PolicyOn(Since(m.trace))
  {
    if m.sid.Some? && !m.media && env.captureOk {
      var on := m.(media := true);
      TransportKeepsPolicy(on, env.ice, m.sid.value);
      if env.peerNew && env.offer.Some? {
        var offer := Signal(m.sid.value, SESSION_OFFER, env.offer.value);
        TransportKeepsPolicy(Gather(on, env.ice).(outbound := m.outbound + [offer]), [], m.sid.value);
      }
    }
  }

  lemma SignalKeepsPolicy(m: Manager, kind: string, applied: bool, ice: seq<string>)
    ensures PolicyOn(Since(M.ApplySignal(m, kind, applied, ice).0.trace)) == PolicyOn(Since(m.trace))
  {
    var sid := if m.sid.Some? then m.sid.value else [];
    TransportKeepsPolicy(m, ice, sid);
    TransportKeepsPolicy(Gather(m, ice), [], sid);
    SignalSteps(m, kind, applied, ice, sid);
  }

  lemma SignalSteps(m: Manager, kind: string, applied: bool, ice: seq<string>, sid: ShortText)
    requires m.sid.Some? ==> m.sid == Some(sid)
    ensures var n := M.ApplySignal(m, kind, applied, ice).0;
      n == m || n == Gather(m, ice) || n == QueueIce(Gather(m, ice), sid)
  {
  }

  lemma {:induction false} PollKeepsPolicy(w: World, m: Manager, msgs: seq<Inbound>)
    ensures PolicyOn(Since(M.PollInbound(w, m, msgs).0.trace)) == PolicyOn(Since(m.trace))
    decreases |msgs|
  {
    if msgs != [] {
      if msgs[0].channel == IDENTITY_CHANNEL {
        IdentityKeepsPolicy(w, m, msgs[0]);
        PollKeepsPolicy(w, M.HandleIdentity(w, m, msgs[0]).0, msgs[1..]);
      } else if msgs[0].channel == INPUT_CHANNEL {
        InputKeepsPolicy(w, m, msgs[0]);
        PollKeepsPolicy(w, M.ProcessInput(w, m, msgs[0]).0, msgs[1..]);
      } else {
        PollKeepsPolicy(w, m, msgs[1..]);
      }
    }
  }

  lemma IdentityKeepsPolicy(w: World, m: Manager, msg: Inbound)
    ensures PolicyOn(Since(M.HandleIdentity(w, m, msg).0.trace)) == PolicyOn(Since(m.trace))
  {
    var n := M.HandleIdentity(w, m, msg).0;
    if n != m {
      PolicyAfter(m.trace, n.trace[|m.trace|]);
    }
  }

  lemma InputKeepsPolicy(w: World, m: Manager, msg: Inbound)
    ensures PolicyOn(Since(M.ProcessInput(w, m, msg).0.trace)) == PolicyOn(Since(m.trace))
  {
    P.InputMovesItsCounter(w, m, msg);
    PolicyAfter(m.trace, P.InputEventOf(w, m, msg));
  }

  lemma QuietKeepsPolicy(w: World, a: Agent, st: Step)
    requires !st.Command? && !st.Inbounds? && (a.ctl.enableInput <==> PolicyOn(Since(a.mgr.trace)))
    ensures var b := Apply(w, a, st); b.ctl.enableInput <==> PolicyOn(Since(b.mgr.trace))
  {
    var b := Apply(w, a, st);
    assert b.mgr.trace == a.mgr.trace
      || (|b.mgr.trace| == |a.mgr.trace| + 1 && b.mgr.trace[..|a.mgr.trace|] == a.mgr.trace);
    if b.mgr.trace != a.mgr.trace {
      var e := b.mgr.trace[|a.mgr.trace|];
      assert b.mgr.trace == a.mgr.trace + [e];
      PolicyAfter(a.mgr.trace, e);
    }
  }

  /** On every run input is enabled exactly when the policy accepted last in the present session enables it. */
  lemma {:induction false} InputIsEnabledByTheLastPolicy(w: World, steps: seq<Step>)
    ensures Run(w, steps).ctl.enableInput <==> PolicyOn(Since(Run(w, steps).mgr.trace))
  {
    if steps != [] {
      var a, st := Run(w, steps[..|steps| - 1]), steps[|steps| - 1];
      InputIsEnabledByTheLastPolicy(w, steps[..|steps| - 1]);
      EveryRunKeepsInv(w, steps[..|steps| - 1]);
      if st.Command? {
        CommandKeepsPolicy(a, st.msg, st.env);
      } else if st.Inbounds? {
        PollKeepsPolicy(w, a.mgr.(policyEnabled := InputGate(a.ctl)), st.msgs);
      } else {
        QuietKeepsPolicy(w, a, st);
      }
    }
  }
}
