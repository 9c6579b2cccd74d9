/** The agent as the program has it: control flags edited in place, beside a session manager object. */
module AgentService {
  import opened Common
  import opened ManagerModel
  import opened AgentModel
  import opened ManagerService

  class AgentSessionState {
    var session: Option<ShortText>
    var mediaStarted: bool
    var enableInput: bool
    var unattended: bool
    var chromeVisible: bool
    var killed: bool
    var unattendedDisabled: bool

    function State(): Control
      reads this
    {
      Control(session, mediaStarted, enableInput, unattended, chromeVisible, killed, unattendedDisabled)
    }

    constructor ()
      ensures State() == NoControl(false)
    {
      session, mediaStarted, enableInput, unattended := None, false, false, false;
      chromeVisible, killed, unattendedDisabled := false, false, false;
    }

    /** Reset what belongs to the session; the unattended latch belongs to the host. */
    method ClearSession()
      modifies this
      ensures State() == NoControl(old(unattendedDisabled))
    {
      session, mediaStarted, enableInput, unattended := None, false, false, false;
      chromeVisible, killed := false, false;
    }

    method ReenableUnattendedLocal()
      modifies this`unattendedDisabled
      ensures State() == old(State()).(unattendedDisabled := false)
    {
      unattendedDisabled := false;
    }

    method Attach(m: ControlMessage) returns (reply: ControlMessage)
      requires m.AttachSession?
      modifies this
      ensures (State(), reply) == HandleAttach(old(State()), m)
    {
      if session.Some? && !killed {
        return Error(Busy, Some(m.session));
      }
      session := Some(m.session);
      mediaStarted := false;
      enableInput := false;
      unattended := false;
      chromeVisible := true;
      killed := false;
      return Acked(m, Some(m.session));
    }

    method Kill(m: ControlMessage) returns (reply: ControlMessage)
      requires m.KillSwitch?
      modifies this
      ensures (State(), reply) == HandleKill(old(State()), m)
    {
      var applies := m.target.None? || (session.Some? && m.target.value == session.value);
      if !applies {
        return if session.None? then Error(NotAttached, m.target) else Error(SessionMismatch, m.target);
      }
      killed := true;
      mediaStarted := false;
      enableInput := false;
      unattended := false;
      chromeVisible := false;
      if m.disableUnattended {
        unattendedDisabled := true;
      }
      return Acked(m, m.target);
    }

    method HandleMessage(m: ControlMessage) returns (reply: ControlMessage)
      modifies this
      ensures (State(), reply) == HandleControl(old(State()), m)
    {
      match m
      case AttachSession(_, _) =>
        reply := Attach(m);
      case DetachSession(_) =>
        reply := End(m);
      case ShutdownSession(_) =>
        reply := End(m);
      case SetPolicy(_, _, _) =>
        reply := Policy(m);
      case StartMedia(sid) =>
        var refusal := RequireLive(State(), sid);
        if refusal.Some? {
          return refusal.value;
        }
        mediaStarted := true;
        reply := Acked(m, Some(sid));
      case StopMedia(sid) =>
        var refusal := RequireSession(State(), sid);
        if refusal.Some? {
          return refusal.value;
        }
        mediaStarted := false;
        reply := Acked(m, Some(sid));
      case QueryStats(_) =>
        reply := HandleStats(State(), m).1;
      case ShowSessionChrome(_, _) =>
        reply := Chrome(m);
      case KillSwitch(_, _) =>
        reply := Kill(m);
      case SignalForward(sid, _, _) =>
        var refusal := RequireLive(State(), sid);
        reply := if refusal.Some? then refusal.value else Acked(m, Some(sid));
      case _ =>
        reply := Error(Unexpected, session);
    }

    method End(m: ControlMessage) returns (reply: ControlMessage)
      requires m.DetachSession? || m.ShutdownSession?
      modifies this
      ensures (State(), reply) == HandleEnd(old(State()), m)
    {
      var refusal := RequireSession(State(), m.session);
      if refusal.Some? {
        return refusal.value;
      }
      ClearSession();
      return Acked(m, Some(m.session));
    }

    method Policy(m: ControlMessage) returns (reply: ControlMessage)
      requires m.SetPolicy?
      modifies this`enableInput, this`unattended
      ensures (State(), reply) == HandlePolicy(old(State()), m)
    {
      var refusal := RequireLive(State(), m.session);
      if refusal.Some? {
        return refusal.value;
      }
      if m.unattended && unattendedDisabled {
        return Error(UnattendedOff, Some(m.session));
      }
      enableInput := m.enableInput;
      unattended := m.unattended;
      return Acked(m, Some(m.session));
    }

    method Chrome(m: ControlMessage) returns (reply: ControlMessage)
      requires m.ShowSessionChrome?
      modifies this`chromeVisible
      ensures (State(), reply) == HandleChrome(old(State()), m)
    {
      var refusal := RequireLive(State(), m.session);
      if refusal.Some? {
        return refusal.value;
      }
      chromeVisible := true;
      return if m.visible then Acked(m, Some(m.session)) else Error(ChromeMandatory, Some(m.session));
    }
  }

  class AgentSession {
    const state: AgentSessionState
    const manager: SessionManager

    ghost function State(): Agent
      reads this, state, manager
    {
      Agent(state.State(), manager.State())
    }

    constructor ()
      ensures State() == NewAgent() && fresh(state) && fresh(manager)
    {
      state := new AgentSessionState();
      manager := new SessionManager();
    }

    method SyncInputPolicy()
      modifies manager`policyEnabled
      ensures manager.policyEnabled == InputGate(state.State())
    {
      manager.SetInputPolicyEnabled(state.enableInput && !state.killed);
    }

    method PollInbound(w: World, msgs: seq<Inbound>) returns (r: Status)
      modifies manager
      ensures State() == Poll(w, old(State()), msgs)
    {
      SyncInputPolicy();
      r := manager.PollInboundMessages(w, msgs);
    }

    method HandleMessage(m: ControlMessage, env: AgentEnv) returns (reply: ControlMessage)
      modifies state, manager
      ensures (State(), reply) == Handle(old(State()), m, env)
    {
      reply := state.HandleMessage(m);
      if reply.Ack? || reply.StatsPush? {
        reply := DriveManager(m, reply, env);
      }
    }

    /** End the media plane and clear the session binding. */
    method KillManager()
      modifies manager
      ensures manager.State()
        == Note(Detach(old(manager.State()).(media := false)).(policyEnabled := InputGate(state.State())), Killed)
    {
      manager.StopMedia();
      manager.DetachSession();
      SyncInputPolicy();
      manager.trace := manager.trace + [Killed];
    }

    method BeginMedia(m: ControlMessage, reply: ControlMessage, env: AgentEnv) returns (r: ControlMessage)
      requires m.StartMedia?
      modifies state`mediaStarted, manager
      ensures (State(), r) == Drive(old(state.State()), old(manager.State()), m, reply, env)
    {
      var status := manager.StartMediaPlane(env.media);
      if status.Failed? {
        state.mediaStarted := false;
        return Error(Unexpected, state.session);
      }
      return reply;
    }

    method ForwardSignal(m: ControlMessage, reply: ControlMessage, env: AgentEnv) returns (r: ControlMessage)
      requires m.SignalForward?
      modifies manager
      ensures (State(), r) == Drive(old(state.State()), old(manager.State()), m, reply, env)
    {
      r := reply;
      if IsPeerSignal(m.kind) {
        var status := manager.ApplyPeerSignal(m.kind, env.applied, env.ice);
        if status.Failed? {
          r := Error(Unexpected, Some(m.session));
        }
      }
    }

    method DriveManager(m: ControlMessage, reply: ControlMessage, env: AgentEnv) returns (r: ControlMessage)
      modifies state`mediaStarted, manager
      ensures (State(), r) == Drive(old(state.State()), old(manager.State()), m, reply, env)
    {
      r := reply;
      match m
      case AttachSession(sid, _) =>
        manager.AttachSession(sid);
      case DetachSession(_) =>
        manager.DetachSession();
      case ShutdownSession(_) =>
        manager.DetachSession();
      case SetPolicy(_, enabled, _) =>
        SyncInputPolicy();
        manager.trace := manager.trace + [PolicySet(enabled)];
      case StartMedia(_) =>
        r := BeginMedia(m, reply, env);
      case StopMedia(_) =>
        manager.StopMedia();
      case KillSwitch(_, _) =>
        KillManager();
      case SignalForward(_, _, _) =>
        r := ForwardSignal(m, reply, env);
      case _ =>
    }
  }
}
