/** The session agent (apps/host/src/agent.rs): control state driven by messages from the service, in step
    with a session manager. */
module AgentModel {
  import opened Common
  import opened ManagerModel
  import M = ManagerModel
  import OtpCodes
  import opened Transcript

  /** packages/platform-windows/src/ipc/message.rs, without the fields the agent ignores. */
  datatype ControlMessage =
    | AttachSession(session: ShortText, bootSecret: Option<Bytes>)
    | DetachSession(session: ShortText)
    | SignalForward(session: ShortText, kind: string, payload: string)
    | SetPolicy(session: ShortText, enableInput: bool, unattended: bool)
    | StartMedia(session: ShortText)
    | StopMedia(session: ShortText)
    | QueryStats(target: Option<ShortText>)
    | StatsPush(session: ShortText)
    | ShowSessionChrome(session: ShortText, visible: bool)
    | ShutdownSession(session: ShortText)
    | KillSwitch(target: Option<ShortText>, disableUnattended: bool)
    | LocalConfirmResult(session: ShortText, accepted: bool)
    | Ack(forMethod: Option<string>, about: Option<ShortText>)
    | Error(code: ErrorCode, about: Option<ShortText>)

  datatype ErrorCode =
    | NotAttached | SessionMismatch | SwitchKilled | Busy | ChromeMandatory | UnattendedOff | Unexpected | AuthFailed

  /** AgentSessionState. */
  datatype Control = Control(
    session: Option<ShortText>,
    mediaStarted: bool,
    enableInput: bool,
    unattended: bool,
    chromeVisible: bool,
    killed: bool,
    unattendedDisabled: bool)

  datatype Agent = Agent(ctl: Control, mgr: Manager)

  /** What the transport answers to a command: while media starts; whether it applied a signal, and the candidates
      it handed over meanwhile; the candidates it hands over at the poll behind the command, and at those of the
      media pump behind the sentinel. */
  datatype AgentEnv = AgentEnv(
    media: MediaEnv,
    applied: bool,
    ice: seq<string>,
    polled: seq<string>,
    pumped: seq<string>)

  function NoControl(unattendedDisabled: bool): Control {
    Control(None, false, false, false, false, false, unattendedDisabled)
  }

  function NewAgent(): Agent {
    Agent(NoControl(false), Fresh([], []))
  }

  function MethodName(m: ControlMessage): string {
    match m
    case AttachSession(_, _) => "attach_session"
    case DetachSession(_) => "detach_session"
    case SignalForward(_, _, _) => "signal_forward"
    case SetPolicy(_, _, _) => "set_policy"
    case StartMedia(_) => "start_media"
    case StopMedia(_) => "stop_media"
    case QueryStats(_) => "query_stats"
    case StatsPush(_) => "stats_push"
    case ShowSessionChrome(_, _) => "show_session_chrome"
    case ShutdownSession(_) => "shutdown_session"
    case KillSwitch(_, _) => "kill_switch"
    case LocalConfirmResult(_, _) => "local_confirm_result"
    case Ack(_, _) => "ack"
    case Error(_, _) => "error"
  }

  // ---- control state -----------------------------------------------------------------------

  function Acked(m: ControlMessage, session: Option<ShortText>): ControlMessage {
    Ack(Some(MethodName(m)), session)
  }

  function RequireSession(c: Control, session: ShortText): Option<ControlMessage> {
    if c.session.None? then Some(Error(NotAttached, Some(session)))
    else if c.session.value == session then None
    else Some(Error(SessionMismatch, Some(session)))
  }

  function RequireLive(c: Control, session: ShortText): Option<ControlMessage> {
    var mismatch := RequireSession(c, session);
    if mismatch.Some? then mismatch
    else if c.killed then Some(Error(SwitchKilled, Some(session)))
    else None
  }

  function HandleAttach(c: Control, m: ControlMessage): (Control, ControlMessage)
    requires m.AttachSession?
  {
    if c.session.Some? && !c.killed then (c, Error(Busy, Some(m.session)))
    else (Control(Some(m.session), false, false, false, true, false, c.unattendedDisabled), Acked(m, Some(m.session)))
  }

  function HandleEnd(c: Control, m: ControlMessage): (Control, ControlMessage)
    requires m.DetachSession? || m.ShutdownSession?
  {
    match RequireSession(c, m.session)
    case Some(e) => (c, e)
    case None => (NoControl(c.unattendedDisabled), Acked(m, Some(m.session)))
  }

  function HandlePolicy(c: Control, m: ControlMessage): (Control, ControlMessage)
    requires m.SetPolicy?
  {
    match RequireLive(c, m.session)
    case Some(e) => (c, e)
    case None =>
      if m.unattended && c.unattendedDisabled then (c, Error(UnattendedOff, Some(m.session)))
      else (c.(enableInput := m.enableInput, unattended := m.unattended), Acked(m, Some(m.session)))
  }

  function HandleStats(c: Control, m: ControlMessage): (Control, ControlMessage)
    requires m.QueryStats?
  {
    if m.target.Some? then
      match RequireSession(c, m.target.value)
      case Some(e) => (c, e)
      case None => (c, StatsPush(m.target.value))
    else if c.session.None? then (c, Error(NotAttached, None))
    else (c, StatsPush(c.session.value))
  }

  /** A request to hide the chrome forces it on and is refused. */
  function HandleChrome(c: Control, m: ControlMessage): (Control, ControlMessage)
    requires m.ShowSessionChrome?
  {
    match RequireLive(c, m.session)
    case Some(e) => (c, e)
    case None =>
      (c.(chromeVisible := true),
       if m.visible then Acked(m, Some(m.session)) else Error(ChromeMandatory, Some(m.session)))
  }

  /** Without a target the switch always applies, attached or not. */
  function HandleKill(c: Control, m: ControlMessage): (Control, ControlMessage)
    requires m.KillSwitch?
  {
    if m.target.Some? && c.session.None? then (c, Error(NotAttached, m.target))
    else if m.target.Some? && m.target != c.session then (c, Error(SessionMismatch, m.target))
    else
      (Control(c.session, false, false, false, false, true, c.unattendedDisabled || m.disableUnattended),
       Acked(m, m.target))
  }

  function HandleControl(c: Control, m: ControlMessage): (Control, ControlMessage) {
    match m
    case AttachSession(_, _) => HandleAttach(c, m)
    case DetachSession(_) => HandleEnd(c, m)
    case ShutdownSession(_) => HandleEnd(c, m)
    case SetPolicy(_, _, _) => HandlePolicy(c, m)
    case StartMedia(session) =>
      (match RequireLive(c, session)
       case Some(e) => (c, e)
       case None => (c.(mediaStarted := true), Acked(m, Some(session))))
    case StopMedia(session) =>
      (match RequireSession(c, session)
       case Some(e) => (c, e)
       case None => (c.(mediaStarted := false), Acked(m, Some(session))))
    case QueryStats(_) => HandleStats(c, m)
    case ShowSessionChrome(_, _) => HandleChrome(c, m)
    case KillSwitch(_, _) => HandleKill(c, m)
    case SignalForward(session, _, _) =>
      (match RequireLive(c, session)
       case Some(e) => (c, e)
       case None => (c, Acked(m, Some(session))))
    case LocalConfirmResult(_, _) => (c, Error(Unexpected, c.session))
    case StatsPush(_) => (c, Error(Unexpected, c.session))
    case Ack(_, _) => (c, Error(Unexpected, c.session))
    case Error(_, _) => (c, Error(Unexpected, c.session))
  }

  // ---- the agent ---------------------------------------------------------------------------

  predicate InputGate(c: Control) {
    c.enableInput && !c.killed
  }

  predicate IsPeerSignal(kind: string) {
    kind == SESSION_OFFER || kind == SESSION_ANSWER || kind == ICE_CANDIDATE
  }

  /** What an accepted command does to the manager, and the reply, which can still turn into an error. */
  function Drive(c: Control, mgr: Manager, m: ControlMessage, reply: ControlMessage, env: AgentEnv)
    : (Agent, ControlMessage)
  {
    match m
    case AttachSession(session, _) => (Agent(c, M.Attach(mgr, session)), reply)
    case DetachSession(_) => (Agent(c, M.Detach(mgr)), reply)
    case ShutdownSession(_) => (Agent(c, M.Detach(mgr)), reply)
    case SetPolicy(_, enabled, _) => (Agent(c, Note(mgr.(policyEnabled := InputGate(c)), PolicySet(enabled))), reply)
    case StartMedia(_) =>
      var (n, status) := M.StartMedia(mgr, env.media);
      if status.Failed? then (Agent(c.(mediaStarted := false), n), Error(Unexpected, c.session))
      else (Agent(c, n), reply)
    case StopMedia(_) => (Agent(c, mgr.(media := false)), reply)
    case KillSwitch(_, _) =>
      (Agent(c, Note(M.Detach(mgr.(media := false)).(policyEnabled := InputGate(c)), Killed)), reply)
    case SignalForward(session, kind, _) =>
      if !IsPeerSignal(kind) then (Agent(c, mgr), reply)
      else
        var (n, status) := M.ApplySignal(mgr, kind, env.applied, env.ice);
        (Agent(c, n), if status.Failed? then Error(Unexpected, Some(session)) else reply)
    case _ => (Agent(c, mgr), reply)
  }

  function Handle(a: Agent, m: ControlMessage, env: AgentEnv): (Agent, ControlMessage) {
    var (c, reply) := HandleControl(a.ctl, m);
    if reply.Ack? || reply.StatsPush? then Drive(c, a.mgr, m, reply, env)
    else (a.(ctl := c), reply)
  }

  function Poll(w: World, a: Agent, msgs: seq<Inbound>): Agent {
    a.(mgr := M.PollInbound(w, a.mgr.(policyEnabled := InputGate(a.ctl)), msgs).0)
  }

  predicate InputInjectionAllowed(a: Agent) {
    a.ctl.enableInput && !a.ctl.killed && InputAllowed(a.mgr)
  }

  // ---- runs --------------------------------------------------------------------------------

  datatype Step =
    | Command(msg: ControlMessage, env: AgentEnv)
    | Inbounds(msgs: seq<Inbound>)
    | ModeA(record: OtpCodes.Record, code: string, pepper: Bytes, now: u64)
    | ModeB(secret: Bytes, serverNonce: ShortBytes, fpHost: ShortBytes, fpViewer: ShortBytes, mac: Bytes)
    | UnattendedSecret(secret: Bytes)
    | Challenge(connected: bool, nonce: Nonce, sent: bool)
    | TakeInput
    | TakeSignals
    | HandOver(ice: seq<string>)
    | ReenableUnattended

  function Apply(w: World, a: Agent, st: Step): Agent {
    match st
    case Command(msg, env) => Handle(a, msg, env).0
    case Inbounds(msgs) => Poll(w, a, msgs)
    case ModeA(record, code, pepper, now) =>
      (match OtpCodes.AuthorizeRecord(w.crypto, record, code, pepper, now)
       case Ok(key) => a.(mgr := M.Authorize(a.mgr, key))
       case Err(_) => a)
    case ModeB(secret, nonce, fpHost, fpViewer, mac) =>
      a.(mgr := M.AuthorizeModeB(w, a.mgr, secret, nonce, fpHost, fpViewer, mac).0)
    case UnattendedSecret(secret) => a.(mgr := M.AuthorizeUnattended(a.mgr, secret).0)
    case Challenge(connected, nonce, sent) => a.(mgr := M.StartChallenge(a.mgr, connected, nonce, sent).0)
    case TakeInput => a.(mgr := M.TakeAccepted(a.mgr))
    case TakeSignals => a.(mgr := a.mgr.(outbound := []))
    case HandOver(ice) => a.(mgr := M.Gather(a.mgr, ice))
    case ReenableUnattended => a.(ctl := a.ctl.(unattendedDisabled := false))
  }

  function Run(w: World, steps: seq<Step>): Agent {
    if steps == [] then NewAgent() else Apply(w, Run(w, steps[..|steps| - 1]), steps[|steps| - 1])
  }
}
