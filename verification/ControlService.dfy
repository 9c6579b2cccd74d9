/** The two ends of the control connection as the program has them: the loop that serves the agent, and the
    client that sends a command, reads the reply and drains what follows. */
module ControlService {
  import opened Common
  import opened ManagerModel
  import opened AgentModel
  import opened AgentService
  import opened ControlLoop
  import opened Transcript

  // ---- agent side --------------------------------------------------------------------------

  /** The agent after a series of commands, and everything sent for them. */
  function ServeAll(secret: Option<Bytes>, a: Agent, incoming: seq<(ControlMessage, AgentEnv)>)
    : (Agent, seq<ControlMessage>)
  {
    if incoming == [] then (a, [])
    else
      var n := |incoming| - 1;
      var (b, sent) := ServeAll(secret, a, incoming[..n]);
      var (c, more) := Serve(secret, b, incoming[n].0, incoming[n].1);
      (c, sent + more)
  }

  class AgentServer {
    const secret: Option<Bytes>
    var agent: AgentSession

    constructor (secret: Option<Bytes>)
      ensures agent.State() == NewAgent() && this.secret == secret
      ensures fresh(agent) && fresh(agent.state) && fresh(agent.manager)
    {
      this.secret := secret;
      agent := new AgentSession();
    }

    method SendForbidden(name: string, list: seq<string>) returns (sent: seq<ControlMessage>)
      ensures sent == ForbiddenReplies(name, list)
    {
      sent := [];
      assert list[0..] == list;
      for i := 0 to |list|
        invariant sent + ForbiddenReplies(name, list[i..]) == ForbiddenReplies(name, list)
      {
        assert list[i..][1..] == list[i + 1..];
        if name == list[i] {
          sent := sent + [Error(Unexpected, None), DrainAck()];
          continue;
        }
      }
    }

    method HandleOne(m: ControlMessage, env: AgentEnv) returns (sent: seq<ControlMessage>)
      modifies this, agent.state, agent.manager
      ensures (agent.State(), sent) == HandleAndDrain(old(agent.State()), m, env)
      ensures agent == old(agent) || (fresh(agent) && fresh(agent.state) && fresh(agent.manager))
    {
      var wasDetach := m.DetachSession? || m.ShutdownSession?;
      var reply := agent.HandleMessage(m, env);
      sent := [reply];
      PollThePeer(env);
      var signals := agent.manager.TakeOutboundSignals();
      sent := sent + Forwards(signals);
      sent := sent + [DrainAck()];
      PumpMedia(m, env);
      if wasDetach && reply.Ack? {
        agent := new AgentSession();
      }
    }

    method PollThePeer(env: AgentEnv)
      modifies agent.manager
      ensures agent.State() == PollPeer(old(agent.State()), env)
    {
      if agent.state.session.Some? && !agent.state.killed {
        agent.manager.OnIceCandidates(env.polled);
      }
    }

    method PumpMedia(m: ControlMessage, env: AgentEnv)
      modifies agent.manager
      ensures agent.State() == Pump(old(agent.State()), m, env)
    {
      if MayPump(m) && agent.state.mediaStarted {
        agent.manager.OnIceCandidates(env.pumped);
      }
    }

    method ServeOne(m: ControlMessage, env: AgentEnv) returns (sent: seq<ControlMessage>)
      modifies this, agent.state, agent.manager
      ensures (agent.State(), sent) == Serve(secret, old(agent.State()), m, env)
      ensures agent == old(agent) || (fresh(agent) && fresh(agent.state) && fresh(agent.manager))
    {
      sent := SendForbidden(MethodName(m), FORBIDDEN_MEDIA_METHODS);
      if m.AttachSession? {
        if !BootSecretOk(secret, m.bootSecret) {
          sent := sent + [Error(AuthFailed, Some(m.session)), DrainAck()];
          return;
        }
      } else if secret.Some? && agent.state.session.None? {
        sent := sent + [Error(AuthFailed, None), DrainAck()];
        return;
      }
      var more := HandleOne(m, env);
      sent := sent + more;
    }

    method ServeConnection(incoming: seq<(ControlMessage, AgentEnv)>) returns (sent: seq<ControlMessage>)
      modifies this, agent.state, agent.manager
      ensures (agent.State(), sent) == ServeAll(secret, old(agent.State()), incoming)
    {
      sent := [];
      for i := 0 to |incoming|
        invariant agent == old(agent) || (fresh(agent) && fresh(agent.state) && fresh(agent.manager))
        invariant (agent.State(), sent) == ServeAll(secret, old(agent.State()), incoming[..i])
      {
        assert incoming[..i + 1][..i] == incoming[..i];
        var more := ServeOne(incoming[i].0, incoming[i].1);
        sent := sent + more;
      }
      assert incoming[..|incoming|] == incoming;
    }
  }

  function ControlAll(c: Control, incoming: seq<(ControlMessage, AgentEnv)>): Control {
    if incoming == [] then c else ControlAfter(ControlAll(c, incoming[..|incoming| - 1]), incoming[|incoming| - 1].0)
  }

  lemma {:induction false} ServeAllControl(a: Agent, incoming: seq<(ControlMessage, AgentEnv)>)
    requires forall i :: 0 <= i < |incoming| ==> !incoming[i].0.StartMedia?
    ensures ServeAll(None, a, incoming).0.ctl == ControlAll(a.ctl, incoming)
  {
    if incoming != [] {
      var n := |incoming| - 1;
      ServeAllControl(a, incoming[..n]);
      ServeControl(ServeAll(None, a, incoming[..n]).0, incoming[n].0, incoming[n].1);
    }
  }

  /** So a kill that switches unattended access off, a detach, an attach and a policy suffice to switch it back
      on remotely, in any live session. */
  lemma KillThenDetachReopensUnattended(sid: ShortText, a: Agent, env: AgentEnv)
    requires a.ctl.session == Some(sid)
    ensures var kill := (KillSwitch(Some(sid), true), env);
      var after := [(DetachSession(sid), env), (AttachSession(sid, None), env), (SetPolicy(sid, false, true), env)];
      ServeAll(None, a, [kill]).0.ctl.unattendedDisabled && ServeAll(None, a, [kill] + after).0.ctl.unattended
  {
    var kill := (KillSwitch(Some(sid), true), env);
    var after := [(DetachSession(sid), env), (AttachSession(sid, None), env), (SetPolicy(sid, false, true), env)];
    ServeAllControl(a, [kill]);
    ServeAllControl(a, [kill] + after);
    ControlChain(a.ctl, sid, env, [kill] + after);
    assert ([kill] + after)[..1] == [kill];
  }

  lemma ControlChain(c: Control, sid: ShortText, env: AgentEnv, all: seq<(ControlMessage, AgentEnv)>)
    requires c.session == Some(sid) && |all| == 4
    requires all[0].0 == KillSwitch(Some(sid), true) && all[1].0 == DetachSession(sid)
    requires all[2].0 == AttachSession(sid, None) && all[3].0 == SetPolicy(sid, false, true)
    ensures ControlAll(c, all[..1]).unattendedDisabled && ControlAll(c, all).unattended
  {
    assert all[..4] == all && all[..4][..3] == all[..3] && all[..3][..2] == all[..2];
    assert all[..2][..1] == all[..1] && all[..1][..0] == [];
    assert ControlAll(c, all[..0]) == c;
    assert ControlAll(c, all[..1]) == ControlAfter(c, all[0].0);
    assert ControlAll(c, all[..2]) == NoControl(false);
    assert ControlAll(c, all[..3]) == Control(Some(sid), false, false, false, true, false, false);
  }

  // ---- service side ------------------------------------------------------------------------

  datatype Requested =
    | Returned(answer: Answer, rest: seq<ControlMessage>)
    | Protocol(unexpected: ControlMessage)
    | Disconnected

  function DrainFrom(reply: ControlMessage, outbound: seq<ControlMessage>, stream: seq<ControlMessage>): Requested
    decreases |stream|
  {
    if stream == [] then Disconnected
    else
      var next := stream[0];
      if next.Ack? && next.forMethod == Some(DRAIN_COMPLETE) then Returned(Answer(reply, outbound), stream[1..])
      else if next.SignalForward? || next.StatsPush? || next.LocalConfirmResult? then
        DrainFrom(reply, outbound + [next], stream[1..])
      else Protocol(next)
  }

  /** What `request` makes of the messages that arrive after it has sent its command. */
  function ReadAnswer(stream: seq<ControlMessage>): Requested {
    if stream == [] then Disconnected else DrainFrom(stream[0], [], stream[1..])
  }

  method Request(stream: seq<ControlMessage>) returns (r: Requested)
    ensures r == ReadAnswer(stream)
  {
    if stream == [] {
      return Disconnected;
    }
    var reply := stream[0];
    var outbound := [];
    var i := 1;
    while i < |stream|
      invariant 1 <= i <= |stream|
      invariant ReadAnswer(stream) == DrainFrom(reply, outbound, stream[i..])
    {
      var next := stream[i];
      i := i + 1;
      assert stream[i - 1..][1..] == stream[i..];
      match next
      case Ack(forMethod, _) =>
        if forMethod == Some(DRAIN_COMPLETE) {
          return Returned(Answer(reply, outbound), stream[i..]);
        }
        return Protocol(next);
      case SignalForward(_, _, _) => outbound := outbound + [next];
      case StatsPush(_) => outbound := outbound + [next];
      case LocalConfirmResult(_, _) => outbound := outbound + [next];
      case _ => return Protocol(next);
    }
    return Disconnected;
  }

  lemma {:induction false} DrainTakesForwards(reply: ControlMessage, outbound: seq<ControlMessage>,
                                              forwards: seq<ControlMessage>, more: seq<ControlMessage>)
    requires forall i :: 0 <= i < |forwards| ==> forwards[i].SignalForward?
    ensures DrainFrom(reply, outbound, forwards + [DrainAck()] + more)
      == Returned(Answer(reply, outbound + forwards), more)
    decreases |forwards|
  {
    var stream := forwards + [DrainAck()] + more;
    if forwards == [] {
      assert stream[1..] == more && outbound + forwards == outbound;
    } else {
      assert stream[1..] == forwards[1..] + [DrainAck()] + more;
      assert outbound + [forwards[0]] + forwards[1..] == outbound + forwards;
      DrainTakesForwards(reply, outbound + [forwards[0]], forwards[1..], more);
    }
  }

  /** Reading the agent's messages for one command takes exactly those messages and returns what they say,
      whatever may already follow them on the stream. */
  lemma RequestReadsOneExchange(secret: Option<Bytes>, a: Agent, m: ControlMessage, env: AgentEnv,
                                more: seq<ControlMessage>)
    ensures var sent := Serve(secret, a, m, env).1;
      ReadAnswer(sent + more) == Returned(Answer(sent[0], sent[1..|sent| - 1]), more)
  {
    var sent := Serve(secret, a, m, env).1;
    ServeIsWellFormed(secret, a, m, env);
    WellFormedIsReadBack(sent, more);
  }

  lemma WellFormedIsReadBack(sent: seq<ControlMessage>, more: seq<ControlMessage>)
    requires WellFormed(sent)
    ensures ReadAnswer(sent + more) == Returned(Answer(sent[0], sent[1..|sent| - 1]), more)
  {
    var forwards := sent[1..|sent| - 1];
    forall i | 0 <= i < |forwards| ensures forwards[i].SignalForward? {
      assert forwards[i] == sent[i + 1];
    }
    DrainTakesForwards(sent[0], [], forwards, more);
    assert (sent + more)[1..] == forwards + [DrainAck()] + more;
    assert [] + forwards == forwards;
  }

  // ---- starting a session ------------------------------------------------------------------

  datatype Start =
    | Started(outbound: seq<ControlMessage>)
    | AuthRejected(at: ControlMessage)
    | Rejected(at: ControlMessage)

  function StartSequence(sid: ShortText, enableInput: bool, secret: Option<Bytes>): seq<ControlMessage> {
    [AttachSession(sid, secret), SetPolicy(sid, enableInput, false), StartMedia(sid)]
  }

  /** One request as its caller sees it. */
  function Ask(secret: Option<Bytes>, a: Agent, m: ControlMessage, env: AgentEnv): (Agent, Answer) {
    var (b, sent) := Serve(secret, a, m, env);
    (b, Answer(sent[0], sent[1..|sent| - 1]))
  }

  function StartFrom(secret: Option<Bytes>, a: Agent, msgs: seq<ControlMessage>, env: AgentEnv,
                     outbound: seq<ControlMessage>): (Agent, Start)
    decreases |msgs|
  {
    if msgs == [] then (a, Started(outbound))
    else
      var (b, answer) := Ask(secret, a, msgs[0], env);
      if answer.reply.Ack? then StartFrom(secret, b, msgs[1..], env, outbound + answer.outbound)
      else if answer.reply.Error? && answer.reply.code.AuthFailed? then (b, AuthRejected(msgs[0]))
      else (b, Rejected(msgs[0]))
  }

  /** One `request`, the agent being the other end of the stream. */
  method RequestFrom(server: AgentServer, m: ControlMessage, env: AgentEnv) returns (answer: Answer)
    modifies server, server.agent.state, server.agent.manager
    ensures (server.agent.State(), answer) == Ask(server.secret, old(server.agent.State()), m, env)
    ensures server.agent == old(server.agent)
      || (fresh(server.agent) && fresh(server.agent.state) && fresh(server.agent.manager))
  {
    RequestReadsOneExchange(server.secret, server.agent.State(), m, env, []);
    var sent := server.ServeOne(m, env);
    assert sent + [] == sent;
    var answered := Request(sent);
    answer := answered.answer;
  }

  method StartSession(server: AgentServer, sid: ShortText, enableInput: bool, secret: Option<Bytes>, env: AgentEnv)
    returns (r: Start)
    modifies server, server.agent.state, server.agent.manager
    ensures (server.agent.State(), r)
      == StartFrom(server.secret, old(server.agent.State()), StartSequence(sid, enableInput, secret), env, [])
  {
    r := SendAll(server, StartSequence(sid, enableInput, secret), env);
  }

  method SendAll(server: AgentServer, msgs: seq<ControlMessage>, env: AgentEnv) returns (r: Start)
    modifies server, server.agent.state, server.agent.manager
    ensures (server.agent.State(), r) == StartFrom(server.secret, old(server.agent.State()), msgs, env, [])
  {
    var all := [];
    ghost var a := server.agent.State();
    assert msgs[0..] == msgs;
    for i := 0 to |msgs|
      invariant server.agent == old(server.agent)
        || (fresh(server.agent) && fresh(server.agent.state) && fresh(server.agent.manager))
      invariant server.agent.State() == a
      invariant StartFrom(server.secret, old(server.agent.State()), msgs, env, [])
        == StartFrom(server.secret, a, msgs[i..], env, all)
    {
      assert msgs[i..][1..] == msgs[i + 1..];
      var answer := RequestFrom(server, msgs[i], env);
      a := server.agent.State();
      if !answer.reply.Ack? {
        if answer.reply.Error? && answer.reply.code.AuthFailed? {
          return AuthRejected(msgs[i]);
        }
        return Rejected(msgs[i]);
      }
      all := all + answer.outbound;
    }
    return Started(all);
  }

  /** On a fresh agent the start sequence goes through exactly when the secret is right and the media plane
      comes up; it then leaves the session attached with the requested policy and media running, and returns the
      local offer, if one was due, and the candidates. */
  lemma StartOnFreshAgent(expected: Option<Bytes>, sid: ShortText, enableInput: bool, provided: Option<Bytes>,
                          env: AgentEnv)
    ensures var (a, r) := StartFrom(expected, NewAgent(), StartSequence(sid, enableInput, provided), env, []);
      && (r.Started? <==> BootSecretOk(expected, provided) && MediaReady(env.media))
      && (r.Started? ==> a.ctl == Control(Some(sid), true, enableInput, false, true, false, false))
      && (r.Started? ==> a.mgr.sid == Some(sid) && a.mgr.media)
      && (r.Started? ==> r.outbound == Forwards(FirstSignals(sid, env.polled + env.polled, env.media)))
      && (r.AuthRejected? <==> !BootSecretOk(expected, provided)) && (r.AuthRejected? ==> a == NewAgent())
  {
    if BootSecretOk(expected, provided) {
      StartReachesMedia(expected, sid, enableInput, provided, env);
      FreshMedia(expected, sid, enableInput, env);
      LastStep(expected, AfterPolicy(sid, enableInput, env), [StartMedia(sid)], env);
    } else {
      WrongSecret(expected, sid, enableInput, provided, env);
    }
  }

  lemma WrongSecret(expected: Option<Bytes>, sid: ShortText, enableInput: bool, provided: Option<Bytes>, env: AgentEnv)
    requires !BootSecretOk(expected, provided)
    ensures StartFrom(expected, NewAgent(), StartSequence(sid, enableInput, provided), env, [])
      == (NewAgent(), AuthRejected(AttachSession(sid, provided)))
  {
    ServeWithoutForbidden(expected, NewAgent(), AttachSession(sid, provided), env);
  }

  lemma StartReachesMedia(expected: Option<Bytes>, sid: ShortText, enableInput: bool, provided: Option<Bytes>,
                          env: AgentEnv)
    requires BootSecretOk(expected, provided)
    ensures StartFrom(expected, NewAgent(), StartSequence(sid, enableInput, provided), env, [])
      == StartFrom(expected, AfterPolicy(sid, enableInput, env), [StartMedia(sid)], env, [])
  {
    var msgs := StartSequence(sid, enableInput, provided);
    FreshAttach(expected, sid, provided, env);
    AckedStep(expected, NewAgent(), msgs, env, []);
    FreshPolicy(expected, sid, enableInput, env);
    AckedStep(expected, AfterAttach(sid, env), msgs[1..], env, []);
    assert msgs[1..][1..] == [StartMedia(sid)];
  }

  lemma AckedStep(secret: Option<Bytes>, a: Agent, msgs: seq<ControlMessage>, env: AgentEnv,
                  outbound: seq<ControlMessage>)
    requires msgs != [] && Ask(secret, a, msgs[0], env).1.reply.Ack? && Ask(secret, a, msgs[0], env).1.outbound == []
    ensures StartFrom(secret, a, msgs, env, outbound)
      == StartFrom(secret, Ask(secret, a, msgs[0], env).0, msgs[1..], env, outbound)
  {
    assert outbound + [] == outbound;
  }

  lemma LastStep(secret: Option<Bytes>, a: Agent, msgs: seq<ControlMessage>, env: AgentEnv)
    requires |msgs| == 1
    ensures var (b, answer) := Ask(secret, a, msgs[0], env);
      StartFrom(secret, a, msgs, env, []) == (b,
        if answer.reply.Ack? then Started(answer.outbound)
        else if answer.reply.Error? && answer.reply.code.AuthFailed? then AuthRejected(msgs[0])
        else Rejected(msgs[0]))
  {
    var answer := Ask(secret, a, msgs[0], env).1;
    assert [] + answer.outbound == answer.outbound;
  }

  function AfterAttach(sid: ShortText, env: AgentEnv): Agent {
    Agent(Control(Some(sid), false, false, false, true, false, false),
          Gather(Attach(Fresh([], []), sid), env.polled))
  }

  function AfterPolicy(sid: ShortText, enableInput: bool, env: AgentEnv): Agent {
    Agent(Control(Some(sid), false, enableInput, false, true, false, false),
          Gather(Note(AfterAttach(sid, env).mgr.(policyEnabled := enableInput), PolicySet(enableInput)), env.polled))
  }

  lemma QuietDrain(b: Agent, m: ControlMessage, reply: ControlMessage, env: AgentEnv)
    requires b.mgr.outbound == [] && !Rebuilds(m, reply) && !MayPump(m)
    ensures Drain(b, m, reply, env) == (PollPeer(b, env), [reply, DrainAck()])
  {
    assert b.mgr.(outbound := []) == b.mgr;
    NothingToForward(b, m, reply, env);
  }

  /** An acknowledged command of a manager with nothing queued is answered by the acknowledgement alone. */
  lemma QuietAck(secret: Option<Bytes>, a: Agent, m: ControlMessage, env: AgentEnv, b: Agent)
    requires !NeedsAttach(secret, a, m) && !m.DetachSession? && !m.ShutdownSession?
    requires Handle(a, m, env).0 == b && b.mgr.outbound == [] && !MayPump(m)
    ensures Ask(secret, a, m, env) == (PollPeer(b, env), Answer(Handle(a, m, env).1, []))
  {
    ServeWithoutForbidden(secret, a, m, env);
    QuietDrain(b, m, Handle(a, m, env).1, env);
    assert [Handle(a, m, env).1, DrainAck()][1..1] == [];
  }

  lemma FreshAttach(expected: Option<Bytes>, sid: ShortText, provided: Option<Bytes>, env: AgentEnv)
    requires BootSecretOk(expected, provided)
    ensures var m := AttachSession(sid, provided);
      Ask(expected, NewAgent(), m, env) == (AfterAttach(sid, env), Answer(Acked(m, Some(sid)), []))
  {
    var b := Agent(AfterAttach(sid, env).ctl, Attach(Fresh([], []), sid));
    QuietAck(expected, NewAgent(), AttachSession(sid, provided), env, b);
  }

  lemma FreshPolicy(expected: Option<Bytes>, sid: ShortText, enableInput: bool, env: AgentEnv)
    ensures var m := SetPolicy(sid, enableInput, false);
      Ask(expected, AfterAttach(sid, env), m, env)
        == (AfterPolicy(sid, enableInput, env), Answer(Acked(m, Some(sid)), []))
  {
    var m := SetPolicy(sid, enableInput, false);
    var a := AfterAttach(sid, env);
    var c := AfterPolicy(sid, enableInput, env).ctl;
    assert HandleControl(a.ctl, m) == (c, Acked(m, Some(sid)));
    QuietAck(expected, a, m, env, Agent(c, Note(a.mgr.(policyEnabled := enableInput), PolicySet(enableInput))));
  }

  /** What the manager then has to send out: the offer, the candidates that wait and those of the offer. */
  function FirstSignals(sid: ShortText, waiting: seq<string>, env: MediaEnv): seq<Signal>
    requires MediaReady(env)
  {
    if env.peerNew then [Signal(sid, SESSION_OFFER, env.offer.value)] + IceSignals(sid, waiting + env.ice)
    else IceSignals(sid, waiting)
  }

  lemma MediaStarts(m: Manager, waiting: seq<string>, env: MediaEnv)
    requires m.sid.Some? && !m.media && m.outbound == [] && m.gathered == Tagged(m.sid, waiting)
    ensures ManagerModel.StartMedia(m, env).1.Done? <==> MediaReady(env)
    ensures MediaReady(env) ==>
      var n := ManagerModel.StartMedia(m, env).0;
      n.sid == m.sid && n.media && n.outbound == FirstSignals(m.sid.value, waiting, env)
  {
    assert Payloads(Tagged(m.sid, waiting)) == waiting;
    assert Tagged(m.sid, waiting) + Tagged(m.sid, env.ice) == Tagged(m.sid, waiting + env.ice);
    assert Payloads(Tagged(m.sid, waiting + env.ice)) == waiting + env.ice;
    assert [] + IceSignals(m.sid.value, waiting) == IceSignals(m.sid.value, waiting);
  }

  lemma FreshMedia(expected: Option<Bytes>, sid: ShortText, enableInput: bool, env: AgentEnv)
    ensures var (a, answer) := Ask(expected, AfterPolicy(sid, enableInput, env), StartMedia(sid), env);
      if MediaReady(env.media) then
        && a.ctl == Control(Some(sid), true, enableInput, false, true, false, false)
        && a.mgr.sid == Some(sid) && a.mgr.media
        && answer.reply.Ack?
        && answer.outbound == Forwards(FirstSignals(sid, env.polled + env.polled, env.media))
      else answer.reply.Error? && !answer.reply.code.AuthFailed?
  {
    var a := AfterPolicy(sid, enableInput, env);
    assert a.mgr.gathered == Tagged(Some(sid), env.polled + env.polled);
    AskMedia(expected, a, sid, env.polled + env.polled, env);
  }

  lemma AskMedia(expected: Option<Bytes>, a: Agent, sid: ShortText, waiting: seq<string>, env: AgentEnv)
    requires a.ctl.session == Some(sid) && !a.ctl.killed
    requires a.mgr.sid == Some(sid) && !a.mgr.media && a.mgr.outbound == []
    requires a.mgr.gathered == Tagged(Some(sid), waiting)
    ensures var (b, answer) := Ask(expected, a, StartMedia(sid), env);
      if MediaReady(env.media) then
        && b.ctl == a.ctl.(mediaStarted := true) && b.mgr.sid == Some(sid) && b.mgr.media
        && answer.reply.Ack? && answer.outbound == Forwards(FirstSignals(sid, waiting, env.media))
      else answer.reply.Error? && !answer.reply.code.AuthFailed?
  {
    var m := StartMedia(sid);
    HandleMedia(a, sid, waiting, env);
    AskIsHandled(expected, a, m, env);
    DrainKeepsSession(Handle(a, m, env).0, m, Handle(a, m, env).1, env);
  }

  lemma AskIsHandled(secret: Option<Bytes>, a: Agent, m: ControlMessage, env: AgentEnv)
    requires !NeedsAttach(secret, a, m)
    ensures var (b, reply) := Handle(a, m, env);
      Ask(secret, a, m, env) == (Drain(b, m, reply, env).0, Answer(reply, Forwards(b.mgr.outbound)))
  {
    ServeWithoutForbidden(secret, a, m, env);
    LoudDrain(Handle(a, m, env).0, m, Handle(a, m, env).1, env);
  }

  lemma DrainKeepsSession(b: Agent, m: ControlMessage, reply: ControlMessage, env: AgentEnv)
    requires !Rebuilds(m, reply)
    ensures var d := Drain(b, m, reply, env).0;
      d.ctl == b.ctl && d.mgr.sid == b.mgr.sid && d.mgr.media == b.mgr.media
  {
  }

  lemma HandleMedia(a: Agent, sid: ShortText, waiting: seq<string>, env: AgentEnv)
    requires a.ctl.session == Some(sid) && !a.ctl.killed
    requires a.mgr.sid == Some(sid) && !a.mgr.media && a.mgr.outbound == []
    requires a.mgr.gathered == Tagged(Some(sid), waiting)
    ensures var (b, reply) := Handle(a, StartMedia(sid), env);
      if MediaReady(env.media) then
        && b.ctl == a.ctl.(mediaStarted := true) && b.mgr.sid == Some(sid) && b.mgr.media
        && b.mgr.outbound == FirstSignals(sid, waiting, env.media) && reply.Ack?
      else reply.Error? && !reply.code.AuthFailed?
  {
    assert HandleControl(a.ctl, StartMedia(sid)) == (a.ctl.(mediaStarted := true), Acked(StartMedia(sid), Some(sid)));
    MediaStarts(a.mgr, waiting, env.media);
  }

  lemma LoudDrain(b: Agent, m: ControlMessage, reply: ControlMessage, env: AgentEnv)
    ensures var sent := Drain(b, m, reply, env).1;
      |sent| >= 2 && sent[0] == reply && sent[1..|sent| - 1] == Forwards(b.mgr.outbound)
  {
    var forwards := Forwards(b.mgr.outbound);
    assert ([reply] + forwards + [DrainAck()])[1..1 + |forwards|] == forwards;
  }
}
