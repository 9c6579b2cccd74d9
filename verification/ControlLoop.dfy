/** The control connection between service and agent (apps/host/src/control_loop.rs): two processes and two
    FIFO queues.  A run is any interleaving of their sends and receives, in which the service may give up waiting for
    a reply and the connection may break at any point and be accepted again. */
module ControlLoop {
  import opened Common
  import opened ManagerModel
  import opened AgentModel
  import opened Transcript
  import AgentProofs
  import AgentTraffic

  const DRAIN_COMPLETE := "drain_complete"

  /** packages/platform-windows/src/ipc/message.rs */
  const FORBIDDEN_MEDIA_METHODS: seq<string> :=
    ["push_video_nalu", "push_audio_frame", "push_pcm", "on_rtcp_feedback", "inject_rtcp", "raw_frame", "media_bytes"]

  function DrainAck(): ControlMessage {
    Ack(Some(DRAIN_COMPLETE), None)
  }

  /** No expected secret switches the check off. */
  predicate BootSecretOk(expected: Option<Bytes>, provided: Option<Bytes>) {
    match expected
    case None => true
    case Some(e) => provided.Some? && |e| == |provided.value| && e == provided.value
  }

  // ---- what the agent does with one command ------------------------------------------------

  /** The reply to a forbidden name, once for every entry of the list it equals.  The loop over the list does
      not leave the command, so the agent would go on and answer it a second time. */
  function ForbiddenReplies(name: string, list: seq<string>): seq<ControlMessage> {
    if list == [] then []
    else (if name == list[0] then [Error(Unexpected, None), DrainAck()] else []) + ForbiddenReplies(name, list[1..])
  }

  predicate NeedsAttach(secret: Option<Bytes>, a: Agent, m: ControlMessage) {
    if m.AttachSession? then !BootSecretOk(secret, m.bootSecret) else secret.Some? && a.ctl.session.None?
  }

  function Refusal(m: ControlMessage): ControlMessage {
    Error(AuthFailed, if m.AttachSession? then Some(m.session) else None)
  }

  function Forwards(signals: seq<Signal>): seq<ControlMessage> {
    seq(|signals|, i requires 0 <= i < |signals| => SignalForward(signals[i].sid, signals[i].kind, signals[i].payload))
  }

  /** A detach that was acknowledged is followed by a fresh agent. */
  predicate Rebuilds(m: ControlMessage, reply: ControlMessage) {
    (m.DetachSession? || m.ShutdownSession?) && reply.Ack?
  }

  /** The poll behind every command of a live session. */
  function PollPeer(b: Agent, env: AgentEnv): Agent {
    if b.ctl.session.Some? && !b.ctl.killed then b.(mgr := Gather(b.mgr, env.polled)) else b
  }

  predicate MayPump(m: ControlMessage) {
    m.QueryStats? || (m.SignalForward? && (m.kind == SESSION_ANSWER || m.kind == ICE_CANDIDATE))
  }

  /** What the media pump behind the sentinel leaves; without a connected peer nothing is pumped. */
  function Pump(b: Agent, m: ControlMessage, env: AgentEnv): Agent {
    if MayPump(m) && b.ctl.mediaStarted then b.(mgr := Gather(b.mgr, env.pumped)) else b
  }

  /** After agent.handle: the reply, a poll, the signals the manager has queued, the sentinel, the media pump. */
  function Drain(b: Agent, m: ControlMessage, reply: ControlMessage, env: AgentEnv): (Agent, seq<ControlMessage>) {
    (if Rebuilds(m, reply) then NewAgent() else Pump(PollPeer(b.(mgr := b.mgr.(outbound := [])), env), m, env),
     [reply] + Forwards(b.mgr.outbound) + [DrainAck()])
  }

  function HandleAndDrain(a: Agent, m: ControlMessage, env: AgentEnv): (Agent, seq<ControlMessage>) {
    var (b, reply) := Handle(a, m, env);
    Drain(b, m, reply, env)
  }

  /** The agent after one command, and everything it sends for it. */
  function Serve(secret: Option<Bytes>, a: Agent, m: ControlMessage, env: AgentEnv): (r: (Agent, seq<ControlMessage>))
    ensures |r.1| >= 2 && r.1[|r.1| - 1] == DrainAck()
  {
    var (b, sent) := if NeedsAttach(secret, a, m) then (a, [Refusal(m), DrainAck()]) else HandleAndDrain(a, m, env);
    (b, ForbiddenReplies(MethodName(m), FORBIDDEN_MEDIA_METHODS) + sent)
  }

  // ---- the two processes -------------------------------------------------------------------

  /** Where the service is in `request`. */
  datatype Client =
    | Ready
    | AwaitReply
    | Draining(reply: ControlMessage, outbound: seq<ControlMessage>)
    | Broken(unexpected: ControlMessage)

  /** One command, whether it got as far as agent.handle, and what the agent sent for it. */
  datatype Exchange = Exchange(msg: ControlMessage, handled: bool, sent: seq<ControlMessage>)

  datatype Answer = Answer(reply: ControlMessage, outbound: seq<ControlMessage>)

  /** `sending` is what the agent still has to send for the present command; `log` and `answers` are those of the
      present connection. */
  datatype System = System(
    client: Client,
    toAgent: seq<ControlMessage>,
    toClient: seq<ControlMessage>,
    sending: seq<ControlMessage>,
    agent: Agent,
    log: seq<Exchange>,
    answers: seq<Answer>)

  /** To abandon a request is to return an error from it, on a read timeout or an unexpected message, and to go on
      with the same client. */
  datatype Step =
    | Send(msg: ControlMessage)
    | AgentReceive(env: AgentEnv)
    | AgentSend
    | ClientReceive
    | Abandon
    | Reconnect

  predicate Enabled(s: System, st: Step) {
    match st
    case Send(_) => s.client.Ready?
    case AgentReceive(_) => s.sending == [] && s.toAgent != []
    case AgentSend => s.sending != []
    case ClientReceive => (s.client.AwaitReply? || s.client.Draining?) && s.toClient != []
    case Abandon => !s.client.Ready?
    case Reconnect => true
  }

  function Receive(s: System, next: ControlMessage): System {
    var t := s.(toClient := if s.toClient == [] then [] else s.toClient[1..]);
    match s.client
    case AwaitReply => t.(client := Draining(next, []))
    case Draining(reply, outbound) =>
      if next.Ack? && next.forMethod == Some(DRAIN_COMPLETE) then
        t.(client := Ready, answers := s.answers + [Answer(reply, outbound)])
      else if next.SignalForward? || next.StatsPush? || next.LocalConfirmResult? then
        t.(client := Draining(reply, outbound + [next]))
      else t.(client := Broken(next))
    case _ => t
  }

  function Apply(secret: Option<Bytes>, s: System, st: Step): System
    requires Enabled(s, st)
  {
    match st
    case Send(m) => s.(client := AwaitReply, toAgent := s.toAgent + [m])
    case AgentReceive(env) =>
      var m := s.toAgent[0];
      var (b, sent) := Serve(secret, s.agent, m, env);
      s.(toAgent := s.toAgent[1..], sending := sent, agent := b,
         log := s.log + [Exchange(m, !NeedsAttach(secret, s.agent, m), sent)])
    case AgentSend => s.(toClient := s.toClient + [s.sending[0]], sending := s.sending[1..])
    case ClientReceive => Receive(s, s.toClient[0])
    case Abandon => s.(client := Ready)
    case Reconnect => Connected()
  }

  /** A connection just accepted.  The agent process builds a new agent for each, whatever the last one was left
      with. */
  function Connected(): System {
    System(Ready, [], [], [], NewAgent(), [], [])
  }

  ghost predicate ValidRun(secret: Option<Bytes>, steps: seq<Step>)
    decreases |steps|, 0
  {
    steps != [] ==>
      ValidRun(secret, steps[..|steps| - 1]) && Enabled(Run(secret, steps[..|steps| - 1]), steps[|steps| - 1])
  }

  ghost function Run(secret: Option<Bytes>, steps: seq<Step>): System
    requires ValidRun(secret, steps)
    decreases |steps|, 1
  {
    if steps == [] then Connected() else Apply(secret, Run(secret, steps[..|steps| - 1]), steps[|steps| - 1])
  }

  // ---- the shape of an exchange ------------------------------------------------------------

  /** One reply, then forwarded signals only, then the sentinel. */
  ghost predicate WellFormed(sent: seq<ControlMessage>) {
    && |sent| >= 2
    && sent[|sent| - 1] == DrainAck()
    && forall i :: 0 < i < |sent| - 1 ==> sent[i].SignalForward?
  }

  function AnswerOf(x: Exchange): Answer
    requires |x.sent| >= 2
  {
    Answer(x.sent[0], x.sent[1..|x.sent| - 1])
  }

  /** Not one control method is on the list, so the loop over it never sends anything. */
  lemma NoMethodIsForbidden(m: ControlMessage)
    ensures MethodName(m) !in FORBIDDEN_MEDIA_METHODS
    ensures ForbiddenReplies(MethodName(m), FORBIDDEN_MEDIA_METHODS) == []
  {
    var list := FORBIDDEN_MEDIA_METHODS;
    var name := MethodName(m);
    assert |name| == 14 || |name| == 13 || |name| == 10 || |name| == 11 || |name| == 19 || |name| == 16
        || |name| == 20 || |name| == 3 || |name| == 5;
    assert name[0] == 'a' || name[0] == 'd' || name[0] == 's' || name[0] == 'q' || name[0] == 'k'
        || name[0] == 'l' || name[0] == 'e';
    assert forall i :: 0 <= i < |list| ==>
      list[i][0] == 'p' || list[i][0] == 'o' || list[i][0] == 'i' || list[i][0] == 'r' || list[i][0] == 'm';
    assert forall i :: 0 <= i < |list| ==> name != list[i];
    NoReplies(name, list);
  }

  lemma {:induction false} NoReplies(name: string, list: seq<string>)
    requires name !in list
    ensures ForbiddenReplies(name, list) == []
  {
    if list != [] {
      assert list[0] in list;
      NoReplies(name, list[1..]);
    }
  }

  lemma ServeWithoutForbidden(secret: Option<Bytes>, a: Agent, m: ControlMessage, env: AgentEnv)
    ensures Serve(secret, a, m, env)
      == if NeedsAttach(secret, a, m) then (a, [Refusal(m), DrainAck()]) else HandleAndDrain(a, m, env)
  {
    NoMethodIsForbidden(m);
    var sent := if NeedsAttach(secret, a, m) then [Refusal(m), DrainAck()] else HandleAndDrain(a, m, env).1;
    assert [] + sent == sent;
  }

  lemma ServeIsWellFormed(secret: Option<Bytes>, a: Agent, m: ControlMessage, env: AgentEnv)
    ensures WellFormed(Serve(secret, a, m, env).1)
  {
    ServeWithoutForbidden(secret, a, m, env);
  }

  // ---- in sync -----------------------------------------------------------------------------

  /** Everything sent for the present command, as read by the client, in flight, or still to be sent. */
  function Present(s: System): seq<ControlMessage> {
    (if s.client.Draining? then [s.client.reply] + s.client.outbound else []) + s.toClient + s.sending
  }

  ghost predicate InSync(s: System) {
    match s.client
    case Ready => s.toAgent == [] && s.toClient == [] && s.sending == [] && Answered(s, |s.log|)
    case AwaitReply =>
      || (|s.toAgent| == 1 && s.toClient == [] && s.sending == [] && Answered(s, |s.log|))
      || (s.toAgent == [] && Working(s))
    case Draining(_, _) => s.toAgent == [] && Working(s)
    case Broken(_) => false
  }

  ghost predicate Working(s: System) {
    && |s.log| > 0 && s.log[|s.log| - 1].sent == Present(s) && Answered(s, |s.log| - 1)
    && s.toClient + s.sending != []
  }

  /** The first n exchanges have been returned to the callers, each as it was. */
  ghost predicate Answered(s: System, n: nat) {
    && |s.answers| == n <= |s.log|
    && (forall i :: 0 <= i < |s.log| ==> WellFormed(s.log[i].sent))
    && (forall i :: 0 <= i < n ==> s.answers[i] == AnswerOf(s.log[i]))
  }

  lemma AgentReceiveKeepsSync(secret: Option<Bytes>, s: System, env: AgentEnv)
    requires InSync(s) && Enabled(s, AgentReceive(env))
    ensures InSync(Apply(secret, s, AgentReceive(env)))
  {
    ServeIsWellFormed(secret, s.agent, s.toAgent[0], env);
  }

  lemma AgentSendKeepsSync(secret: Option<Bytes>, s: System)
    requires InSync(s) && Enabled(s, AgentSend)
    ensures InSync(Apply(secret, s, AgentSend))
  {
    var t := Apply(secret, s, AgentSend);
    assert s.toClient + s.sending == t.toClient + t.sending;
    assert Present(t) == Present(s);
  }

  lemma ReplyKeepsSync(secret: Option<Bytes>, s: System)
    requires InSync(s) && s.client.AwaitReply? && Enabled(s, ClientReceive)
    ensures InSync(Apply(secret, s, ClientReceive))
  {
    assert Present(Apply(secret, s, ClientReceive)) == Present(s);
  }

  lemma DrainKeepsSync(secret: Option<Bytes>, s: System)
    requires InSync(s) && s.client.Draining? && Enabled(s, ClientReceive)
    ensures InSync(Apply(secret, s, ClientReceive))
  {
    var k := 1 + |s.client.outbound|;
    var sent := s.log[|s.log| - 1].sent;
    assert sent[k] == s.toClient[0];
    if k == |sent| - 1 {
      assert |s.toClient| + |s.sending| == 1;
      SentinelKeepsSync(secret, s);
    } else {
      assert sent[k].SignalForward?;
      assert Present(Apply(secret, s, ClientReceive)) == Present(s);
    }
  }

  lemma SentinelKeepsSync(secret: Option<Bytes>, s: System)
    requires InSync(s) && s.client.Draining? && |s.toClient| == 1 && s.sending == [] && s.toClient[0] == DrainAck()
    ensures InSync(Apply(secret, s, ClientReceive))
  {
    var sent := s.log[|s.log| - 1].sent;
    assert s.client.outbound == sent[1..|sent| - 1] && sent[0] == s.client.reply;
  }

  lemma ClientReceiveKeepsSync(secret: Option<Bytes>, s: System)
    requires InSync(s) && Enabled(s, ClientReceive)
    ensures InSync(Apply(secret, s, ClientReceive))
  {
    if s.client.AwaitReply? {
      ReplyKeepsSync(secret, s);
    } else {
      DrainKeepsSync(secret, s);
    }
  }

  lemma StepKeepsSync(secret: Option<Bytes>, s: System, st: Step)
    requires InSync(s) && Enabled(s, st) && !st.Abandon?
    ensures InSync(Apply(secret, s, st))
  {
    match st
    case Send(_) =>
    case AgentReceive(env) => AgentReceiveKeepsSync(secret, s, env);
    case AgentSend => AgentSendKeepsSync(secret, s);
    case ClientReceive => ClientReceiveKeepsSync(secret, s);
    case Reconnect =>
  }

  /** Some request of the present connection was given up before its sentinel. */
  predicate Abandoned(steps: seq<Step>) {
    steps != [] &&
    (steps[|steps| - 1].Abandon? || (!steps[|steps| - 1].Reconnect? && Abandoned(steps[..|steps| - 1])))
  }

  function Abandonments(steps: seq<Step>): nat {
    if steps == [] || steps[|steps| - 1].Reconnect? then 0
    else Abandonments(steps[..|steps| - 1]) + if steps[|steps| - 1].Abandon? then 1 else 0
  }

  lemma {:induction false} AbandonedMeans(steps: seq<Step>)
    ensures Abandoned(steps) <==> Abandonments(steps) > 0
  {
    if steps != [] { AbandonedMeans(steps[..|steps| - 1]); }
  }

  /** Every command sent on the connection has been answered, given up or is outstanding, and is in the log or on
      its way to the agent. */
  ghost predicate Accounted(s: System, abandonments: nat) {
    |s.answers| + abandonments + (if s.client.Ready? then 0 else 1) == |s.log| + |s.toAgent|
  }

  lemma {:induction false} EveryRequestIsAccountedFor(secret: Option<Bytes>, steps: seq<Step>)
    requires ValidRun(secret, steps)
    ensures Accounted(Run(secret, steps), Abandonments(steps))
  {
    if steps != [] && !steps[|steps| - 1].Reconnect? {
      EveryRequestIsAccountedFor(secret, steps[..|steps| - 1]);
      var front := steps[..|steps| - 1];
      StepIsAccountedFor(secret, Run(secret, front), steps[|steps| - 1], Abandonments(front));
    }
  }

  lemma StepIsAccountedFor(secret: Option<Bytes>, s: System, st: Step, abandonments: nat)
    requires Accounted(s, abandonments) && Enabled(s, st) && !st.Reconnect?
    ensures Accounted(Apply(secret, s, st), abandonments + if st.Abandon? then 1 else 0)
  {
  }

  lemma {:induction false} UnlessAbandoned(secret: Option<Bytes>, steps: seq<Step>)
    requires ValidRun(secret, steps) && !Abandoned(steps)
    ensures InSync(Run(secret, steps))
  {
    if steps != [] && !steps[|steps| - 1].Reconnect? {
      UnlessAbandoned(secret, steps[..|steps| - 1]);
      StepKeepsSync(secret, Run(secret, steps[..|steps| - 1]), steps[|steps| - 1]);
    }
  }

  /** The two ends are in sync exactly as long as no request of the connection has been given up before its
      sentinel: from then on what is returned is never again what the commands so far were answered with. */
  lemma InSyncExactlyUntilAbandoned(secret: Option<Bytes>, steps: seq<Step>)
    requires ValidRun(secret, steps)
    ensures InSync(Run(secret, steps)) <==> !Abandoned(steps)
  {
    if Abandoned(steps) {
      AbandonedMeans(steps);
      EveryRequestIsAccountedFor(secret, steps);
    } else {
      UnlessAbandoned(secret, steps);
    }
  }

  /** Every command sent has had exactly one reply and its drained signals returned for it, in order, but for one
      that is outstanding; no message was unexpected; and when a request has returned nothing is left over. */
  ghost predicate Complete(s: System) {
    && !s.client.Broken?
    && (s.client.Ready? ==> s.toAgent == [] && s.toClient == [] && s.sending == [])
    && |s.answers| + (if s.client.Ready? then 0 else 1) == |s.log| + |s.toAgent|
    && |s.answers| <= |s.log|
    && forall i :: 0 <= i < |s.answers| ==> Returns(s.answers[i], s.log[i].sent)
  }

  ghost predicate Returns(answer: Answer, sent: seq<ControlMessage>) {
    WellFormed(sent) && sent == [answer.reply] + answer.outbound + [DrainAck()]
  }

  /** The requests of a connection return what their own commands were answered with exactly as long as none has
      been given up. */
  lemma ReturnedRequestsAreComplete(secret: Option<Bytes>, steps: seq<Step>)
    requires ValidRun(secret, steps)
    ensures Complete(Run(secret, steps)) <==> !Abandoned(steps)
  {
    AbandonedMeans(steps);
    EveryRequestIsAccountedFor(secret, steps);
    if !Abandoned(steps) {
      UnlessAbandoned(secret, steps);
      InSyncReturns(Run(secret, steps));
    }
  }

  lemma InSyncReturns(s: System)
    requires InSync(s)
    ensures |s.answers| <= |s.log| && forall i :: 0 <= i < |s.answers| ==> Returns(s.answers[i], s.log[i].sent)
  {
    forall i | 0 <= i < |s.answers| ensures Returns(s.answers[i], s.log[i].sent) {
      assert s.answers[i] == AnswerOf(s.log[i]);
    }
  }

  /** The steps can be taken one after the other and lead from s to t. */
  ghost predicate Leads(secret: Option<Bytes>, s: System, more: seq<Step>, t: System)
    decreases |more|
  {
    if more == [] then s == t else Enabled(s, more[0]) && Leads(secret, Apply(secret, s, more[0]), more[1..], t)
  }

  lemma {:induction false} LeadsOn(secret: Option<Bytes>, steps: seq<Step>, more: seq<Step>, t: System)
    requires ValidRun(secret, steps) && Leads(secret, Run(secret, steps), more, t)
    ensures ValidRun(secret, steps + more) && Run(secret, steps + more) == t
    decreases |more|
  {
    if more == [] {
      assert steps + more == steps;
    } else {
      Extend(secret, steps, more[0]);
      LeadsOn(secret, steps + [more[0]], more[1..], t);
      assert steps + [more[0]] + more[1..] == steps + more;
    }
  }

  lemma Extend(secret: Option<Bytes>, steps: seq<Step>, st: Step)
    requires ValidRun(secret, steps) && Enabled(Run(secret, steps), st)
    ensures ValidRun(secret, steps + [st]) && Run(secret, steps + [st]) == Apply(secret, Run(secret, steps), st)
  {
    assert (steps + [st])[..|steps + [st]| - 1] == steps;
  }

  /** The steps by which a command is answered that has nothing to forward. */
  function ShortExchange(env: AgentEnv): seq<Step> {
    [AgentReceive(env), AgentSend, AgentSend, ClientReceive, ClientReceive]
  }

  /** The agent takes up the next command and the waiting client reads what it is answered, whichever command it
      was that the client sent last. */
  lemma ShortExchangeAnswers(secret: Option<Bytes>, s: System, env: AgentEnv, reply: ControlMessage) returns (t: System)
    requires s.client.AwaitReply? && s.toAgent != [] && s.toClient == [] && s.sending == []
    requires Serve(secret, s.agent, s.toAgent[0], env).1 == [reply, DrainAck()]
    ensures Leads(secret, s, ShortExchange(env), t)
    ensures t.client.Ready? && t.answers == s.answers + [Answer(reply, [])]
  {
    t := ShortSendAnswers(secret, Apply(secret, s, AgentReceive(env)), reply);
    assert ShortExchange(env)[1..] == [AgentSend, AgentSend, ClientReceive, ClientReceive];
  }

  lemma ShortSendAnswers(secret: Option<Bytes>, s: System, reply: ControlMessage) returns (t: System)
    requires s.client.AwaitReply? && s.toClient == [] && s.sending == [reply, DrainAck()]
    ensures Leads(secret, s, [AgentSend, AgentSend, ClientReceive, ClientReceive], t)
    ensures t.client.Ready? && t.answers == s.answers + [Answer(reply, [])]
  {
    var s1 := Apply(secret, s, AgentSend);
    var s2 := Apply(secret, s1, AgentSend);
    t := ShortReadAnswers(secret, s2, reply);
    var more := [AgentSend, AgentSend, ClientReceive, ClientReceive];
    assert more[1..][1..] == [ClientReceive, ClientReceive] && more[1..][0] == AgentSend;
    assert Leads(secret, s1, more[1..], t);
  }

  lemma ShortReadAnswers(secret: Option<Bytes>, s: System, reply: ControlMessage) returns (t: System)
    requires s.client.AwaitReply? && s.toClient == [reply, DrainAck()]
    ensures Leads(secret, s, [ClientReceive, ClientReceive], t)
    ensures t.client.Ready? && t.answers == s.answers + [Answer(reply, [])]
  {
    var s1 := Apply(secret, s, ClientReceive);
    assert s1.client == Draining(reply, []) && s1.toClient == [DrainAck()];
    t := Apply(secret, s1, ClientReceive);
    assert [ClientReceive, ClientReceive][1..] == [ClientReceive];
    assert Leads(secret, s1, [ClientReceive], t);
  }

  /** A way to lose it, open in every state in which a session is attached and no request is out: the service gives
      up on a QueryStats before the agent has replied, and the next request, whatever it is, is returned the
      StatsPush as its own reply. */
  lemma LateReplyAnswersTheNextRequest(secret: Option<Bytes>, steps: seq<Step>, next: ControlMessage, env: AgentEnv)
    requires ValidRun(secret, steps) && !Abandoned(steps)
    requires Run(secret, steps).client.Ready? && Run(secret, steps).agent.ctl.session.Some?
    ensures var after := steps + [Send(QueryStats(None)), Abandon, Send(next)] + ShortExchange(env);
      && ValidRun(secret, after) && Run(secret, after).client.Ready?
      && Run(secret, after).answers
        == Run(secret, steps).answers + [Answer(StatsPush(Run(secret, steps).agent.ctl.session.value), [])]
  {
    UnlessAbandoned(secret, steps);
    var s := Run(secret, steps);
    var given := [Send(QueryStats(None)), Abandon, Send(next)];
    var s1 := Apply(secret, s, given[0]);
    var s2 := Apply(secret, s1, given[1]);
    var s3 := Apply(secret, s2, given[2]);
    assert s3.toAgent == [QueryStats(None), next];
    assert Leads(secret, s2, [given[2]], s3);
    assert given[1..][1..] == [given[2]];
    LeadsOn(secret, steps, given, s3);
    EveryForwardCarriesTheSessionId(secret, steps);
    StatsAreShort(secret, s3.agent, env);
    var t := ShortExchangeAnswers(secret, s3, env, StatsPush(s.agent.ctl.session.value));
    LeadsOn(secret, steps + given, ShortExchange(env), t);
  }

  lemma StatsAreShort(secret: Option<Bytes>, a: Agent, env: AgentEnv)
    requires a.ctl.session.Some? && a.mgr.outbound == []
    ensures Serve(secret, a, QueryStats(None), env).1 == [StatsPush(a.ctl.session.value), DrainAck()]
  {
    ServeWithoutForbidden(secret, a, QueryStats(None), env);
    StatsAreHandled(a, env);
    NothingToForward(a, QueryStats(None), StatsPush(a.ctl.session.value), env);
  }

  lemma StatsAreHandled(a: Agent, env: AgentEnv)
    requires a.ctl.session.Some?
    ensures Handle(a, QueryStats(None), env) == (a, StatsPush(a.ctl.session.value))
  {
    assert HandleControl(a.ctl, QueryStats(None)) == (a.ctl, StatsPush(a.ctl.session.value));
  }

  lemma NothingToForward(b: Agent, m: ControlMessage, reply: ControlMessage, env: AgentEnv)
    requires b.mgr.outbound == []
    ensures Drain(b, m, reply, env).1 == [reply, DrainAck()]
  {
    assert Forwards([]) == [];
    assert [reply] + [] + [DrainAck()] == [reply, DrainAck()];
  }

  // ---- no request hangs --------------------------------------------------------------------

  /** What the client has still to read ends in a sentinel, and behind the reply there is one. */
  ghost predicate Readable(s: System) {
    var rest := s.toClient + s.sending;
    && (rest != [] ==> rest[|rest| - 1] == DrainAck())
    && (s.client.AwaitReply? && s.toAgent == [] ==> |rest| >= 2)
    && (s.client.Draining? && s.toAgent == [] ==> rest != [])
  }

  lemma ReceiveKeepsReadable(secret: Option<Bytes>, s: System, env: AgentEnv)
    requires Readable(s) && Enabled(s, AgentReceive(env))
    ensures Readable(Apply(secret, s, AgentReceive(env)))
  {
    var sent := Serve(secret, s.agent, s.toAgent[0], env).1;
    var t := Apply(secret, s, AgentReceive(env));
    assert t.toClient + t.sending == s.toClient + sent;
    assert (s.toClient + sent)[|s.toClient + sent| - 1] == sent[|sent| - 1];
  }

  lemma ReadKeepsReadable(secret: Option<Bytes>, s: System)
    requires Readable(s) && Enabled(s, ClientReceive)
    ensures Readable(Apply(secret, s, ClientReceive))
  {
    var t := Apply(secret, s, ClientReceive);
    assert t.toClient + t.sending == (s.toClient + s.sending)[1..];
  }

  lemma StepKeepsReadable(secret: Option<Bytes>, s: System, st: Step)
    requires Readable(s) && Enabled(s, st)
    ensures Readable(Apply(secret, s, st))
  {
    match st
    case AgentReceive(env) => ReceiveKeepsReadable(secret, s, env);
    case AgentSend =>
      var t := Apply(secret, s, AgentSend);
      assert t.toClient + t.sending == s.toClient + s.sending;
    case ClientReceive => ReadKeepsReadable(secret, s);
    case _ =>
  }

  lemma {:induction false} EveryRunIsReadable(secret: Option<Bytes>, steps: seq<Step>)
    requires ValidRun(secret, steps)
    ensures Readable(Run(secret, steps))
  {
    if steps != [] {
      EveryRunIsReadable(secret, steps[..|steps| - 1]);
      StepKeepsReadable(secret, Run(secret, steps[..|steps| - 1]), steps[|steps| - 1]);
    }
  }

  /** No run gets stuck, not even one with requests given up: while a request is out, either somebody can move, and
      every move that belongs to it brings it closer to its end, or it has met an unexpected message, which takes an
      abandoned request before it. */
  lemma RequestsNeverHang(secret: Option<Bytes>, steps: seq<Step>, env: AgentEnv)
    requires ValidRun(secret, steps) && !Run(secret, steps).client.Ready?
    ensures var s := Run(secret, steps);
      || Enabled(s, AgentReceive(env)) || Enabled(s, AgentSend) || Enabled(s, ClientReceive)
      || (s.client.Broken? && Abandoned(steps))
  {
    EveryRunIsReadable(secret, steps);
    InSyncExactlyUntilAbandoned(secret, steps);
  }

  /** Commands not yet taken up, then messages not yet read, counting one still to be sent twice. */
  function Distance(s: System): nat {
    2 * |s.sending| + |s.toClient|
  }

  lemma EveryMoveShortensTheRequest(secret: Option<Bytes>, s: System, st: Step)
    requires Enabled(s, st) && !st.Send? && !st.Abandon? && !st.Reconnect?
    ensures var t := Apply(secret, s, st);
      |t.toAgent| < |s.toAgent| || (|t.toAgent| == |s.toAgent| && Distance(t) < Distance(s))
  {
  }

  // ---- the boot secret ---------------------------------------------------------------------

  lemma SecretMeansEqual(expected: Option<Bytes>, provided: Option<Bytes>)
    ensures BootSecretOk(expected, provided) <==> expected.None? || provided == expected
  {
  }

  predicate Opens(x: Exchange, secret: Bytes) {
    x.handled && x.msg.AttachSession? && x.msg.bootSecret == Some(secret) && x.sent != [] && x.sent[0].Ack?
  }

  predicate Closes(x: Exchange) {
    x.handled && x.sent != [] && Rebuilds(x.msg, x.sent[0])
  }

  /** Exchange j opened the session that is open after the log: it attached with the secret, and nothing since
      has attached another or closed it. */
  ghost predicate OpenedBy(log: seq<Exchange>, secret: Bytes, j: nat) {
    && j < |log| && Opens(log[j], secret)
    && forall i :: j < i < |log| ==> !Closes(log[i]) && !Opens(log[i], secret)
  }

  ghost predicate Admitted(log: seq<Exchange>, secret: Bytes, session: ShortText) {
    exists j: nat :: OpenedBy(log, secret, j) && log[j].msg.session == session
  }

  /** The command was an attach with the secret, or came while a session opened by one was attached. */
  ghost predicate MayHandle(log: seq<Exchange>, secret: Bytes, m: ControlMessage) {
    (m.AttachSession? && m.bootSecret == Some(secret)) || exists session :: Admitted(log, secret, session)
  }

  ghost predicate Guarded(s: System, secret: Bytes) {
    && (s.agent.ctl.session.Some? ==> Admitted(s.log, secret, s.agent.ctl.session.value))
    && (forall k :: 0 <= k < |s.log| && s.log[k].handled ==> MayHandle(s.log[..k], secret, s.log[k].msg))
  }

  /** How one command can change the attached session. */
  lemma SessionChangesOnlyByAttach(a: Agent, m: ControlMessage, env: AgentEnv)
    ensures var (b, reply) := Handle(a, m, env);
      if m.AttachSession? && reply.Ack? then b.ctl.session == Some(m.session)
      else b.ctl.session == a.ctl.session || Rebuilds(m, reply)
  {
  }

  lemma ExtendLog(log: seq<Exchange>, x: Exchange, secret: Bytes, session: ShortText)
    requires Admitted(log, secret, session) && !Closes(x) && !Opens(x, secret)
    ensures Admitted(log + [x], secret, session)
  {
    var j: nat :| OpenedBy(log, secret, j) && log[j].msg.session == session;
    assert (log + [x])[j] == log[j];
    assert OpenedBy(log + [x], secret, j);
  }

  lemma OpenLog(log: seq<Exchange>, x: Exchange, secret: Bytes)
    requires Opens(x, secret)
    ensures Admitted(log + [x], secret, x.msg.session)
  {
    assert OpenedBy(log + [x], secret, |log|);
  }

  lemma HandledExchange(secret: Bytes, a: Agent, m: ControlMessage, env: AgentEnv)
    requires !NeedsAttach(Some(secret), a, m)
    ensures var (b, sent) := HandleAndDrain(a, m, env);
      var x := Exchange(m, true, sent);
      && (Opens(x, secret) ==> b.ctl.session == Some(m.session))
      && (Closes(x) ==> b.ctl.session == None)
      && (!Opens(x, secret) && !Closes(x) ==> b.ctl.session == a.ctl.session)
  {
    SessionChangesOnlyByAttach(a, m, env);
    if m.AttachSession? {
      SecretMeansEqual(Some(secret), m.bootSecret);
    }
    var (b, reply) := Handle(a, m, env);
    assert Drain(b, m, reply, env).1[0] == reply;
  }

  /** The command taken up next, and what the agent makes of it. */
  lemma ServedExchange(secret: Bytes, a: Agent, m: ControlMessage, env: AgentEnv)
    ensures var (b, sent) := Serve(Some(secret), a, m, env);
      var x := Exchange(m, !NeedsAttach(Some(secret), a, m), sent);
      && (x.handled ==> (m.AttachSession? && m.bootSecret == Some(secret)) || a.ctl.session.Some?)
      && (Opens(x, secret) ==> b.ctl.session == Some(m.session))
      && (Closes(x) ==> b.ctl.session == None)
      && (!Opens(x, secret) && !Closes(x) ==> b.ctl.session == a.ctl.session)
  {
    ServeWithoutForbidden(Some(secret), a, m, env);
    if !NeedsAttach(Some(secret), a, m) {
      HandledExchange(secret, a, m, env);
    }
    if m.AttachSession? {
      SecretMeansEqual(Some(secret), m.bootSecret);
    }
  }

  lemma ReceiveKeepsGuarded(secret: Bytes, s: System, env: AgentEnv)
    requires Guarded(s, secret) && Enabled(s, AgentReceive(env))
    ensures Guarded(Apply(Some(secret), s, AgentReceive(env)), secret)
  {
    var m := s.toAgent[0];
    var t := Apply(Some(secret), s, AgentReceive(env));
    var n := |s.log|;
    var x := t.log[n];
    ServedExchange(secret, s.agent, m, env);
    forall k | 0 <= k < n + 1 && t.log[k].handled ensures MayHandle(t.log[..k], secret, t.log[k].msg) {
      assert t.log[..k] == s.log[..k];
      assert s.log[..n] == s.log;
    }
    if Opens(x, secret) {
      OpenLog(s.log, x, secret);
    } else if t.agent.ctl.session.Some? {
      ExtendLog(s.log, x, secret, s.agent.ctl.session.value);
    }
  }

  lemma {:induction false} EveryRunIsGuarded(secret: Bytes, steps: seq<Step>)
    requires ValidRun(Some(secret), steps)
    ensures Guarded(Run(Some(secret), steps), secret)
  {
    if steps != [] {
      EveryRunIsGuarded(secret, steps[..|steps| - 1]);
      if steps[|steps| - 1].AgentReceive? {
        ReceiveKeepsGuarded(secret, Run(Some(secret), steps[..|steps| - 1]), steps[|steps| - 1].env);
      }
    }
  }

  /** With a boot secret set, agent.handle sees a command only if it is an attach that brings the secret, or if
      the session then open was opened by one. */
  lemma OnlySessionsOpenedWithTheSecret(secret: Bytes, steps: seq<Step>, k: nat)
    requires ValidRun(Some(secret), steps)
    requires k < |Run(Some(secret), steps).log| && Run(Some(secret), steps).log[k].handled
    ensures var log := Run(Some(secret), steps).log; MayHandle(log[..k], secret, log[k].msg)
  {
    EveryRunIsGuarded(secret, steps);
  }

  // ---- what the agent forwards -------------------------------------------------------------

  /** A command the agent may have signals to forward for. */
  predicate AsksForSignals(m: ControlMessage) {
    m.StartMedia? || AgentTraffic.IsDescription(m)
  }

  predicate CarriesId(forwarded: ControlMessage, session: ShortText) {
    && forwarded.SignalForward? && forwarded.session == session
    && (forwarded.kind == SESSION_OFFER || forwarded.kind == ICE_CANDIDATE)
  }

  /** What an exchange forwards, it was asked for, and it carries the id of the session the command names. */
  ghost predicate UnderItsId(m: ControlMessage, sent: seq<ControlMessage>) {
    |sent| > 2 ==> AsksForSignals(m) && forall k :: 0 < k < |sent| - 1 ==> CarriesId(sent[k], m.session)
  }

  /** Agent and manager agree, and nothing is left in the outbox. */
  ghost predicate Drained(a: Agent) {
    AgentProofs.InStep(a) && AgentProofs.Sound(a.ctl) && a.mgr.outbound == []
  }

  lemma DrainForwardsTheOutbox(b: Agent, m: ControlMessage, reply: ControlMessage, env: AgentEnv, k: nat)
    requires 0 < k < |Drain(b, m, reply, env).1| - 1
    ensures k - 1 < |b.mgr.outbound|
    ensures var o := b.mgr.outbound[k - 1]; Drain(b, m, reply, env).1[k] == SignalForward(o.sid, o.kind, o.payload)
  {
    var forwards := Forwards(b.mgr.outbound);
    assert ([reply] + forwards + [DrainAck()])[k] == forwards[k - 1];
  }

  lemma HandledForwardsUnderItsId(a: Agent, m: ControlMessage, env: AgentEnv)
    requires Drained(a)
    ensures UnderItsId(m, HandleAndDrain(a, m, env).1)
  {
    var (b, reply) := Handle(a, m, env);
    var sent := Drain(b, m, reply, env).1;
    if |sent| > 2 {
      DrainForwardsTheOutbox(b, m, reply, env, 1);
      AgentTraffic.QueuedCarriesTheId(a, m, env, 0);
      forall k | 0 < k < |sent| - 1 ensures CarriesId(sent[k], m.session) {
        DrainForwardsTheOutbox(b, m, reply, env, k);
        AgentTraffic.QueuedCarriesTheId(a, m, env, k - 1);
      }
    }
  }

  lemma DrainKeepsDrained(b: Agent, m: ControlMessage, reply: ControlMessage, env: AgentEnv)
    requires AgentProofs.InStep(b) && AgentProofs.Sound(b.ctl)
    ensures Drained(Drain(b, m, reply, env).0)
  {
  }

  lemma ServeForwardsUnderItsId(secret: Option<Bytes>, a: Agent, m: ControlMessage, env: AgentEnv)
    requires Drained(a)
    ensures Drained(Serve(secret, a, m, env).0)
    ensures UnderItsId(m, Serve(secret, a, m, env).1)
  {
    ServeWithoutForbidden(secret, a, m, env);
    if !NeedsAttach(secret, a, m) {
      AgentProofs.DriveKeepsStep(a, m, env);
      DrainKeepsDrained(Handle(a, m, env).0, m, Handle(a, m, env).1, env);
      HandledForwardsUnderItsId(a, m, env);
    }
  }

  /** On every run the outbox is empty between commands, and every signal that comes back with a reply was asked for
      by that command, a start of the media or a remote description, and carries the id of the session it names.
      Which session a candidate was gathered in is another matter; see the module ControlCandidates. */
  lemma {:induction false} EveryForwardCarriesTheSessionId(secret: Option<Bytes>, steps: seq<Step>)
    requires ValidRun(secret, steps)
    ensures Drained(Run(secret, steps).agent)
    ensures AllUnderTheirIds(Run(secret, steps).log)
  {
    if steps != [] {
      EveryForwardCarriesTheSessionId(secret, steps[..|steps| - 1]);
      StepForwardsUnderItsId(secret, Run(secret, steps[..|steps| - 1]), steps[|steps| - 1]);
    }
  }

  ghost predicate AllUnderTheirIds(log: seq<Exchange>) {
    forall i :: 0 <= i < |log| ==> UnderItsId(log[i].msg, log[i].sent)
  }

  lemma StepForwardsUnderItsId(secret: Option<Bytes>, s: System, st: Step)
    requires Drained(s.agent) && AllUnderTheirIds(s.log) && Enabled(s, st)
    ensures Drained(Apply(secret, s, st).agent) && AllUnderTheirIds(Apply(secret, s, st).log)
  {
    if st.AgentReceive? {
      ServeForwardsUnderItsId(secret, s.agent, s.toAgent[0], st.env);
    }
  }

  // ---- what the rebuild forgets ------------------------------------------------------------

  /** The command ends the session the agent is attached to. */
  predicate EndsSession(c: Control, m: ControlMessage) {
    (m.DetachSession? || m.ShutdownSession?) && c.session == Some(m.session)
  }

  /** The agent promises that a kill-switch keeps unattended access off across detach and re-attach.  Behind the
      control loop that holds for every command except the detach or shutdown of the attached session: the fresh
      agent built after it no longer knows of the latch. */
  lemma LatchIsLostExactlyOnRebuild(secret: Option<Bytes>, a: Agent, m: ControlMessage, env: AgentEnv)
    requires a.ctl.unattendedDisabled
    ensures Serve(secret, a, m, env).0.ctl.unattendedDisabled <==> !EndsSession(a.ctl, m)
  {
    ServeWithoutForbidden(secret, a, m, env);
    HandleKeepsLatch(a, m, env);
    DrainedControl(Handle(a, m, env).0, m, Handle(a, m, env).1, env);
  }

  lemma HandleKeepsLatch(a: Agent, m: ControlMessage, env: AgentEnv)
    requires a.ctl.unattendedDisabled
    ensures Handle(a, m, env).0.ctl.unattendedDisabled
    ensures Rebuilds(m, Handle(a, m, env).1) <==> EndsSession(a.ctl, m)
  {
    var (c, reply) := HandleControl(a.ctl, m);
    AgentProofs.ControlKeepsLatch(a.ctl, m);
    AgentProofs.DriveKeepsLatch(c, a.mgr, m, reply, env);
  }

  lemma DrainedControl(b: Agent, m: ControlMessage, reply: ControlMessage, env: AgentEnv)
    ensures Drain(b, m, reply, env).0.ctl == if Rebuilds(m, reply) then NoControl(false) else b.ctl
  {
  }

  /** A step at which a latched agent forgets its latch. */
  predicate Forgets(s: System, st: Step)
    requires Enabled(s, st)
  {
    st.Reconnect? || (st.AgentReceive? && EndsSession(s.agent.ctl, s.toAgent[0]))
  }

  predicate Latched(s: System) {
    s.agent.ctl.unattendedDisabled
  }

  lemma StepKeepsLatchExactlyWhen(secret: Option<Bytes>, s: System, st: Step)
    requires Enabled(s, st) && Latched(s)
    ensures Latched(Apply(secret, s, st)) <==> !Forgets(s, st)
  {
    if st.AgentReceive? {
      LatchIsLostExactlyOnRebuild(secret, s.agent, s.toAgent[0], st.env);
    }
  }

  lemma {:induction false} PrefixIsValid(secret: Option<Bytes>, steps: seq<Step>, n: nat)
    requires ValidRun(secret, steps) && n <= |steps|
    ensures ValidRun(secret, steps[..n])
    ensures n < |steps| ==> Enabled(Run(secret, steps[..n]), steps[n])
    ensures n < |steps| ==> ValidRun(secret, steps[..n + 1])
    ensures n < |steps| ==> Run(secret, steps[..n + 1]) == Apply(secret, Run(secret, steps[..n]), steps[n])
  {
    if n == |steps| {
      assert steps[..n] == steps;
    } else if n == |steps| - 1 {
      assert steps[..n + 1] == steps;
    } else {
      PrefixIsValid(secret, steps[..|steps| - 1], n);
      assert steps[..|steps| - 1][..n] == steps[..n] && steps[..|steps| - 1][..n + 1] == steps[..n + 1];
    }
  }

  /** The latch is set after the first n steps of the run. */
  ghost predicate LatchedAt(secret: Option<Bytes>, steps: seq<Step>, n: nat)
    requires ValidRun(secret, steps) && n <= |steps|
  {
    PrefixIsValid(secret, steps, n);
    Latched(Run(secret, steps[..n]))
  }

  /** Step n of the run is one that forgets it. */
  ghost predicate ForgetsAt(secret: Option<Bytes>, steps: seq<Step>, n: nat)
    requires ValidRun(secret, steps) && n < |steps|
  {
    PrefixIsValid(secret, steps, n);
    Forgets(Run(secret, steps[..n]), steps[n])
  }

  lemma LatchedNextExactlyWhen(secret: Option<Bytes>, steps: seq<Step>, n: nat)
    requires ValidRun(secret, steps) && n < |steps| && LatchedAt(secret, steps, n)
    ensures LatchedAt(secret, steps, n + 1) <==> !ForgetsAt(secret, steps, n)
  {
    PrefixIsValid(secret, steps, n);
    StepKeepsLatchExactlyWhen(secret, Run(secret, steps[..n]), steps[n]);
  }

  lemma {:induction false} StaysLatched(secret: Option<Bytes>, steps: seq<Step>, n: nat, last: nat)
    requires ValidRun(secret, steps) && n <= last <= |steps| && LatchedAt(secret, steps, n)
    requires forall i :: n <= i < last ==> !ForgetsAt(secret, steps, i)
    ensures LatchedAt(secret, steps, last)
  {
    if n < last {
      StaysLatched(secret, steps, n, last - 1);
      LatchedNextExactlyWhen(secret, steps, last - 1);
    }
  }

  /** Over whole runs: once latched, an agent stays latched exactly as long as nobody ends the session it is
      attached to and the connection is not made anew.  The source's own promise is that neither matters. */
  lemma LatchHoldsExactlyUntilForgotten(secret: Option<Bytes>, steps: seq<Step>, n: nat, last: nat)
    requires ValidRun(secret, steps) && n <= last <= |steps| && LatchedAt(secret, steps, n)
    ensures (forall i :: n <= i <= last ==> LatchedAt(secret, steps, i))
      <==> (forall i :: n <= i < last ==> !ForgetsAt(secret, steps, i))
  {
    if forall i :: n <= i < last ==> !ForgetsAt(secret, steps, i) {
      forall i | n <= i <= last ensures LatchedAt(secret, steps, i) {
        StaysLatched(secret, steps, n, i);
      }
    } else {
      var i :| n <= i < last && ForgetsAt(secret, steps, i);
      if LatchedAt(secret, steps, i) {
        LatchedNextExactlyWhen(secret, steps, i);
      }
    }
  }

  /** The second way to lose it, with no detach at all: a kill, a broken connection and the next accept. */
  lemma ReconnectForgetsTheLatch(env: AgentEnv)
    ensures var steps := [Send(KillSwitch(None, true)), AgentReceive(env), Reconnect];
      ValidRun(None, steps) && LatchedAt(None, steps, 2) && !LatchedAt(None, steps, 3)
  {
    var steps := [Send(KillSwitch(None, true)), AgentReceive(env), Reconnect];
    Extend(None, [], steps[0]);
    KillLatches(Run(None, [steps[0]]), env);
    Extend(None, [steps[0]], steps[1]);
    Extend(None, [steps[0], steps[1]], steps[2]);
    assert steps[..2] == [steps[0], steps[1]] && steps[..3] == steps;
  }

  lemma KillLatches(s: System, env: AgentEnv)
    requires s.toAgent == [KillSwitch(None, true)] && s.sending == []
    ensures Latched(Apply(None, s, AgentReceive(env)))
  {
    ServeControl(s.agent, s.toAgent[0], env);
  }

  /** The control flags after one command of a connection without a boot secret. */
  function ControlAfter(c: Control, m: ControlMessage): Control {
    if Rebuilds(m, HandleControl(c, m).1) then NoControl(false) else HandleControl(c, m).0
  }

  lemma ServeControl(a: Agent, m: ControlMessage, env: AgentEnv)
    requires !m.StartMedia?
    ensures Serve(None, a, m, env).0.ctl == ControlAfter(a.ctl, m)
  {
  }
}
