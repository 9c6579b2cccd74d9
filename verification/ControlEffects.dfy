/** What one command on the control connection is answered with, what it leaves behind, and what the client makes of
    the messages it reads. */
module ControlEffects {
  import opened Common
  import opened ManagerModel
  import opened AgentModel
  import opened ControlLoop
  import opened ControlService
  import opened Transcript

  // ---- the boot secret ---------------------------------------------------------------------

  /** Whether the command lacks the secret it has to carry, or the session opened with it. */
  predicate LacksSecret(secret: Option<Bytes>, a: Agent, m: ControlMessage) {
    secret.Some? && if m.AttachSession? then m.bootSecret != secret else a.ctl.session.None?
  }

  /** With a secret expected, an attach has to carry it and every other command needs a session; the command that
      lacks this is refused and leaves the agent alone.  Any other command is answered by the agent itself, and the
      agent never refuses for the secret. */
  lemma RefusedExactlyWhen(secret: Option<Bytes>, a: Agent, m: ControlMessage, env: AgentEnv)
    ensures var (b, sent) := Serve(secret, a, m, env);
      if LacksSecret(secret, a, m) then
        b == a && sent == [Error(AuthFailed, if m.AttachSession? then Some(m.session) else None), DrainAck()]
      else
        sent[0] == Handle(a, m, env).1 && !(sent[0].Error? && sent[0].code.AuthFailed?)
  {
    SecretDecides(secret, a, m);
    ServedOrRefused(secret, a, m, env);
    AgentNeverRefuses(a, m, env);
  }

  lemma SecretDecides(secret: Option<Bytes>, a: Agent, m: ControlMessage)
    ensures NeedsAttach(secret, a, m) <==> LacksSecret(secret, a, m)
  {
  }

  lemma ServedOrRefused(secret: Option<Bytes>, a: Agent, m: ControlMessage, env: AgentEnv)
    ensures var (b, sent) := Serve(secret, a, m, env);
      if NeedsAttach(secret, a, m) then (b, sent) == (a, [Refusal(m), DrainAck()])
      else sent[0] == Handle(a, m, env).1
  {
    ServeWithoutForbidden(secret, a, m, env);
  }

  lemma AgentNeverRefuses(a: Agent, m: ControlMessage, env: AgentEnv)
    ensures var reply := Handle(a, m, env).1; !(reply.Error? && reply.code.AuthFailed?)
  {
  }

  // ---- behind the reply --------------------------------------------------------------------

  /** Behind the reply come the signals that the agent has queued by then, each once, in their order and as they are,
      and then the sentinel. */
  lemma QueuedSignalsFollowTheReply(secret: Option<Bytes>, a: Agent, m: ControlMessage, env: AgentEnv, i: nat)
    requires !NeedsAttach(secret, a, m)
    ensures var sent, queued := Serve(secret, a, m, env).1, Handle(a, m, env).0.mgr.outbound;
      && |sent| == |queued| + 2
      && (i < |queued| ==> sent[i + 1] == SignalForward(queued[i].sid, queued[i].kind, queued[i].payload))
      && sent[|queued| + 1] == Ack(Some(DRAIN_COMPLETE), None)
  {
    ServeWithoutForbidden(secret, a, m, env);
  }

  /** The candidates handed over behind a command: at the poll, which every live session has, and at the media pump,
      which a running plane has behind a statistics query, an answer and a candidate. */
  function HandedOver(b: Agent, m: ControlMessage, env: AgentEnv): seq<string> {
    (if b.ctl.session.Some? && !b.ctl.killed then env.polled else [])
    + (if b.ctl.mediaStarted
          && (m.QueryStats? || (m.SignalForward? && (m.kind == "session_answer" || m.kind == "ice_candidate")))
       then env.pumped else [])
  }

  /** What a command leaves.  After an acknowledged detach or shutdown the agent is a new one; after any other command
      it is as the command left it, its queue sent, and the candidates handed over since are kept for later under the
      id of the session. */
  lemma LeavesBehind(secret: Option<Bytes>, a: Agent, m: ControlMessage, env: AgentEnv)
    requires !NeedsAttach(secret, a, m)
    ensures var after := Serve(secret, a, m, env).0; var (b, reply) := Handle(a, m, env);
      if reply.Ack? && (m.DetachSession? || m.ShutdownSession?) then after == NewAgent()
      else
        && after.ctl == b.ctl && after.mgr.outbound == []
        && after.mgr == b.mgr.(outbound := [], trace := after.mgr.trace,
                               gathered := b.mgr.gathered + Tagged(b.mgr.sid, HandedOver(b, m, env)))
  {
    ServeWithoutForbidden(secret, a, m, env);
    var (b, reply) := Handle(a, m, env);
    if !Rebuilds(m, reply) {
      var c := b.(mgr := b.mgr.(outbound := []));
      PumpAfterPoll(c, m, env);
      assert HandedOver(c, m, env) == HandedOver(b, m, env);
    }
  }

  lemma PumpAfterPoll(c: Agent, m: ControlMessage, env: AgentEnv)
    ensures var after := Pump(PollPeer(c, env), m, env);
      && after.ctl == c.ctl
      && after.mgr == c.mgr.(trace := after.mgr.trace,
                             gathered := c.mgr.gathered + Tagged(c.mgr.sid, HandedOver(c, m, env)))
  {
    var live := c.ctl.session.Some? && !c.ctl.killed;
    var first := if live then env.polled else [];
    var pumps := MayPump(m) && c.ctl.mediaStarted;
    var second := if pumps then env.pumped else [];
    var g := c.mgr.gathered;
    assert first + second == HandedOver(c, m, env);
    assert Tagged(c.mgr.sid, first + second) == Tagged(c.mgr.sid, first) + Tagged(c.mgr.sid, second);
    assert (g + Tagged(c.mgr.sid, first)) + Tagged(c.mgr.sid, second) == g + Tagged(c.mgr.sid, first + second);
    assert g + Tagged(c.mgr.sid, []) == g;
    assert PollPeer(c, env).mgr.gathered == g + Tagged(c.mgr.sid, first);
  }

  // ---- reading -----------------------------------------------------------------------------

  /** What may stand between a reply and the sentinel. */
  predicate MayFollow(m: ControlMessage) {
    m.SignalForward? || m.StatsPush? || m.LocalConfirmResult?
  }

  predicate EndsDrain(m: ControlMessage) {
    m.Ack? && m.forMethod == Some("drain_complete")
  }

  /** Message k is the first behind the reply that may not follow it. */
  ghost predicate StopsAt(stream: seq<ControlMessage>, k: nat) {
    0 < k < |stream| && !MayFollow(stream[k]) && forall i :: 0 < i < k ==> MayFollow(stream[i])
  }

  /** A request reads up to the first message that may not follow a reply.  If that is the sentinel, it returns the
      reply and what came between, in order, and leaves what follows on the stream; if it is anything else, the
      request fails on it. */
  lemma RequestReadsToTheStop(stream: seq<ControlMessage>, k: nat)
    requires StopsAt(stream, k)
    ensures ReadAnswer(stream) ==
      if EndsDrain(stream[k]) then Returned(Answer(stream[0], stream[1..k]), stream[k + 1..]) else Protocol(stream[k])
  {
    DrainStops(stream[0], [], stream[1..], k - 1);
    assert [] + stream[1..][..k - 1] == stream[1..k];
    assert stream[1..][k..] == stream[k + 1..];
  }

  lemma {:induction false} DrainStops(reply: ControlMessage, outbound: seq<ControlMessage>,
                                      stream: seq<ControlMessage>, k: nat)
    requires k < |stream| && !MayFollow(stream[k]) && forall i :: 0 <= i < k ==> MayFollow(stream[i])
    ensures DrainFrom(reply, outbound, stream) ==
      if EndsDrain(stream[k]) then Returned(Answer(reply, outbound + stream[..k]), stream[k + 1..])
      else Protocol(stream[k])
    decreases |stream|
  {
    if k == 0 {
      assert outbound + stream[..0] == outbound;
    } else {
      DrainStops(reply, outbound + [stream[0]], stream[1..], k - 1);
      assert outbound + [stream[0]] + stream[1..][..k - 1] == outbound + stream[..k];
      assert stream[1..][k..] == stream[k + 1..];
    }
  }

  /** And it finds the connection closed exactly when there is no such message. */
  lemma DisconnectedExactlyWhen(stream: seq<ControlMessage>)
    ensures ReadAnswer(stream).Disconnected? <==> forall i :: 0 < i < |stream| ==> MayFollow(stream[i])
  {
    if stream != [] {
      DrainDisconnects(stream[0], [], stream[1..]);
      assert forall i :: 0 < i < |stream| ==> stream[i] == stream[1..][i - 1];
      assert forall i :: 0 <= i < |stream| - 1 ==> stream[1..][i] == stream[i + 1];
    }
  }

  lemma {:induction false} DrainDisconnects(reply: ControlMessage, outbound: seq<ControlMessage>,
                                            stream: seq<ControlMessage>)
    ensures DrainFrom(reply, outbound, stream).Disconnected? <==> forall i :: 0 <= i < |stream| ==> MayFollow(stream[i])
    decreases |stream|
  {
    if stream != [] {
      DrainDisconnects(reply, outbound + [stream[0]], stream[1..]);
      assert forall i :: 0 <= i < |stream| - 1 ==> stream[1..][i] == stream[i + 1];
    }
  }
}
