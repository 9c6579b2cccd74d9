/** What holds of the agent after any sequence of commands, polls and authorizations. */
module AgentProofs {
  import opened Common
  import opened ManagerModel
  import OtpCodes
  import Transcript
  import opened AgentModel
  import M = ManagerModel
  import P = ManagerProofs

  /** Control state and manager agree. */
  ghost predicate InStep(a: Agent) {
    && (!a.ctl.killed ==> a.mgr.sid == a.ctl.session)
    && (a.ctl.killed ==> a.mgr.sid.None? && !a.mgr.media)
    && (a.ctl.mediaStarted ==> a.mgr.media)
    && a.mgr.policyEnabled == InputGate(a.ctl)
  }

  /** What the control flags promise by themselves. */
  ghost predicate Sound(c: Control) {
    && (c.killed ==> !c.mediaStarted && !c.enableInput && !c.unattended && !c.chromeVisible)
    && (c.session.Some? && !c.killed ==> c.chromeVisible)
    && (c.session.None? ==> !c.mediaStarted && !c.enableInput && !c.unattended && !c.chromeVisible)
    && (c.unattended ==> !c.unattendedDisabled)
  }

  ghost predicate Inv(a: Agent) {
    InStep(a) && Sound(a.ctl) && P.Inv(a.mgr)
  }

  lemma ControlKeepsSound(c: Control, m: ControlMessage)
    requires Sound(c)
    ensures Sound(HandleControl(c, m).0)
    ensures HandleControl(c, m).1.Error? ==> HandleControl(c, m).0 == c
  {
  }

  lemma PolicyKeepsInv(mgr: Manager, enabled: bool)
    requires P.Inv(mgr)
    ensures P.Inv(Note(mgr.(policyEnabled := enabled), PolicySet(enabled)))
  {
    var off := mgr.(policyEnabled := false);
    assert P.Inv(off);
    P.NoteKeepsInv(off, PolicySet(enabled));
    P.AppendSince(mgr.trace, PolicySet(enabled));
    P.AppendSince(Since(mgr.trace), PolicySet(enabled));
  }

  /** Media and the outbox are nobody else's business. */
  lemma OutboxKeepsInv(mgr: Manager, media: bool, outbound: seq<Signal>)
    requires P.Inv(mgr) && (media ==> mgr.sid.Some?)
    ensures P.Inv(mgr.(media := media, outbound := outbound))
  {
  }

  lemma MediaKeepsInv(mgr: Manager, env: MediaEnv)
    requires P.Inv(mgr)
    ensures P.Inv(M.StartMedia(mgr, env).0)
  {
    if mgr.sid.Some? && !mgr.media && env.captureOk {
      var on := mgr.(media := true);
      OutboxKeepsInv(mgr, true, mgr.outbound);
      if !env.peerNew {
        P.QueueKeepsInv(on, mgr.sid.value);
      } else {
        var made := M.Gather(on, env.ice);
        P.GatherKeepsInv(on, env.ice);
        if env.offer.Some? {
          OfferKeepsInv(made, Signal(mgr.sid.value, SESSION_OFFER, env.offer.value));
        }
      }
    }
  }

  lemma OfferKeepsInv(made: Manager, offer: Signal)
    requires P.Inv(made) && made.sid.Some?
    ensures P.Inv(M.QueueIce(made.(outbound := made.outbound + [offer]), made.sid.value))
  {
    OutboxKeepsInv(made, made.media, made.outbound + [offer]);
    P.QueueKeepsInv(made.(outbound := made.outbound + [offer]), made.sid.value);
  }

  lemma SignalKeepsInv(mgr: Manager, kind: string, applied: bool, ice: seq<string>)
    requires P.Inv(mgr)
    ensures P.Inv(M.ApplySignal(mgr, kind, applied, ice).0)
  {
    P.GatherKeepsInv(mgr, ice);
    if mgr.sid.Some? {
      P.QueueKeepsInv(M.Gather(mgr, ice), mgr.sid.value);
    }
  }

  lemma KillKeepsInv(mgr: Manager)
    requires P.Inv(mgr)
    ensures P.Inv(Note(M.Detach(mgr.(media := false)).(policyEnabled := false), Killed))
  {
    assert M.Detach(mgr.(media := false)).(policyEnabled := false) == M.Detach(mgr);
    P.DetachKeepsInv(mgr);
  }

  lemma BoundaryKeepsInv(c: Control, mgr: Manager, m: ControlMessage, reply: ControlMessage, env: AgentEnv)
    requires P.Inv(mgr) && (m.AttachSession? || m.DetachSession? || m.ShutdownSession? || m.KillSwitch?)
    requires m.KillSwitch? ==> !InputGate(c)
    ensures P.Inv(Drive(c, mgr, m, reply, env).0.mgr)
  {
    if m.AttachSession? {
      P.AttachKeepsInv(mgr, m.session);
    } else if m.KillSwitch? {
      KillKeepsInv(mgr);
    } else {
      P.DetachKeepsInv(mgr);
    }
  }

  lemma DriveKeepsInv(c: Control, mgr: Manager, m: ControlMessage, reply: ControlMessage, env: AgentEnv)
    requires P.Inv(mgr)
    requires m.SetPolicy? ==> InputGate(c) == m.enableInput
    requires m.KillSwitch? ==> !InputGate(c)
    ensures P.Inv(Drive(c, mgr, m, reply, env).0.mgr)
  {
    if m.SetPolicy? {
      PolicyKeepsInv(mgr, m.enableInput);
    } else if m.StartMedia? {
      MediaKeepsInv(mgr, env.media);
    } else if m.StopMedia? {
      OutboxKeepsInv(mgr, false, mgr.outbound);
    } else if m.SignalForward? {
      SignalKeepsInv(mgr, m.kind, env.applied, env.ice);
    } else if m.AttachSession? || m.DetachSession? || m.ShutdownSession? || m.KillSwitch? {
      BoundaryKeepsInv(c, mgr, m, reply, env);
    }
  }

  lemma HandleKeepsInv(a: Agent, m: ControlMessage, env: AgentEnv)
    requires P.Inv(a.mgr)
    ensures P.Inv(Handle(a, m, env).0.mgr)
  {
    var (c, reply) := HandleControl(a.ctl, m);
    if reply.Ack? || reply.StatsPush? {
      DriveKeepsInv(c, a.mgr, m, reply, env);
    }
  }

  lemma DriveKeepsStep(a: Agent, m: ControlMessage, env: AgentEnv)
    requires InStep(a) && Sound(a.ctl)
    ensures InStep(Handle(a, m, env).0) && Sound(Handle(a, m, env).0.ctl)
  {
    ControlKeepsSound(a.ctl, m);
  }

  lemma {:induction false} PollLeavesTheRest(w: World, m: Manager, msgs: seq<Inbound>)
    ensures var n := M.PollInbound(w, m, msgs).0;
      && n.sid == m.sid && n.media == m.media && n.policyEnabled == m.policyEnabled
      && n.outbound == m.outbound && n.gathered == m.gathered
    decreases |msgs|
  {
    if msgs != [] {
      if msgs[0].channel == IDENTITY_CHANNEL {
        PollLeavesTheRest(w, M.HandleIdentity(w, m, msgs[0]).0, msgs[1..]);
      } else if msgs[0].channel == INPUT_CHANNEL {
        PollLeavesTheRest(w, M.ProcessInput(w, m, msgs[0]).0, msgs[1..]);
      } else {
        PollLeavesTheRest(w, m, msgs[1..]);
      }
    }
  }

  lemma PollKeepsInv(w: World, a: Agent, msgs: seq<Inbound>)
    requires Inv(a)
    ensures Inv(Poll(w, a, msgs))
  {
    assert a.mgr.(policyEnabled := InputGate(a.ctl)) == a.mgr;
    PollLeavesTheRest(w, a.mgr, msgs);
    P.PollKeepsInv(w, a.mgr, msgs);
  }

  lemma AuthorizationKeepsInv(w: World, a: Agent, st: Step)
    requires Inv(a) && (st.ModeA? || st.ModeB? || st.UnattendedSecret?)
    ensures Inv(Apply(w, a, st))
  {
    match st
    case ModeA(record, code, pepper, now) =>
      var r := OtpCodes.AuthorizeRecord(w.crypto, record, code, pepper, now);
      if r.Ok? { P.AuthorizeKeepsInv(a.mgr, r.value); }
    case ModeB(secret, nonce, fpHost, fpViewer, mac) => P.AuthorizeKeepsInv(a.mgr, secret);
    case UnattendedSecret(secret) => P.AuthorizeKeepsInv(a.mgr, secret);
  }

  lemma HostStepKeepsInv(w: World, a: Agent, st: Step)
    requires Inv(a) && (st.Challenge? || st.TakeInput? || st.TakeSignals? || st.HandOver? || st.ReenableUnattended?)
    ensures Inv(Apply(w, a, st))
  {
    match st
    case Challenge(connected, nonce, sent) => P.ChallengeKeepsInv(a.mgr, connected, nonce, sent);
    case TakeInput => P.TakeAcceptedKeepsInv(a.mgr);
    case TakeSignals => OutboxKeepsInv(a.mgr, a.mgr.media, []);
    case HandOver(ice) => P.GatherKeepsInv(a.mgr, ice);
    case ReenableUnattended =>
  }

  lemma StepKeepsInv(w: World, a: Agent, st: Step)
    requires Inv(a)
    ensures Inv(Apply(w, a, st))
  {
    if st.Command? {
      HandleKeepsInv(a, st.msg, st.env);
      DriveKeepsStep(a, st.msg, st.env);
    } else if st.Inbounds? {
      PollKeepsInv(w, a, st.msgs);
    } else if st.ModeA? || st.ModeB? || st.UnattendedSecret? {
      AuthorizationKeepsInv(w, a, st);
    } else {
      HostStepKeepsInv(w, a, st);
    }
  }

  lemma {:induction false} EveryRunKeepsInv(w: World, steps: seq<Step>)
    ensures Inv(Run(w, steps))
  {
    if steps != [] {
      EveryRunKeepsInv(w, steps[..|steps| - 1]);
      StepKeepsInv(w, Run(w, steps[..|steps| - 1]), steps[|steps| - 1]);
    }
  }

  /** In every reachable state, a command answered with an error leaves the control state exactly as it was.
      (Hiding the chrome sets it visible, but a live session shows it already; a start that fails clears
      the media flag, but then it was not set.) */
  lemma ErrorsChangeNothing(w: World, steps: seq<Step>, m: ControlMessage, env: AgentEnv)
    requires Handle(Run(w, steps), m, env).1.Error?
    ensures Handle(Run(w, steps), m, env).0.ctl == Run(w, steps).ctl
  {
    EveryRunKeepsInv(w, steps);
    ControlKeepsSound(Run(w, steps).ctl, m);
  }

  // ---- input -------------------------------------------------------------------------------

  /** The attach a current session began with: nothing since has ended it. */
  lemma {:induction false} SessionBegan(h: seq<Event>) returns (a: nat)
    requires CurrentSession(h).Some?
    ensures a < |h| && h[a] == Attached(CurrentSession(h).value) && Since(h) == h[a + 1..]
    ensures forall i :: a < i < |h| ==> !IsBoundary(h[i])
  {
    var n := |h| - 1;
    if h[n].Attached? {
      a := n;
    } else {
      a := SessionBegan(h[..n]);
      assert h[a + 1..] == h[..n][a + 1..] + [h[n]];
    }
  }

  lemma {:induction false} LastPolicy(s: seq<Event>) returns (p: nat)
    requires PolicyOn(s)
    ensures p < |s| && s[p] == PolicySet(true) && forall i :: p < i < |s| ==> !s[i].PolicySet?
  {
    if s[|s| - 1].PolicySet? {
      p := |s| - 1;
    } else {
      p := LastPolicy(s[..|s| - 1]);
    }
  }

  /** The events behind a binding, by position. */
  lemma BindingBegan(s: seq<Event>) returns (z: nat, c: nat, r: nat)
    requires BoundIn(s)
    ensures z < c < r < |s| && s[z].Authorized? && s[c].Challenged? && s[r] == Responded(s[c].nonce, true)
  {
    r :| 0 <= r < |s| && s[r].Responded? && s[r].verified && ChallengedIn(s[..r], s[r].nonce);
    c :| 0 <= c < |s[..r]| && s[..r][c] == Challenged(s[r].nonce) && Authorized in s[..r][..c];
    z :| 0 <= z < c && s[..r][..c][z] == Authorized;
  }

  /** Positions a, z, c, r, p of the events that let position k of the trace inject input. */
  ghost predicate Handshake(h: seq<Event>, a: nat, z: nat, c: nat, r: nat, p: nat, k: nat) {
    && a < z < c < r < k <= |h| && a < p < k
    && h[a].Attached? && h[z].Authorized? && h[c].Challenged? && h[r] == Responded(h[c].nonce, true)
    && h[p] == PolicySet(true)
    && (forall i :: p < i < k ==> !h[i].PolicySet?)
    && (forall i :: a < i < k ==> !IsBoundary(h[i]))
  }

  lemma JustifiedMeansHandshake(h: seq<Event>) returns (a: nat, z: nat, c: nat, r: nat, p: nat)
    requires Justified(h)
    ensures Handshake(h, a, z, c, r, p, |h|)
  {
    a := SessionBegan(h);
    z, c, r := BindingBegan(Since(h));
    p := LastPolicy(Since(h));
    LiftHandshake(h, a, z, c, r, p);
    z, c, r, p := a + 1 + z, a + 1 + c, a + 1 + r, a + 1 + p;
  }

  lemma LiftHandshake(h: seq<Event>, a: nat, z: nat, c: nat, r: nat, p: nat)
    requires a < |h| && h[a].Attached? && forall i :: a < i < |h| ==> !IsBoundary(h[i])
    requires var s := h[a + 1..];
      && z < c < r < |s| && s[z].Authorized? && s[c].Challenged? && s[r] == Responded(s[c].nonce, true)
      && p < |s| && s[p] == PolicySet(true) && forall i :: p < i < |s| ==> !s[i].PolicySet?
    ensures Handshake(h, a, a + 1 + z, a + 1 + c, a + 1 + r, a + 1 + p, |h|)
  {
    var s := h[a + 1..];
    forall i | a + 1 + p < i < |h| ensures !h[i].PolicySet? {
      assert s[i - a - 1] == h[i];
    }
  }

  /** On every run, an event reaches the injector only after a full handshake in the session it is sent in:
      an attach, then an authorization, then a challenge, then a verified response to it, and the policy last
      accepted in the session allows input.  Nothing has detached or killed the session in between. */
  lemma InputNeedsTheWholeHandshake(w: World, steps: seq<Step>, k: nat) returns (a: nat, z: nat, c: nat, r: nat, p: nat)
    requires k < |Run(w, steps).mgr.trace| && Run(w, steps).mgr.trace[k].Reached?
    ensures Handshake(Run(w, steps).mgr.trace, a, z, c, r, p, k)
  {
    EveryRunKeepsInv(w, steps);
    var h := Run(w, steps).mgr.trace;
    assert M.InOrder(h[..k], h[k]);
    a, z, c, r, p := JustifiedMeansHandshake(h[..k]);
    assert forall i :: 0 <= i < k ==> h[..k][i] == h[i];
  }

  /** And whenever the agent's gate is open, an input message that decodes does reach the injector; otherwise
      nothing does. */
  lemma InputReachesExactlyWhenAllowed(w: World, steps: seq<Step>, msg: Inbound)
    requires msg.channel == INPUT_CHANNEL
    ensures var a := Run(w, steps); var b := Poll(w, a, [msg]);
      if InputInjectionAllowed(a) && msg.text.Some? && w.decode(msg.text.value).Some?
      then b.mgr.trace == a.mgr.trace + [Reached(w.decode(msg.text.value).value, msg.injector)]
      else b.mgr.trace == a.mgr.trace + [Dropped(InputInjectionAllowed(a))]
  {
    EveryRunKeepsInv(w, steps);
    OneInput(w, Run(w, steps), msg);
  }

  lemma OneInput(w: World, a: Agent, msg: Inbound)
    requires InStep(a) && msg.channel == INPUT_CHANNEL
    ensures Poll(w, a, [msg]) == a.(mgr := M.ProcessInput(w, a.mgr, msg).0)
  {
    assert a.mgr.(policyEnabled := InputGate(a.ctl)) == a.mgr;
    assert |IDENTITY_CHANNEL| != |INPUT_CHANNEL|;
    assert [msg][1..] == [];
    var n := M.ProcessInput(w, a.mgr, msg).0;
    assert M.PollInbound(w, n, []) == (n, Done);
    assert M.PollInbound(w, a.mgr, [msg]) == (n, Done);
  }

  lemma OneIdentity(w: World, a: Agent, msg: Inbound)
    requires InStep(a) && msg.channel == IDENTITY_CHANNEL
    ensures Poll(w, a, [msg]) == a.(mgr := M.HandleIdentity(w, a.mgr, msg).0)
  {
    assert a.mgr.(policyEnabled := InputGate(a.ctl)) == a.mgr;
    assert [msg][1..] == [];
    var (n, status) := M.HandleIdentity(w, a.mgr, msg);
    assert M.PollInbound(w, n, []) == (n, Done);
    assert M.PollInbound(w, a.mgr, [msg]) == (n, status);
  }

  /** The challenge, the answer of a viewer with the same key, and the enabling policy. */
  function RestOfHandshake(w: World, key: seq<byte>, sid: ShortText, nonce: Nonce, fpHost: ShortText,
                           fpViewer: ShortText, env: AgentEnv)
    : seq<Step>
  {
    [Challenge(true, nonce, true), Inbounds([P.HonestAnswer(w, key, sid, nonce, fpHost, fpViewer)]),
     Command(SetPolicy(sid, true, false), env)]
  }

  /** The positive side of the gate: in a live session of any reachable agent, the shown code, the challenge, an
      honest answer and a policy that enables input let input through. */
  lemma HonestViewerGetsInputThrough(w: World, steps: seq<Step>, sid: ShortText, record: OtpCodes.Record, code: string,
                                     pepper: seq<byte>, now: u64, nonce: Nonce, fpHost: ShortText, fpViewer: ShortText,
                                     env: AgentEnv)
    requires Run(w, steps).ctl.session == Some(sid) && !Run(w, steps).ctl.killed
    requires OtpCodes.AuthorizeRecord(w.crypto, record, code, pepper, now).Ok?
    requires forall k, x :: |w.crypto.hmac(k, x)| == 32
    ensures var key := OtpCodes.AuthorizeRecord(w.crypto, record, code, pepper, now).value;
      InputInjectionAllowed(RunFrom(w, Run(w, steps),
        [ModeA(record, code, pepper, now)] + RestOfHandshake(w, key, sid, nonce, fpHost, fpViewer, env)))
  {
    EveryRunKeepsInv(w, steps);
    var key := OtpCodes.AuthorizeRecord(w.crypto, record, code, pepper, now).value;
    var st0 := ModeA(record, code, pepper, now);
    KeyGetsInputThrough(w, Run(w, steps), st0, sid, key, nonce, fpHost, fpViewer, env);
  }

  /** The same in Mode B, for a viewer that has the host's secret. */
  lemma HonestModeBViewerGetsInputThrough(w: World, steps: seq<Step>, sid: ShortText, secret: seq<byte>,
                                          authNonce: Transcript.ShortBytes, fpHost0: Transcript.ShortBytes,
                                          fpViewer0: Transcript.ShortBytes,
                                          nonce: Nonce, fpHost: ShortText, fpViewer: ShortText, env: AgentEnv)
    requires Run(w, steps).ctl.session == Some(sid) && !Run(w, steps).ctl.killed
    requires forall k, x :: |w.crypto.hmac(k, x)| == 32
    ensures var mac := P.ModeBAnswer(w, secret, sid, authNonce, fpHost0, fpViewer0);
      InputInjectionAllowed(RunFrom(w, Run(w, steps),
        [ModeB(secret, authNonce, fpHost0, fpViewer0, mac)]
        + RestOfHandshake(w, secret, sid, nonce, fpHost, fpViewer, env)))
  {
    EveryRunKeepsInv(w, steps);
    var mac := P.ModeBAnswer(w, secret, sid, authNonce, fpHost0, fpViewer0);
    var st0 := ModeB(secret, authNonce, fpHost0, fpViewer0, mac);
    KeyGetsInputThrough(w, Run(w, steps), st0, sid, secret, nonce, fpHost, fpViewer, env);
  }

  lemma KeyGetsInputThrough(w: World, a: Agent, st0: Step, sid: ShortText, key: seq<byte>,
                            nonce: Nonce, fpHost: ShortText, fpViewer: ShortText, env: AgentEnv)
    requires Inv(a) && a.ctl.session == Some(sid) && !a.ctl.killed
    requires Apply(w, a, st0) == a.(mgr := M.Authorize(a.mgr, key))
    requires forall k, x :: |w.crypto.hmac(k, x)| == 32
    ensures InputInjectionAllowed(RunFrom(w, a, [st0] + RestOfHandshake(w, key, sid, nonce, fpHost, fpViewer, env)))
  {
    var rest := RestOfHandshake(w, key, sid, nonce, fpHost, fpViewer, env);
    assert [st0] + rest == [st0, rest[0], rest[1], rest[2]];
    FourSteps(w, a, st0, rest[0], rest[1], rest[2]);
    BoundByHonestAnswer(w, a, sid, key, nonce, fpHost, fpViewer);
    PolicyOpensGate(Apply(w, Apply(w, Apply(w, a, st0), rest[0]), rest[1]), sid, env);
  }

  lemma FourSteps(w: World, a: Agent, st0: Step, st1: Step, st2: Step, st3: Step)
    ensures RunFrom(w, a, [st0, st1, st2, st3]) == Apply(w, Apply(w, Apply(w, Apply(w, a, st0), st1), st2), st3)
  {
    var all := [st0, st1, st2, st3];
    assert all[..3] == [st0, st1, st2] && [st0, st1, st2][..2] == [st0, st1];
    assert [st0, st1][..1] == [st0] && [st0][..0] == [];
    assert RunFrom(w, a, []) == a;
    assert RunFrom(w, a, [st0]) == Apply(w, a, st0);
    assert RunFrom(w, a, [st0, st1]) == Apply(w, Apply(w, a, st0), st1);
    assert RunFrom(w, a, [st0, st1, st2]) == Apply(w, Apply(w, Apply(w, a, st0), st1), st2);
  }

  lemma BoundByHonestAnswer(w: World, a: Agent, sid: ShortText, key: seq<byte>,
                            nonce: Nonce, fpHost: ShortText, fpViewer: ShortText)
    requires Inv(a) && a.ctl.session == Some(sid) && !a.ctl.killed
    requires forall k, x :: |w.crypto.hmac(k, x)| == 32
    ensures var b := Apply(w, Apply(w, a.(mgr := M.Authorize(a.mgr, key)), Challenge(true, nonce, true)),
                           Inbounds([P.HonestAnswer(w, key, sid, nonce, fpHost, fpViewer)]));
      b.ctl == a.ctl && InputAllowed(b.mgr)
  {
    P.SameKeyBinds(w, a.mgr, key, nonce, fpHost, fpViewer);
    var b := a.(mgr := M.StartChallenge(M.Authorize(a.mgr, key), true, nonce, true).0);
    ChallengeStep(w, a.(mgr := M.Authorize(a.mgr, key)), nonce);
    assert InStep(b);
    OneIdentity(w, b, P.HonestAnswer(w, key, sid, nonce, fpHost, fpViewer));
    InboundsStep(w, b, [P.HonestAnswer(w, key, sid, nonce, fpHost, fpViewer)]);
  }

  lemma ChallengeStep(w: World, a: Agent, nonce: Nonce)
    ensures Apply(w, a, Challenge(true, nonce, true)) == a.(mgr := M.StartChallenge(a.mgr, true, nonce, true).0)
  {
  }

  lemma InboundsStep(w: World, a: Agent, msgs: seq<Inbound>)
    ensures Apply(w, a, Inbounds(msgs)) == Poll(w, a, msgs)
  {
  }

  lemma PolicyOpensGate(a: Agent, sid: ShortText, env: AgentEnv)
    requires a.ctl.session == Some(sid) && !a.ctl.killed && InputAllowed(a.mgr)
    ensures InputInjectionAllowed(Handle(a, SetPolicy(sid, true, false), env).0)
  {
    assert HandleControl(a.ctl, SetPolicy(sid, true, false)).1.Ack?;
  }

  /** A killed agent takes nothing but a way out: another kill, stopping media, the end of its session or a new
      attach, and of these only the last two lift the kill. */
  lemma KilledTakesOnlyAWayOut(w: World, steps: seq<Step>, m: ControlMessage, env: AgentEnv)
    requires Run(w, steps).ctl.killed && Handle(Run(w, steps), m, env).1.Ack?
    ensures m.KillSwitch? || m.StopMedia? || m.DetachSession? || m.ShutdownSession? || m.AttachSession?
    ensures Handle(Run(w, steps), m, env).0.ctl.killed <==> m.KillSwitch? || m.StopMedia?
  {
    KilledControl(Run(w, steps).ctl, m);
  }

  lemma KilledControl(c: Control, m: ControlMessage)
    requires c.killed && HandleControl(c, m).1.Ack?
    ensures m.KillSwitch? || m.StopMedia? || m.DetachSession? || m.ShutdownSession? || m.AttachSession?
    ensures HandleControl(c, m).0.killed <==> m.KillSwitch? || m.StopMedia?
  {
  }

  /** Whatever killed a session, input takes a new attach and a new handshake. */
  lemma KilledStartsOver(w: World, steps: seq<Step>, i: nat, k: nat) returns (a: nat)
    requires var h := Run(w, steps).mgr.trace; i < k < |h| && h[i].Killed? && h[k].Reached?
    ensures var h := Run(w, steps).mgr.trace; i < a < k && h[a].Attached?
  {
    var z, c, r, p;
    a, z, c, r, p := InputNeedsTheWholeHandshake(w, steps, k);
  }

  /** Bound means authorized and attached, and both layers of the input gate say the same. */
  lemma BoundMeansAuthorizedAndAttached(w: World, steps: seq<Step>)
    ensures var a := Run(w, steps);
      a.mgr.identity.bound ==>
        a.mgr.identity.authorized && a.ctl.session.Some? && a.mgr.sid == a.ctl.session && !a.ctl.killed
    ensures InputInjectionAllowed(Run(w, steps)) <==> InjectionAllowed(Run(w, steps).mgr)
  {
    EveryRunKeepsInv(w, steps);
  }

  /** The ring of accepted input is the last 64 events injected since it was last emptied. */
  lemma AcceptedIsTheLast64(w: World, steps: seq<Step>)
    ensures var m := Run(w, steps).mgr; m.accepted == LastN(InjectedSince(m.trace), 64)
  {
    EveryRunKeepsInv(w, steps);
  }

  /** Each challenge is answered at most once, however many responses arrive: between two responses the host has
      issued another challenge, and the later response is the answer to that one. */
  lemma OneResponsePerChallenge(w: World, steps: seq<Step>, r1: nat, r2: nat) returns (c: nat)
    requires var h := Run(w, steps).mgr.trace; r1 < r2 < |h| && h[r1].Responded? && h[r2].Responded?
    ensures var h := Run(w, steps).mgr.trace; r1 < c < r2 && P.Answers(h, c, r2)
  {
    EveryRunKeepsInv(w, steps);
    c := P.NewChallengeForEachResponse(Run(w, steps).mgr.trace, r1, r2);
  }

  // ---- the unattended latch ----------------------------------------------------------------

  function RunFrom(w: World, a: Agent, steps: seq<Step>): Agent {
    if steps == [] then a else Apply(w, RunFrom(w, a, steps[..|steps| - 1]), steps[|steps| - 1])
  }

  lemma ControlKeepsLatch(c: Control, m: ControlMessage)
    requires c.unattendedDisabled
    ensures HandleControl(c, m).0.unattendedDisabled
  {
  }

  lemma DriveKeepsLatch(c: Control, mgr: Manager, m: ControlMessage, reply: ControlMessage, env: AgentEnv)
    ensures Drive(c, mgr, m, reply, env).0.ctl.unattendedDisabled == c.unattendedDisabled
  {
  }

  lemma StepKeepsLatch(w: World, a: Agent, st: Step)
    requires a.ctl.unattendedDisabled && !st.ReenableUnattended?
    ensures Apply(w, a, st).ctl.unattendedDisabled
  {
    if st.Command? {
      var (c, reply) := HandleControl(a.ctl, st.msg);
      ControlKeepsLatch(a.ctl, st.msg);
      DriveKeepsLatch(c, a.mgr, st.msg, reply, st.env);
    }
  }

  /** No message, detach or re-attach clears the latch: only the host itself does, and until it does no
      policy turns unattended access on. */
  lemma {:induction false} LatchHoldsUntilReenabledLocally(w: World, a: Agent, steps: seq<Step>)
    requires Inv(a) && a.ctl.unattendedDisabled
    requires forall i :: 0 <= i < |steps| ==> !steps[i].ReenableUnattended?
    ensures Inv(RunFrom(w, a, steps)) && RunFrom(w, a, steps).ctl.unattendedDisabled
    ensures !RunFrom(w, a, steps).ctl.unattended
  {
    if steps != [] {
      var n := |steps| - 1;
      var b := RunFrom(w, a, steps[..n]);
      LatchHoldsUntilReenabledLocally(w, a, steps[..n]);
      StepKeepsInv(w, b, steps[n]);
      StepKeepsLatch(w, b, steps[n]);
      assert RunFrom(w, a, steps) == Apply(w, b, steps[n]);
    }
  }
}
