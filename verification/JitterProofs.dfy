/** Order, conservation and adaptation of the jitter buffer over every run. */
module JitterProofs {
  import opened Common
  import opened JitterModel

  // ---- order and conservation --------------------------------------------------------------

  /** Earlier PTS first, and among equal PTS first come, first served. */
  predicate Before<T>(p: Packet<T>, q: Packet<T>) {
    p.pts < q.pts || (p.pts == q.pts && p.arrival < q.arrival)
  }

  ghost predicate Ordered<T>(q: seq<Packet<T>>) {
    forall i, j :: 0 <= i < j < |q| ==> Before(q[i], q[j])
  }

  ghost predicate Inv<T>(b: Buffer<T>) {
    && Ordered(b.queue)
    && (forall i :: 0 <= i < |b.queue| ==> b.queue[i].arrival < |b.pushed|)
    && multiset(b.pushed) == multiset(b.queue) + multiset(b.released) + multiset(b.dropped)
    && (b.cfg.minTarget <= b.cfg.maxTarget ==> b.cfg.minTarget <= b.clock.target <= b.cfg.maxTarget)
  }

  lemma InsertKeepsOrder<T>(q: seq<Packet<T>>, p: Packet<T>)
    requires Ordered(q) && forall i :: 0 <= i < |q| ==> q[i].arrival < p.arrival
    ensures Ordered(Insert(q, p))
  {
    var pos := InsertAt(q, p.pts);
    assert forall i :: pos < i < |q| ==> Before(q[pos], q[i]);
  }

  lemma InsertAddsOne<T>(q: seq<Packet<T>>, p: Packet<T>)
    requires forall i :: 0 <= i < |q| ==> q[i].arrival < p.arrival
    ensures multiset(Insert(q, p)) == multiset(q) + multiset{p}
    ensures forall i :: 0 <= i < |Insert(q, p)| ==> Insert(q, p)[i].arrival <= p.arrival
  {
    SplitFront(q, InsertAt(q, p.pts));
  }

  lemma SplitFront<T>(q: seq<Packet<T>>, n: nat)
    requires n <= |q|
    ensures multiset(q) == multiset(q[..n]) + multiset(q[n..])
  {
    assert q == q[..n] + q[n..];
  }

  lemma StepKeepsInv<T>(b: Buffer<T>, s: Step<T>)
    requires Inv(b)
    ensures Inv(Apply(b, s))
  {
    match s
    case PushStep(rtp, pts, recv, payload) => PushKeepsInv(b, rtp, pts, recv, payload);
    case PopReadyStep(now) => PopKeepsInv(b);
    case PopFrontStep => PopKeepsInv(b);
    case DropLateStep(now, threshold) => DropKeepsInv(b, LatePrefix(b, b.queue, now, threshold));
  }

  lemma PushKeepsInv<T>(b: Buffer<T>, rtp: Option<nat>, pts: Duration, recv: Duration, payload: T)
    requires Inv(b)
    ensures Inv(Push(b, rtp, pts, recv, payload))
  {
    InsertKeepsOrder(b.queue, Packet(rtp, pts, recv, payload, |b.pushed|));
    InsertAddsOne(b.queue, Packet(rtp, pts, recv, payload, |b.pushed|));
    AdaptKeepsBounds(b.cfg, b.clock, rtp, pts, recv);
  }

  lemma AdaptKeepsBounds(cfg: Config, c: Clock, rtp: Option<nat>, pts: Duration, recv: Duration)
    requires cfg.minTarget <= cfg.maxTarget ==> cfg.minTarget <= c.target <= cfg.maxTarget
    ensures cfg.minTarget <= cfg.maxTarget ==> cfg.minTarget <= Adapt(cfg, c, rtp, pts, recv).target <= cfg.maxTarget
  {
  }

  lemma DropKeepsInv<T>(b: Buffer<T>, n: nat)
    requires Inv(b) && n <= |b.queue|
    ensures Inv(DropFront(b, n))
  {
    SplitFront(b.queue, n);
  }

  lemma PopKeepsInv<T>(b: Buffer<T>)
    requires Inv(b)
    ensures Inv(PopFront(b))
  {
    if b.queue != [] {
      SplitFront(b.queue, 1);
      assert b.queue[..1] == [b.queue[0]];
    }
  }

  lemma {:induction false} EveryRunKeepsInv<T>(cfg: Config, steps: seq<Step<T>>)
    ensures Inv(Run(Init<T>(cfg), steps))
    ensures Run(Init<T>(cfg), steps).cfg == cfg
  {
    if steps != [] {
      EveryRunKeepsInv(cfg, steps[..|steps| - 1]);
      StepKeepsInv(Run(Init<T>(cfg), steps[..|steps| - 1]), steps[|steps| - 1]);
    }
  }

  /** Nothing is lost or invented, and the counters add up. */
  lemma Conservation<T>(cfg: Config, steps: seq<Step<T>>)
    ensures var b := Run(Init<T>(cfg), steps);
      && multiset(b.pushed) == multiset(b.queue) + multiset(b.released) + multiset(b.dropped)
      && |b.pushed| == |b.queue| + |b.released| + |b.dropped|
  {
    EveryRunKeepsInv(cfg, steps);
    var b := Run(Init<T>(cfg), steps);
    assert |multiset(b.pushed)| == |multiset(b.queue) + multiset(b.released) + multiset(b.dropped)|;
  }

  /** A timed pop releases the front exactly if that was held at least `target`, and no queued packet comes before
      what it releases. */
  lemma PopReadyReleasesTheLeast<T>(cfg: Config, steps: seq<Step<T>>, now: Duration)
    ensures var b := Run(Init<T>(cfg), steps); var r := PopReady(b, now);
      && (r != b <==> b.queue != [] && (now >= b.queue[0].recv + b.clock.target || b.clock.target == 0))
      && (r != b ==>
            && r.released == b.released + [b.queue[0]] && r.queue == b.queue[1..] && r.dropped == b.dropped
            && forall x :: x in r.queue ==> Before(b.queue[0], x))
  {
    EveryRunKeepsInv(cfg, steps);
    var b := Run(Init<T>(cfg), steps);
    if b.queue != [] {
      assert |b.queue[1..]| != |b.queue|;
    }
  }

  /** A pop without a time releases the front whatever the clock says. */
  lemma PopFrontReleasesTheLeast<T>(cfg: Config, steps: seq<Step<T>>)
    ensures var b := Run(Init<T>(cfg), steps); var r := PopFront(b);
      if b.queue == [] then r == b
      else && r.released == b.released + [b.queue[0]] && r.queue == b.queue[1..] && r.dropped == b.dropped
           && forall x :: x in r.queue ==> Before(b.queue[0], x)
  {
    EveryRunKeepsInv(cfg, steps);
  }

  /** The packet has waited longer than target and threshold together. */
  predicate TooLate<T>(b: Buffer<T>, p: Packet<T>, now: Duration, threshold: Duration) {
    now > p.recv + b.clock.target + threshold
  }

  /** Dropping late packets removes the longest prefix of late ones and nothing else. */
  lemma DropLateRemovesLongestPrefix<T>(b: Buffer<T>, now: Duration, threshold: Duration)
    ensures var r := DropLate(b, now, threshold); var n := |b.queue| - |r.queue|;
      && 0 <= n && r.queue == b.queue[n..] && r.dropped == b.dropped + b.queue[..n] && r.released == b.released
      && (forall i :: 0 <= i < n ==> TooLate(b, b.queue[i], now, threshold))
      && (r.queue != [] ==> !TooLate(b, r.queue[0], now, threshold))
  {
    forall i | 0 <= i < |b.queue|
      ensures Late(b, b.queue[i], now, threshold) <==> TooLate(b, b.queue[i], now, threshold)
    {
    }
  }

  // ---- adaptation --------------------------------------------------------------------------

  /** The target stays inside its bounds whatever packets arrive. */
  lemma TargetStaysInBounds<T>(cfg: Config, steps: seq<Step<T>>)
    requires cfg.minTarget <= cfg.maxTarget
    ensures cfg.minTarget <= Run(Init<T>(cfg), steps).clock.target <= cfg.maxTarget
  {
    EveryRunKeepsInv(cfg, steps);
  }

  /** Section 6.4.1 of RFC 3550 moves the estimate J by (|D| - J) / 16.  The program does the same, in whole
      microseconds, when |D| is at least J; when |D| is smaller the subtraction saturates and J stays. */
  lemma JitterFollowsTheRfcUpward(j: u64, transit: int)
    requires Abs(transit) <= U64_MAX
    ensures Abs(transit) >= j ==>
      16 * (NextJitter(j, transit) - j) <= Abs(transit) - j < 16 * (NextJitter(j, transit) - j) + 16
    ensures Abs(transit) < j ==> NextJitter(j, transit) == j
    ensures j <= NextJitter(j, transit) && (NextJitter(j, transit) <= j || NextJitter(j, transit) <= Abs(transit))
  {
  }

  /** The next target in microseconds lies between the old one and the desired one and covers an eighth
      of the gap, as long as neither reaches 2^62 microseconds. */
  lemma TargetStepHasNoOvershoot(target: Duration, j: u64)
    requires Micros(target) < 0x4000_0000_0000_0000 && DesiredUs(j) < 0x4000_0000_0000_0000
    ensures var t := Micros(target); var d := DesiredUs(j); var n := NextTargetUs(target, j);
      && (t <= d ==> t <= n <= d && 8 * (n - t) <= d - t < 8 * (n - t) + 8)
      && (d <= t ==> d <= n <= t && 8 * (t - n) <= t - d < 8 * (t - n) + 8)
  {
    assert Micros(FromMicros(DesiredUs(j))) == DesiredUs(j);
  }

  predicate WholeMicros(d: Duration) {
    d % 1000 == 0
  }

  predicate Between(x: int, lo: int, hi: int) {
    lo <= x <= hi || hi <= x <= lo
  }

  /** The target after one adaptation, and the value it should move to. */
  function NextTarget(cfg: Config, target: Duration, j: u64): Duration {
    ClampDuration(FromMicros(NextTargetUs(target, j)), cfg.minTarget, cfg.maxTarget)
  }

  function WantedTarget(cfg: Config, j: u64): Duration {
    ClampDuration(FromMicros(DesiredUs(j)), cfg.minTarget, cfg.maxTarget)
  }

  /** Exactly when an adaptation moves the target toward the clamped desired value and not past it.  The old target
      is cut to whole microseconds on the way, which matters only if it has a fraction, is not at its lower bound,
      and the desired value lies less than eight microseconds above, so that the step itself is zero. */
  lemma AdaptationMovesTowardDesired(cfg: Config, target: Duration, j: u64)
    requires cfg.minTarget <= target <= cfg.maxTarget
    requires Micros(target) < 0x4000_0000_0000_0000 && DesiredUs(j) < 0x4000_0000_0000_0000
    ensures Between(NextTarget(cfg, target, j), target, WantedTarget(cfg, j)) <==>
      || WholeMicros(target) || target == cfg.minTarget
      || DesiredUs(j) <= Micros(target) || DesiredUs(j) >= Micros(target) + 8
  {
    var t, d, n := Micros(target), DesiredUs(j), NextTargetUs(target, j);
    TargetStepHasNoOvershoot(target, j);
    ClampIsMonotone(FromMicros(n), FromMicros(d), cfg.minTarget, cfg.maxTarget);
    ClampIsMonotone(target, FromMicros(n), cfg.minTarget, cfg.maxTarget);
    if t < d < t + 8 {
      assert n == t;
    } else if d >= t + 8 {
      assert n >= t + 1;
    }
  }

  lemma ClampIsMonotone(x: Duration, y: Duration, min: Duration, max: Duration)
    requires min <= max
    ensures x <= y ==> ClampDuration(x, min, max) <= ClampDuration(y, min, max)
    ensures y <= x ==> ClampDuration(y, min, max) <= ClampDuration(x, min, max)
  {
  }

  predicate WholeConfig(cfg: Config) {
    WholeMicros(cfg.minTarget) && WholeMicros(cfg.maxTarget) && WholeMicros(cfg.initialTarget)
  }

  /** A step leaves the target alone or makes one adaptation with the estimate it arrives at. */
  lemma StepTarget<T>(b: Buffer<T>, s: Step<T>)
    ensures var c, c1 := b.clock, Apply(b, s).clock;
      c1.target == c.target || c1.target == NextTarget(b.cfg, c.target, c1.jitterUs)
  {
  }

  lemma NextTargetIsWhole(cfg: Config, target: Duration, j: u64)
    requires WholeMicros(cfg.minTarget) && WholeMicros(cfg.maxTarget)
    ensures WholeMicros(NextTarget(cfg, target, j))
  {
    assert NextTargetUs(target, j) * 1000 % 1000 == 0;
  }

  lemma {:induction false} WholeConfigStaysWhole<T>(cfg: Config, steps: seq<Step<T>>)
    requires WholeConfig(cfg)
    ensures WholeMicros(Run(Init<T>(cfg), steps).clock.target)
  {
    if steps != [] {
      var n := |steps| - 1;
      var b := Run(Init<T>(cfg), steps[..n]);
      WholeConfigStaysWhole(cfg, steps[..n]);
      ConfigIsKept(Init<T>(cfg), steps[..n]);
      StepTarget(b, steps[n]);
      NextTargetIsWhole(cfg, b.clock.target, Apply(b, steps[n]).clock.jitterUs);
    }
  }

  /** With a configuration in whole microseconds every step of every run moves the target, if at all, toward the
      clamped desired value and not past it. */
  lemma WholeConfigNeverDrifts<T>(cfg: Config, steps: seq<Step<T>>, s: Step<T>)
    requires WholeConfig(cfg) && cfg.minTarget <= cfg.maxTarget && Micros(cfg.maxTarget) < 0x4000_0000_0000_0000
    requires DesiredUs(Apply(Run(Init<T>(cfg), steps), s).clock.jitterUs) < 0x4000_0000_0000_0000
    ensures var c, c1 := Run(Init<T>(cfg), steps).clock, Apply(Run(Init<T>(cfg), steps), s).clock;
      c1.target == c.target || Between(c1.target, c.target, WantedTarget(cfg, c1.jitterUs))
  {
    var b := Run(Init<T>(cfg), steps);
    TargetStaysInBounds(cfg, steps);
    WholeConfigStaysWhole(cfg, steps);
    ConfigIsKept(Init<T>(cfg), steps);
    StepTarget(b, s);
    AdaptationMovesTowardDesired(cfg, b.clock.target, Apply(b, s).clock.jitterUs);
  }

  lemma {:induction false} ConfigIsKept<T>(b: Buffer<T>, steps: seq<Step<T>>)
    ensures Run(b, steps).cfg == b.cfg
  {
    if steps != [] { ConfigIsKept(b, steps[..|steps| - 1]); }
  }

  /** With a fraction it can go wrong: two packets take the target from 30.0000005 s down to 30 s, although
      30.000002 s is desired. */
  lemma SubMicrosecondTargetDrifts<T>(payload: T)
    ensures var cfg := Config(0, 60_000_000_000, 30_000_000_500);
      var first, second := PushStep(None, 0, 0, payload), PushStep(None, 1, 240_000_016_000, payload);
      var before, after := Run(Init<T>(cfg), [first]), Run(Init<T>(cfg), [first, second]);
      && before.clock.target == 30_000_000_500
      && after.clock.target == 30_000_000_000
      && WantedTarget(cfg, after.clock.jitterUs) == 30_000_002_000
  {
    var cfg := Config(0, 60_000_000_000, 30_000_000_500);
    var first, second := PushStep(None, 0, 0, payload), PushStep(None, 1, 240_000_016_000, payload);
    assert [first, second][..1] == [first] && [first][..0] == [];
    assert Run(Init<T>(cfg), []) == Init<T>(cfg);
    var before := Run(Init<T>(cfg), [first]);
    assert before.clock == Clock(30_000_000_500, Some(0), Some(0), None, 0);
    assert Run(Init<T>(cfg), [first, second]) == Apply(before, second);
    DriftStep(cfg, before.clock);
  }

  lemma DriftStep(cfg: Config, c: Clock)
    requires cfg == Config(0, 60_000_000_000, 30_000_000_500) && c == Clock(30_000_000_500, Some(0), Some(0), None, 0)
    ensures var c1 := Adapt(cfg, c, None, 1, 240_000_016_000); c1.target == 30_000_000_000 && c1.jitterUs == 15_000_001
  {
    assert Transit(0, 0, 1, 240_000_016_000) == 240_000_016;
    assert NextJitter(0, 240_000_016) == 15_000_001;
    assert NextTargetUs(30_000_000_500, 15_000_001) == 30_000_000;
  }

  // ---- which packets count -----------------------------------------------------------------

  /** The number of the last numbered packet pushed. */
  function LastNumber<T>(pushed: seq<Packet<T>>): Option<nat> {
    if pushed == [] then None
    else if pushed[|pushed| - 1].rtp.Some? then pushed[|pushed| - 1].rtp
    else LastNumber(pushed[..|pushed| - 1])
  }

  /** The packet the next one is measured against: the last that was numbered or had a later PTS than the one
      before it was measured against. */
  function Reference<T>(pushed: seq<Packet<T>>): Option<Packet<T>> {
    if pushed == [] then None
    else
      var p, prior := pushed[|pushed| - 1], Reference(pushed[..|pushed| - 1]);
      if p.rtp.Some? || prior.None? || p.pts > prior.value.pts then Some(p) else prior
  }

  /** The clock remembers exactly that. */
  lemma {:induction false} ClockRemembersThePushes<T>(cfg: Config, steps: seq<Step<T>>)
    ensures var b := Run(Init<T>(cfg), steps); var ref := Reference(b.pushed);
      && b.clock.lastSeq == LastNumber(b.pushed)
      && b.clock.lastPts == (if ref.Some? then Some(ref.value.pts) else None)
      && b.clock.lastRecv == (if ref.Some? then Some(ref.value.recv) else None)
  {
    if steps != [] {
      var n := |steps| - 1;
      var b := Run(Init<T>(cfg), steps[..n]);
      ClockRemembersThePushes(cfg, steps[..n]);
      if steps[n].PushStep? {
        var r := Apply(b, steps[n]);
        assert r.pushed[..|r.pushed| - 1] == b.pushed;
      }
    }
  }

  /** Where no packet is numbered the reference has the greatest PTS so far. */
  lemma {:induction false} ReferenceIsTheLatest<T>(pushed: seq<Packet<T>>, k: nat)
    requires forall i :: 0 <= i < |pushed| ==> pushed[i].rtp.None?
    requires k < |pushed|
    ensures Reference(pushed).Some? && pushed[k].pts <= Reference(pushed).value.pts
  {
    var n := |pushed| - 1;
    if k < n {
      ReferenceIsTheLatest(pushed[..n], k);
    }
  }

  /** On every run, a push changes the estimate or the target only if it is not the first and continues what came
      before: a numbered packet follows the last numbered one, if there is one, by one modulo 2^16; an unnumbered
      packet has a later PTS than the reference, which without any numbers means later than every packet so far. */
  lemma OnlyCountedPacketsAdapt<T>(cfg: Config, steps: seq<Step<T>>, rtp: Option<nat>, pts: Duration,
                                   recv: Duration, payload: T)
    requires var b := Run(Init<T>(cfg), steps); var b1 := Push(b, rtp, pts, recv, payload);
      b1.clock.jitterUs != b.clock.jitterUs || b1.clock.target != b.clock.target
    ensures var pushed := Run(Init<T>(cfg), steps).pushed;
      && pushed != []
      && (rtp.Some? && LastNumber(pushed).Some? ==> rtp.value == (LastNumber(pushed).value + 1) % 0x1_0000)
      && (rtp.None? ==> Reference(pushed).Some? && pts > Reference(pushed).value.pts)
      && (rtp.None? && LastNumber(pushed).None? ==> forall k :: 0 <= k < |pushed| ==> pts > pushed[k].pts)
  {
    var pushed := Run(Init<T>(cfg), steps).pushed;
    ClockRemembersThePushes(cfg, steps);
    if rtp.None? && LastNumber(pushed).None? {
      Unnumbered(pushed);
      forall k | 0 <= k < |pushed| ensures pts > pushed[k].pts {
        ReferenceIsTheLatest(pushed, k);
      }
    }
  }

  lemma {:induction false} Unnumbered<T>(pushed: seq<Packet<T>>)
    requires LastNumber(pushed).None?
    ensures forall i :: 0 <= i < |pushed| ==> pushed[i].rtp.None?
  {
    if pushed != [] {
      var n := |pushed| - 1;
      Unnumbered(pushed[..n]);
      forall i | 0 <= i < n ensures pushed[i].rtp.None? {
        assert pushed[..n][i] == pushed[i];
      }
    }
  }
}
