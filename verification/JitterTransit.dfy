/** The jitter estimate as a function of the packets pushed: which packets are measured, against which, and by how
    much the estimate moves. */
module JitterTransit {
  import opened Common
  import opened JitterModel
  import opened JitterProofs

  /** The packet continues the stream: by the next number modulo 2^16, or without a number by a later PTS. */
  predicate Continues<T>(pushed: seq<Packet<T>>, rtp: Option<nat>, pts: Duration) {
    match rtp
    case Some(number) => LastNumber(pushed).None? || number == (LastNumber(pushed).value + 1) % 0x1_0000
    case None => Reference(pushed).None? || pts > Reference(pushed).value.pts
  }

  /** Whole microseconds from one time to a later one. */
  function Forward(from: Duration, to: Duration): nat {
    if to <= from then 0 else (to - from) / 1000
  }

  /** By how much the packet was faster or slower on its way than its reference: the distance between the receive
      times against the distance between the PTS. */
  function Variation<T>(ref: Packet<T>, pts: Duration, recv: Duration): nat {
    Abs(Forward(ref.recv, recv) - Forward(ref.pts, pts))
  }

  /** A sixteenth of what the variation has over the estimate, if anything. */
  function Raised(estimate: nat, variation: nat): nat {
    if variation <= estimate then estimate else estimate + (variation - estimate) / 16
  }

  /** The estimate after these packets. */
  function EstimateOf<T>(pushed: seq<Packet<T>>): nat {
    if pushed == [] then 0
    else
      var front, p := pushed[..|pushed| - 1], pushed[|pushed| - 1];
      if Reference(front).Some? && Continues(front, p.rtp, p.pts)
      then Raised(EstimateOf(front), Variation(Reference(front).value, p.pts, p.recv))
      else EstimateOf(front)
  }

  /** Times below 2^62 microseconds, about 146000 years. */
  predicate Sane<T>(p: Packet<T>) {
    Micros(p.pts) < 0x4000_0000_0000_0000 && Micros(p.recv) < 0x4000_0000_0000_0000
  }

  // ---- the arithmetic ----------------------------------------------------------------------

  lemma ForwardIsMicros(from: Duration, to: Duration)
    ensures Micros(SatSub(to, from)) == Forward(from, to) <= Micros(to)
  {
  }

  lemma TransitIsVariation<T>(ref: Packet<T>, pts: Duration, recv: Duration)
    requires Micros(pts) < 0x4000_0000_0000_0000 && Micros(recv) < 0x4000_0000_0000_0000
    ensures Abs(Transit(ref.recv, ref.pts, pts, recv)) == Variation(ref, pts, recv)
  {
    ForwardIsMicros(ref.recv, recv);
    ForwardIsMicros(ref.pts, pts);
  }

  // ---- every run ---------------------------------------------------------------------------

  /** On every run the estimate is the one these definitions give, from the times and numbers of the packets alone:
      what was released or dropped, and when, plays no part. */
  lemma {:induction false} EstimateIsOfThePackets<T>(cfg: Config, steps: seq<Step<T>>)
    requires forall p :: p in Run(Init<T>(cfg), steps).pushed ==> Sane(p)
    ensures Run(Init<T>(cfg), steps).clock.jitterUs == EstimateOf(Run(Init<T>(cfg), steps).pushed)
  {
    if steps != [] {
      var n := |steps| - 1;
      var b := Run(Init<T>(cfg), steps[..n]);
      PushedOnlyGrows(b, steps[n]);
      EstimateIsOfThePackets(cfg, steps[..n]);
      ClockRemembersThePushes(cfg, steps[..n]);
      EstimateStep(b, steps[n]);
    }
  }

  lemma EstimateStep<T>(b: Buffer<T>, s: Step<T>)
    requires Remembers(b) && b.clock.jitterUs == EstimateOf(b.pushed)
    requires forall p :: p in Apply(b, s).pushed ==> Sane(p)
    ensures Apply(b, s).clock.jitterUs == EstimateOf(Apply(b, s).pushed)
  {
    if s.PushStep? {
      var pushed := Apply(b, s).pushed;
      assert pushed[..|b.pushed|] == b.pushed && Sane(pushed[|b.pushed|]);
      PushEstimates(b, s);
    }
  }

  lemma PushedOnlyGrows<T>(b: Buffer<T>, s: Step<T>)
    ensures forall p :: p in b.pushed ==> p in Apply(b, s).pushed
    ensures !s.PushStep? ==> Apply(b, s).pushed == b.pushed && Apply(b, s).clock == b.clock
  {
  }

  /** The clock agrees with the packets pushed. */
  ghost predicate Remembers<T>(b: Buffer<T>) {
    var ref := Reference(b.pushed);
    && b.clock.lastSeq == LastNumber(b.pushed)
    && b.clock.lastPts == (if ref.Some? then Some(ref.value.pts) else None)
    && b.clock.lastRecv == (if ref.Some? then Some(ref.value.recv) else None)
  }

  lemma PushEstimates<T>(b: Buffer<T>, s: Step<T>)
    requires Remembers(b) && s.PushStep?
    requires Micros(s.pts) < 0x4000_0000_0000_0000 && Micros(s.recv) < 0x4000_0000_0000_0000
    ensures var j := b.clock.jitterUs;
      Apply(b, s).clock.jitterUs ==
        if Reference(b.pushed).Some? && Continues(b.pushed, s.rtp, s.pts)
        then Raised(j, Variation(Reference(b.pushed).value, s.pts, s.recv)) else j
    ensures !(Reference(b.pushed).Some? && Continues(b.pushed, s.rtp, s.pts)) ==>
      Apply(b, s).clock.target == b.clock.target
  {
    if Reference(b.pushed).Some? {
      TransitIsVariation(Reference(b.pushed).value, s.pts, s.recv);
    }
  }

  /** Both halves of which packets adapt: on every run a push raises the estimate exactly if it is not the first,
      continues the stream and varies by at least 16 microseconds more than the estimate. */
  lemma PushRaisesExactlyWhen<T>(cfg: Config, steps: seq<Step<T>>, rtp: Option<nat>, pts: Duration, recv: Duration,
                                 payload: T)
    requires Micros(pts) < 0x4000_0000_0000_0000 && Micros(recv) < 0x4000_0000_0000_0000
    ensures var b := Run(Init<T>(cfg), steps);
      Push(b, rtp, pts, recv, payload).clock.jitterUs > b.clock.jitterUs <==>
        && b.pushed != [] && Continues(b.pushed, rtp, pts)
        && Variation(Reference(b.pushed).value, pts, recv) >= b.clock.jitterUs + 16
  {
    var b := Run(Init<T>(cfg), steps);
    ClockRemembersThePushes(cfg, steps);
    ReferenceExists(b.pushed);
    PushEstimates(b, PushStep(rtp, pts, recv, payload));
  }

  lemma {:induction false} ReferenceExists<T>(pushed: seq<Packet<T>>)
    ensures Reference(pushed).Some? <==> pushed != []
    ensures Reference(pushed).Some? ==> Reference(pushed).value in pushed
  {
    if pushed != [] { ReferenceExists(pushed[..|pushed| - 1]); }
  }

  // ---- what follows ------------------------------------------------------------------------

  /** All packets took the same time, whatever that is and however the two clocks differ. */
  ghost predicate Paced<T>(pushed: seq<Packet<T>>, offset: int) {
    forall p :: p in pushed ==> p.recv - p.pts == offset
  }

  lemma {:induction false} PacedEstimate<T>(pushed: seq<Packet<T>>, offset: int)
    requires Paced(pushed, offset)
    ensures EstimateOf(pushed) == 0
  {
    if pushed != [] {
      var front := pushed[..|pushed| - 1];
      PacedEstimate(front, offset);
      ReferenceExists(front);
      assert pushed[|pushed| - 1] in pushed;
      if Reference(front).Some? {
        assert Reference(front).value in pushed;
      }
    }
  }

  /** A perfectly paced stream, in whatever order and with whatever gaps, leaves the estimate at zero. */
  lemma PacedStreamHasNoJitter<T>(cfg: Config, steps: seq<Step<T>>, offset: int)
    requires forall p :: p in Run(Init<T>(cfg), steps).pushed ==> Sane(p)
    requires Paced(Run(Init<T>(cfg), steps).pushed, offset)
    ensures Run(Init<T>(cfg), steps).clock.jitterUs == 0
  {
    EstimateIsOfThePackets(cfg, steps);
    PacedEstimate(Run(Init<T>(cfg), steps).pushed, offset);
  }

  /** The variation of packet i of those pushed, if it is measured. */
  function VariationAt<T>(pushed: seq<Packet<T>>, i: nat): nat
    requires i < |pushed|
  {
    if Reference(pushed[..i]).Some? && Continues(pushed[..i], pushed[i].rtp, pushed[i].pts)
    then Variation(Reference(pushed[..i]).value, pushed[i].pts, pushed[i].recv) else 0
  }

  lemma {:induction false} EstimateBounded<T>(pushed: seq<Packet<T>>, bound: nat)
    requires forall i :: 0 <= i < |pushed| ==> VariationAt(pushed, i) <= bound
    ensures EstimateOf(pushed) <= bound
  {
    if pushed != [] {
      var n := |pushed| - 1;
      forall i | 0 <= i < n ensures VariationAt(pushed[..n], i) <= bound {
        assert pushed[..n][..i] == pushed[..i] && VariationAt(pushed, i) <= bound;
      }
      EstimateBounded(pushed[..n], bound);
      assert VariationAt(pushed, n) <= bound;
    }
  }

  /** The estimate never exceeds the largest variation measured ... */
  lemma JitterBoundedByLargestVariation<T>(cfg: Config, steps: seq<Step<T>>, bound: nat)
    requires forall p :: p in Run(Init<T>(cfg), steps).pushed ==> Sane(p)
    requires var pushed := Run(Init<T>(cfg), steps).pushed;
      forall i :: 0 <= i < |pushed| ==> VariationAt(pushed, i) <= bound
    ensures Run(Init<T>(cfg), steps).clock.jitterUs <= bound
  {
    EstimateIsOfThePackets(cfg, steps);
    EstimateBounded(Run(Init<T>(cfg), steps).pushed, bound);
  }

  /** ... and never falls. */
  lemma JitterNeverFalls<T>(cfg: Config, steps: seq<Step<T>>, s: Step<T>)
    ensures Run(Init<T>(cfg), steps).clock.jitterUs <= Apply(Run(Init<T>(cfg), steps), s).clock.jitterUs
  {
  }

  // ---- the target --------------------------------------------------------------------------

  function EighthOn(from: nat, to: nat): nat {
    if from <= to then from + (to - from) / 8 else from - (from - to) / 8
  }

  predicate Small(us: nat) {
    us < 0x4000_0000_0000_0000
  }

  /** From target to target: an eighth of the way to twice the estimate, in whole microseconds, and into the bounds. */
  predicate MovesAnEighth(cfg: Config, target: Duration, estimate: u64, next: Duration) {
    Small(Micros(target)) && Small(2 * estimate) ==>
      var us := 1000 * EighthOn(Micros(target), 2 * estimate);
      next == if us < cfg.minTarget then cfg.minTarget else if us > cfg.maxTarget then cfg.maxTarget else us
  }

  lemma NextTargetMoves(cfg: Config, target: Duration, j: u64)
    ensures MovesAnEighth(cfg, target, j, NextTarget(cfg, target, j))
  {
    if Small(2 * j) {
      assert Micros(FromMicros(DesiredUs(j))) == 2 * j;
    }
  }

  lemma PushTargets<T>(b: Buffer<T>, s: Step<T>)
    requires Remembers(b) && s.PushStep?
    ensures Apply(b, s).clock.target ==
      if b.pushed != [] && Continues(b.pushed, s.rtp, s.pts) then
        NextTarget(b.cfg, b.clock.target, Apply(b, s).clock.jitterUs)
      else b.clock.target
  {
    ReferenceExists(b.pushed);
  }

  /** A packet that is not the first and continues the stream moves the target so; no other packet moves it. */
  lemma TargetMovesAnEighth<T>(cfg: Config, steps: seq<Step<T>>, s: Step<T>)
    requires s.PushStep?
    ensures var b := Run(Init<T>(cfg), steps); var c := Apply(b, s).clock;
      if b.pushed != [] && Continues(b.pushed, s.rtp, s.pts) then
        MovesAnEighth(cfg, b.clock.target, c.jitterUs, c.target)
      else c.target == b.clock.target
  {
    var b := Run(Init<T>(cfg), steps);
    ClockRemembersThePushes(cfg, steps);
    ConfigIsKept(Init<T>(cfg), steps);
    PushTargets(b, s);
    NextTargetMoves(cfg, b.clock.target, Apply(b, s).clock.jitterUs);
  }
}
