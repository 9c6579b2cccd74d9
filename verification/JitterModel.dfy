/** The adaptive jitter buffer (packages/media/src/jitter.rs).  Durations are nanoseconds, capped like
    the standard Duration; casts to i64 and i64 arithmetic wrap around, as in a release build. */
module JitterModel {
  import opened Common

  const DURATION_MAX: nat := U64_MAX * 1_000_000_000 + 999_999_999

  type Duration = n: nat | n <= DURATION_MAX

  const I64_MAX: int := 0x7FFF_FFFF_FFFF_FFFF
  const TWO_64: int := 0x1_0000_0000_0000_0000

  datatype Config = Config(minTarget: Duration, maxTarget: Duration, initialTarget: Duration)

  /** `arrival` counts pushes; the program has no such field, it only names packets here. */
  datatype Packet<+T> = Packet(rtp: Option<nat>, pts: Duration, recv: Duration, payload: T, arrival: nat)

  /** What adaptation remembers: the target, the last adapted packet and the jitter estimate. */
  datatype Clock = Clock(
    target: Duration,
    lastRecv: Option<Duration>,
    lastPts: Option<Duration>,
    lastSeq: Option<nat>,
    jitterUs: u64)

  /** The last three fields are the history of the buffer; the program keeps only their lengths. */
  datatype Buffer<+T> = Buffer(
    cfg: Config,
    clock: Clock,
    queue: seq<Packet<T>>,
    pushed: seq<Packet<T>>,
    released: seq<Packet<T>>,
    dropped: seq<Packet<T>>)

  // ---- arithmetic --------------------------------------------------------------------------

  function SatSub(a: Duration, b: Duration): Duration {
    if a < b then 0 else a - b
  }

  function SatAdd(a: Duration, b: Duration): Duration {
    if a + b > DURATION_MAX then DURATION_MAX else a + b
  }

  function Micros(d: Duration): nat {
    d / 1000
  }

  function FromMicros(us: u64): Duration {
    us * 1000
  }

  /** The i64 with the same low 64 bits. */
  function WrapI64(n: int): (w: int)
    ensures -I64_MAX - 1 <= w <= I64_MAX
    ensures -I64_MAX - 1 <= n <= I64_MAX ==> w == n
  {
    var low := n % TWO_64;
    if low > I64_MAX then low - TWO_64 else low
  }

  /** Signed division rounds toward zero. */
  function TruncDiv8(n: int): int {
    if n >= 0 then n / 8 else -((-n) / 8)
  }

  function Abs(n: int): nat {
    if n < 0 then -n else n
  }

  function ClampDuration(v: Duration, min: Duration, max: Duration): Duration {
    if v < min then min else if v > max then max else v
  }

  // ---- adaptation --------------------------------------------------------------------------

  /** Change of transit time between two packets, in microseconds. */
  function Transit(lastRecv: Duration, lastPts: Duration, pts: Duration, recv: Duration): int {
    WrapI64(WrapI64(Micros(SatSub(recv, lastRecv))) - WrapI64(Micros(SatSub(pts, lastPts))))
  }

  function NextJitter(j: u64, transit: int): u64
    requires Abs(transit) <= U64_MAX
  {
    if Abs(transit) <= j then j else j + (Abs(transit) - j) / 16
  }

  function DesiredUs(j: u64): u64 {
    if 2 * j > U64_MAX then U64_MAX else 2 * j
  }

  /** An eighth of the way from the old target toward the desired one. */
  function NextTargetUs(target: Duration, j: u64): (us: u64)
    ensures us as int <= I64_MAX
  {
    var t := WrapI64(Micros(target));
    var d := WrapI64(Micros(FromMicros(DesiredUs(j))));
    var next := WrapI64(t + TruncDiv8(WrapI64(d - t)));
    if next < 0 then 0 else next
  }

  function ApplyTransit(cfg: Config, c: Clock, pts: Duration, recv: Duration): Clock {
    if c.lastRecv.None? || c.lastPts.None? then c
    else
      var j := NextJitter(c.jitterUs, Transit(c.lastRecv.value, c.lastPts.value, pts, recv));
      c.(jitterUs := j, target := ClampDuration(FromMicros(NextTargetUs(c.target, j)), cfg.minTarget, cfg.maxTarget))
  }

  /** Whether a packet counts for adaptation: the next sequence number, or without one a later PTS. */
  predicate Counts(c: Clock, rtp: Option<nat>, pts: Duration) {
    match rtp
    case Some(s) => c.lastSeq.None? || s == (c.lastSeq.value + 1) % 0x1_0000
    case None => c.lastPts.None? || pts > c.lastPts.value
  }

  function Adapt(cfg: Config, c: Clock, rtp: Option<nat>, pts: Duration, recv: Duration): Clock {
    var c1 := if Counts(c, rtp, pts) then ApplyTransit(cfg, c, pts, recv) else c;
    match rtp
    case Some(s) => c1.(lastSeq := Some(s), lastRecv := Some(recv), lastPts := Some(pts))
    case None => if Counts(c, rtp, pts) then c1.(lastRecv := Some(recv), lastPts := Some(pts)) else c1
  }

  // ---- the queue ---------------------------------------------------------------------------

  function Init<T>(cfg: Config): Buffer<T> {
    var target := ClampDuration(cfg.initialTarget, cfg.minTarget, cfg.maxTarget);
    Buffer(cfg, Clock(target, None, None, None, 0), [], [], [], [])
  }

  /** The first position holding a later PTS, or the end. */
  function InsertAt<T>(q: seq<Packet<T>>, pts: Duration): (pos: nat)
    ensures pos <= |q|
    ensures forall i :: 0 <= i < pos ==> q[i].pts <= pts
    ensures pos < |q| ==> q[pos].pts > pts
  {
    if q == [] || q[0].pts > pts then 0 else 1 + InsertAt(q[1..], pts)
  }

  function Insert<T>(q: seq<Packet<T>>, p: Packet<T>): seq<Packet<T>> {
    var pos := InsertAt(q, p.pts);
    q[..pos] + [p] + q[pos..]
  }

  function Push<T>(b: Buffer<T>, rtp: Option<nat>, pts: Duration, recv: Duration, payload: T): Buffer<T> {
    var p := Packet(rtp, pts, recv, payload, |b.pushed|);
    b.(clock := Adapt(b.cfg, b.clock, rtp, pts, recv), queue := Insert(b.queue, p), pushed := b.pushed + [p])
  }

  predicate Ready<T>(b: Buffer<T>, p: Packet<T>, now: Duration) {
    SatSub(now, p.recv) >= b.clock.target
  }

  function PopFront<T>(b: Buffer<T>): Buffer<T> {
    if b.queue == [] then b
    else b.(queue := b.queue[1..], released := b.released + [b.queue[0]])
  }

  function PopReady<T>(b: Buffer<T>, now: Duration): Buffer<T> {
    if b.queue != [] && Ready(b, b.queue[0], now) then PopFront(b) else b
  }

  predicate Late<T>(b: Buffer<T>, p: Packet<T>, now: Duration, threshold: Duration) {
    SatSub(now, p.recv) > SatAdd(b.clock.target, threshold)
  }

  function DropFront<T>(b: Buffer<T>, n: nat): Buffer<T>
    requires n <= |b.queue|
  {
    b.(queue := b.queue[n..], dropped := b.dropped + b.queue[..n])
  }

  /** How many packets at the front are late. */
  function LatePrefix<T>(b: Buffer<T>, q: seq<Packet<T>>, now: Duration, threshold: Duration): (n: nat)
    ensures n <= |q|
    ensures forall i :: 0 <= i < n ==> Late(b, q[i], now, threshold)
    ensures n < |q| ==> !Late(b, q[n], now, threshold)
  {
    if q == [] || !Late(b, q[0], now, threshold) then 0 else 1 + LatePrefix(b, q[1..], now, threshold)
  }

  function DropLate<T>(b: Buffer<T>, now: Duration, threshold: Duration): Buffer<T> {
    DropFront(b, LatePrefix(b, b.queue, now, threshold))
  }

  // ---- runs --------------------------------------------------------------------------------

  datatype Step<+T> =
    | PushStep(rtp: Option<nat>, pts: Duration, recv: Duration, payload: T)
    | PopReadyStep(now: Duration)
    | PopFrontStep
    | DropLateStep(now: Duration, threshold: Duration)

  function Apply<T>(b: Buffer<T>, s: Step<T>): Buffer<T> {
    match s
    case PushStep(rtp, pts, recv, payload) => Push(b, rtp, pts, recv, payload)
    case PopReadyStep(now) => PopReady(b, now)
    case PopFrontStep => PopFront(b)
    case DropLateStep(now, threshold) => DropLate(b, now, threshold)
  }

  function Run<T>(b: Buffer<T>, steps: seq<Step<T>>): Buffer<T> {
    if steps == [] then b else Apply(Run(b, steps[..|steps| - 1]), steps[|steps| - 1])
  }
}
