/** The jitter buffer as the program has it: a deque, four counters and the adaptation state, edited in
    place.  Each method is proved to do what the transition of the same name does. */
module JitterService {
  import opened Common
  import opened JitterModel

  class JitterBuffer<T> {
    const cfg: Config
    var target: Duration
    var queue: seq<Packet<T>>
    var nReceived: nat
    var nReleased: nat
    var nDropped: nat
    var lastRecv: Option<Duration>
    var lastPts: Option<Duration>
    var lastSeq: Option<nat>
    var jitterUs: u64
    ghost var pushed: seq<Packet<T>>
    ghost var released: seq<Packet<T>>
    ghost var dropped: seq<Packet<T>>

    function Adaptation(): Clock
      reads this
    {
      Clock(target, lastRecv, lastPts, lastSeq, jitterUs)
    }

    ghost function State(): Buffer<T>
      reads this
    {
      Buffer(cfg, Adaptation(), queue, pushed, released, dropped)
    }

    /** The counters are the lengths of the histories. */
    ghost predicate Counted()
      reads this
    {
      nReceived == |pushed| && nReleased == |released| && nDropped == |dropped|
    }

    constructor (cfg: Config)
      ensures State() == Init(cfg) && Counted()
    {
      this.cfg := cfg;
      target := ClampDuration(cfg.initialTarget, cfg.minTarget, cfg.maxTarget);
      queue, nReceived, nReleased, nDropped := [], 0, 0, 0;
      lastRecv, lastPts, lastSeq, jitterUs := None, None, None, 0;
      pushed, released, dropped := [], [], [];
    }

    method PushInner(rtp: Option<nat>, pts: Duration, recv: Duration, payload: T)
      requires Counted()
      modifies this
      ensures State() == Push(old(State()), rtp, pts, recv, payload) && Counted()
    {
      AdaptTo(rtp, pts, recv);
      var pkt := Packet(rtp, pts, recv, payload, nReceived);
      nReceived := nReceived + 1;
      var pos := PositionFor(pts);
      queue := queue[..pos] + [pkt] + queue[pos..];
      pushed := pushed + [pkt];
    }

    /** Linear search for the first later PTS. */
    method PositionFor(pts: Duration) returns (pos: nat)
      ensures pos == InsertAt(queue, pts)
    {
      pos := 0;
      assert queue[0..] == queue;
      while pos < |queue| && queue[pos].pts <= pts
        invariant 0 <= pos <= |queue|
        invariant InsertAt(queue, pts) == pos + InsertAt(queue[pos..], pts)
      {
        assert queue[pos..][1..] == queue[pos + 1..];
        pos := pos + 1;
      }
    }

    method AdaptTo(rtp: Option<nat>, pts: Duration, recv: Duration)
      modifies this`target, this`lastRecv, this`lastPts, this`lastSeq, this`jitterUs
      ensures Adaptation() == Adapt(cfg, old(Adaptation()), rtp, pts, recv)
    {
      match rtp
      case Some(s) =>
        if lastSeq.Some? && s != (lastSeq.value + 1) % 0x1_0000 {
          lastSeq, lastRecv, lastPts := Some(s), Some(recv), Some(pts);
          return;
        }
        ApplyTransitTo(pts, recv);
        lastSeq, lastRecv, lastPts := Some(s), Some(recv), Some(pts);
      case None =>
        if lastPts.Some? && pts <= lastPts.value {
          return;
        }
        ApplyTransitTo(pts, recv);
        lastRecv, lastPts := Some(recv), Some(pts);
    }

    method ApplyTransitTo(pts: Duration, recv: Duration)
      modifies this`target, this`jitterUs
      ensures Adaptation() == ApplyTransit(cfg, old(Adaptation()), pts, recv)
    {
      if lastRecv.Some? && lastPts.Some? {
        var dRecv := WrapI64(Micros(SatSub(recv, lastRecv.value)));
        var dPts := WrapI64(Micros(SatSub(pts, lastPts.value)));
        RaiseJitter(WrapI64(dRecv - dPts));
        MoveTarget();
      }
    }

    method RaiseJitter(transit: int)
      requires Abs(transit) <= U64_MAX
      modifies this`jitterUs
      ensures jitterUs == NextJitter(old(jitterUs), transit)
    {
      var abs := Abs(transit);
      var gap := if abs < jitterUs then 0 else abs - jitterUs;
      jitterUs := jitterUs + gap / 16;
    }

    method MoveTarget()
      modifies this`target
      ensures target == ClampDuration(FromMicros(NextTargetUs(old(target), jitterUs)), cfg.minTarget, cfg.maxTarget)
    {
      var desired := FromMicros(if 2 * jitterUs > U64_MAX then U64_MAX else 2 * jitterUs);
      var t := WrapI64(Micros(target));
      var d := WrapI64(Micros(desired));
      var next := WrapI64(t + TruncDiv8(WrapI64(d - t)));
      target := ClampDuration(FromMicros(if next < 0 then 0 else next), cfg.minTarget, cfg.maxTarget);
    }

    method Pop(now: Duration) returns (p: Option<Packet<T>>)
      requires Counted()
      modifies this
      ensures State() == PopReady(old(State()), now) && Counted()
      ensures p == if |released| == |old(released)| then None else Some(released[|old(released)|])
    {
      if queue == [] {
        return None;
      }
      var front := queue[0];
      if SatSub(now, front.recv) >= target {
        nReleased := nReleased + 1;
        released := released + [front];
        queue := queue[1..];
        return Some(front);
      }
      return None;
    }

    method ForcePop() returns (p: Option<Packet<T>>)
      requires Counted()
      modifies this
      ensures State() == PopFront(old(State())) && Counted()
      ensures p == if |released| == |old(released)| then None else Some(released[|old(released)|])
    {
      if queue == [] {
        return None;
      }
      p := Some(queue[0]);
      released := released + [queue[0]];
      queue := queue[1..];
      nReleased := nReleased + 1;
    }

    method DropLatePackets(now: Duration, threshold: Duration)
      requires Counted()
      modifies this
      ensures State() == DropLate(old(State()), now, threshold) && Counted()
    {
      ghost var n := 0;
      while queue != []
        invariant 0 <= n <= |old(queue)| && queue == old(queue)[n..]
        invariant LatePrefix(old(State()), old(queue), now, threshold)
          == n + LatePrefix(old(State()), queue, now, threshold)
        invariant State() == DropFront(old(State()), n) && Counted()
      {
        var front := queue[0];
        if SatSub(now, front.recv) <= SatAdd(target, threshold) {
          break;
        }
        queue := queue[1..];
        nDropped := nDropped + 1;
        dropped := dropped + [front];
        n := n + 1;
        assert old(queue)[..n] == old(queue)[..n - 1] + [front];
      }
    }
  }
}
