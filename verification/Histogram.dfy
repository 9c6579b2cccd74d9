/** The lock-free histogram (packages/common/src/metrics.rs).  Each atomic instruction of `observe` is one
    step, any thread may take the next one, and a weak compare-exchange may fail for no reason.
    Observed values and the sum are exact reals. */
module Histogram {
  /** f64::EPSILON. */
  const EPSILON: real := 1.0 / 4503599627370496.0

  /** Where a call of `observe` stands: before bucket i, before the count, before loading the sum, inside
      the retry loop holding the value it last saw, or returned. */
  datatype Phase = Buckets(i: nat) | Counting | Loading | Swapping(seen: real) | Done

  datatype Call = Call(value: real, phase: Phase)

  datatype State = State(buckets: seq<real>, counts: seq<nat>, count: nat, sum: real, calls: seq<Call>)

  // ---- construction ------------------------------------------------------------------------

  function Insert(x: real, s: seq<real>): seq<real> {
    if s == [] || x < s[0] then [x] + s else [s[0]] + Insert(x, s[1..])
  }

  function Sort(s: seq<real>): seq<real> {
    if s == [] then [] else Insert(s[|s| - 1], Sort(s[..|s| - 1]))
  }

  function Distance(a: real, b: real): real {
    if a < b then b - a else a - b
  }

  /** dedup_by: drop what is closer than EPSILON to the last element kept. */
  function Dedup(s: seq<real>): seq<real> {
    if s == [] then []
    else
      var kept := Dedup(s[..|s| - 1]);
      if kept != [] && Distance(s[|s| - 1], kept[|kept| - 1]) < EPSILON then kept else kept + [s[|s| - 1]]
  }

  function New(buckets: seq<real>): State {
    var b := Dedup(Sort(buckets));
    State(b, seq(|b|, _ => 0), 0, 0.0, [])
  }

  ghost predicate Ascending(s: seq<real>) {
    forall i, j :: 0 <= i < j < |s| ==> s[i] <= s[j]
  }

  lemma {:induction false} InsertKeeps(x: real, s: seq<real>)
    ensures multiset(Insert(x, s)) == multiset(s) + multiset{x}
    ensures forall y :: y in Insert(x, s) <==> y == x || y in s
  {
    if s != [] && x >= s[0] {
      InsertKeeps(x, s[1..]);
      assert s == [s[0]] + s[1..];
    }
  }

  lemma {:induction false} InsertSorted(x: real, s: seq<real>)
    requires Ascending(s)
    ensures Ascending(Insert(x, s))
  {
    if s != [] && x >= s[0] {
      InsertSorted(x, s[1..]);
      InsertKeeps(x, s[1..]);
      var r := Insert(x, s[1..]);
      forall i | 0 <= i < |r| ensures s[0] <= r[i] {
        assert r[i] in r;
      }
    }
  }

  lemma {:induction false} SortSorts(s: seq<real>)
    ensures Ascending(Sort(s)) && multiset(Sort(s)) == multiset(s)
  {
    if s != [] {
      SortSorts(s[..|s| - 1]);
      InsertSorted(s[|s| - 1], Sort(s[..|s| - 1]));
      InsertKeeps(s[|s| - 1], Sort(s[..|s| - 1]));
      assert s == s[..|s| - 1] + [s[|s| - 1]];
    }
  }

  /** Apart by EPSILON at least. */
  ghost predicate Spaced(s: seq<real>) {
    forall i, j :: 0 <= i < j < |s| ==> s[i] + EPSILON <= s[j]
  }

  lemma {:induction false} DedupLast(s: seq<real>)
    requires s != [] && Ascending(s)
    ensures Dedup(s) != [] && Dedup(s)[|Dedup(s)| - 1] <= s[|s| - 1] < Dedup(s)[|Dedup(s)| - 1] + EPSILON
  {
    if |s| > 1 { DedupLast(s[..|s| - 1]); }
  }

  lemma {:induction false} DedupSpaces(s: seq<real>)
    requires Ascending(s)
    ensures Spaced(Dedup(s))
  {
    if |s| > 1 {
      DedupSpaces(s[..|s| - 1]);
      DedupLast(s[..|s| - 1]);
      var kept := Dedup(s[..|s| - 1]);
      var n := |kept| - 1;
      forall i | 0 <= i < n ensures kept[i] <= kept[n] { }
    }
  }

  lemma {:induction false} DedupTakes(s: seq<real>, x: real)
    requires x in Dedup(s)
    ensures x in s
  {
    if s != [] && x != s[|s| - 1] { DedupTakes(s[..|s| - 1], x); }
  }

  /** Whether bound k stands for the requested bound x. */
  ghost predicate Covers(b: seq<real>, x: real) {
    exists k :: k in b && k <= x < k + EPSILON
  }

  lemma {:induction false} DedupCovers(s: seq<real>, x: real)
    requires Ascending(s) && x in s
    ensures Covers(Dedup(s), x)
  {
    if x == s[|s| - 1] {
      DedupLast(s);
      assert Dedup(s)[|Dedup(s)| - 1] in Dedup(s);
    } else {
      DedupCovers(s[..|s| - 1], x);
      var k :| k in Dedup(s[..|s| - 1]) && k <= x < k + EPSILON;
      assert k in Dedup(s);
    }
  }

  /** A new histogram has strictly increasing bounds taken from the input, one for every input within EPSILON. */
  lemma NewBuckets(buckets: seq<real>)
    ensures var b := New(buckets).buckets;
      && Spaced(b)
      && (forall x :: x in b ==> x in buckets)
      && (forall x :: x in buckets ==> Covers(b, x))
  {
    var sorted := Sort(buckets);
    SortSorts(buckets);
    DedupSpaces(sorted);
    forall x | x in Dedup(sorted) ensures x in buckets {
      DedupTakes(sorted, x);
      assert x in multiset(sorted);
    }
    forall x | x in buckets ensures Covers(Dedup(sorted), x) {
      assert x in multiset(buckets);
      DedupCovers(sorted, x);
    }
  }

  // ---- steps -------------------------------------------------------------------------------

  datatype Step =
    | Begin(value: real)
    | Advance(call: nat, spurious: bool)

  predicate Enabled(s: State, st: Step) {
    st.Advance? ==> st.call < |s.calls| && s.calls[st.call].phase != Done
  }

  function Move(s: State, k: nat, phase: Phase): State
    requires k < |s.calls|
  {
    s.(calls := s.calls[k := s.calls[k].(phase := phase)])
  }

  function Apply(s: State, st: Step): State
    requires Enabled(s, st) && |s.counts| == |s.buckets|
  {
    match st
    case Begin(value) => s.(calls := s.calls + [Call(value, Buckets(0))])
    case Advance(k, spurious) =>
      var c := s.calls[k];
      match c.phase
      case Buckets(i) =>
        if i >= |s.buckets| then Move(s, k, Counting)
        else if c.value <= s.buckets[i] then
          Move(s.(counts := s.counts[i := s.counts[i] + 1]), k, Buckets(i + 1))
        else Move(s, k, Buckets(i + 1))
      case Counting => Move(s.(count := s.count + 1), k, Loading)
      case Loading => Move(s, k, Swapping(s.sum))
      case Swapping(seen) =>
        if s.sum == seen && !spurious then Move(s.(sum := seen + c.value), k, Done)
        else Move(s, k, Swapping(s.sum))
      case Done => s
  }

  function Front(steps: seq<Step>): seq<Step>
    requires steps != []
  {
    steps[..|steps| - 1]
  }

  function Last(steps: seq<Step>): Step
    requires steps != []
  {
    steps[|steps| - 1]
  }

  /** The steps lead from s to t. */
  ghost predicate Leads(s: State, steps: seq<Step>, t: State) {
    if steps == [] then t == s
    else exists m :: Leads(s, Front(steps), m) && Takes(m, Last(steps), t)
  }

  ghost predicate Takes(s: State, st: Step, t: State) {
    |s.counts| == |s.buckets| && Enabled(s, st) && t == Apply(s, st)
  }

  ghost predicate Reaches(buckets: seq<real>, steps: seq<Step>, s: State) {
    Leads(New(buckets), steps, s)
  }

  // ---- the invariant -----------------------------------------------------------------------

  function Total(calls: seq<Call>, weight: Call -> int): int {
    if calls == [] then 0 else Total(calls[..|calls| - 1], weight) + weight(calls[|calls| - 1])
  }

  function TotalReal(calls: seq<Call>, weight: Call -> real): real {
    if calls == [] then 0.0 else TotalReal(calls[..|calls| - 1], weight) + weight(calls[|calls| - 1])
  }

  /** Whether a call has already added itself to bucket i, to the count, to the sum. */
  function InBucket(i: nat, bound: real): Call -> int {
    (c: Call) => if c.value <= bound && (c.phase.Buckets? ==> i < c.phase.i) then 1 else 0
  }

  function InCount(): Call -> int {
    (c: Call) => if c.phase.Buckets? || c.phase.Counting? then 0 else 1
  }

  function InSum(): Call -> real {
    (c: Call) => if c.phase.Done? then c.value else 0.0
  }

  /** The buckets a call still has to visit. */
  ghost predicate InRange(s: State) {
    forall k :: 0 <= k < |s.calls| && s.calls[k].phase.Buckets? ==> s.calls[k].phase.i <= |s.buckets|
  }

  ghost predicate Inv(s: State) {
    && |s.counts| == |s.buckets|
    && Spaced(s.buckets)
    && (forall i :: 0 <= i < |s.buckets| ==> s.counts[i] == Total(s.calls, InBucket(i, s.buckets[i])))
    && s.count == Total(s.calls, InCount())
    && s.sum == TotalReal(s.calls, InSum())
    && InRange(s)
  }

  lemma {:induction false} TotalUpdate(calls: seq<Call>, k: nat, c: Call, w: Call -> int)
    requires k < |calls|
    ensures Total(calls[k := c], w) == Total(calls, w) - w(calls[k]) + w(c)
  {
    var n := |calls| - 1;
    if k == n {
      assert calls[k := c][..n] == calls[..n];
    } else {
      assert calls[k := c][..n] == calls[..n][k := c];
      TotalUpdate(calls[..n], k, c, w);
    }
  }

  lemma {:induction false} TotalRealUpdate(calls: seq<Call>, k: nat, c: Call, w: Call -> real)
    requires k < |calls|
    ensures TotalReal(calls[k := c], w) == TotalReal(calls, w) - w(calls[k]) + w(c)
  {
    var n := |calls| - 1;
    if k == n {
      assert calls[k := c][..n] == calls[..n];
    } else {
      assert calls[k := c][..n] == calls[..n][k := c];
      TotalRealUpdate(calls[..n], k, c, w);
    }
  }

  lemma BeginKeepsInv(s: State, value: real)
    requires Inv(s)
    ensures Inv(Apply(s, Begin(value)))
  {
    var t := Apply(s, Begin(value));
    var c := Call(value, Buckets(0));
    assert t.calls[..|s.calls|] == s.calls;
    forall i | 0 <= i < |s.buckets| ensures t.counts[i] == Total(t.calls, InBucket(i, s.buckets[i])) {
      assert InBucket(i, s.buckets[i])(c) == 0;
    }
  }

  /** What one step of call k does to each total: exactly what it does to the matching counter. */
  lemma AdvanceTotals(s: State, k: nat, spurious: bool, i: nat)
    requires Inv(s) && Enabled(s, Advance(k, spurious)) && i < |s.buckets|
    ensures var t := Apply(s, Advance(k, spurious));
      |t.counts| == |s.counts| && t.counts[i] == Total(t.calls, InBucket(i, s.buckets[i]))
  {
    var t := Apply(s, Advance(k, spurious));
    TotalUpdate(s.calls, k, t.calls[k], InBucket(i, s.buckets[i]));
  }

  lemma AdvanceCount(s: State, k: nat, spurious: bool)
    requires Inv(s) && Enabled(s, Advance(k, spurious))
    ensures var t := Apply(s, Advance(k, spurious)); t.count == Total(t.calls, InCount())
    ensures var t := Apply(s, Advance(k, spurious)); t.sum == TotalReal(t.calls, InSum())
  {
    var t := Apply(s, Advance(k, spurious));
    TotalUpdate(s.calls, k, t.calls[k], InCount());
    TotalRealUpdate(s.calls, k, t.calls[k], InSum());
  }

  lemma StepKeepsInv(s: State, st: Step)
    requires Inv(s) && Enabled(s, st)
    ensures Inv(Apply(s, st))
  {
    match st
    case Begin(value) => BeginKeepsInv(s, value);
    case Advance(k, spurious) =>
      AdvanceCount(s, k, spurious);
      forall i | 0 <= i < |s.buckets|
        ensures Apply(s, st).counts[i] == Total(Apply(s, st).calls, InBucket(i, s.buckets[i]))
      {
        AdvanceTotals(s, k, spurious, i);
      }
  }

  lemma NewInv(buckets: seq<real>)
    ensures Inv(New(buckets))
  {
    NewBuckets(buckets);
  }

  /** Whatever the interleaving and however often a compare-exchange fails. */
  lemma {:induction false} EveryInterleavingKeepsInv(buckets: seq<real>, steps: seq<Step>, s: State)
    requires Reaches(buckets, steps, s)
    ensures Inv(s)
  {
    if steps == [] {
      NewInv(buckets);
    } else {
      var s0 :| Leads(New(buckets), Front(steps), s0) && Takes(s0, Last(steps), s);
      EveryInterleavingKeepsInv(buckets, Front(steps), s0);
      StepKeepsInv(s0, Last(steps));
    }
  }

  // ---- at rest -----------------------------------------------------------------------------

  function Values(calls: seq<Call>): seq<real> {
    seq(|calls|, k requires 0 <= k < |calls| => calls[k].value)
  }

  function AtMost(values: seq<real>, bound: real): nat {
    if values == [] then 0
    else AtMost(values[..|values| - 1], bound) + if values[|values| - 1] <= bound then 1 else 0
  }

  function SumOf(values: seq<real>): real {
    if values == [] then 0.0 else SumOf(values[..|values| - 1]) + values[|values| - 1]
  }

  ghost predicate AllDone(calls: seq<Call>) {
    forall k :: 0 <= k < |calls| ==> calls[k].phase == Done
  }

  lemma {:induction false} DoneTotals(calls: seq<Call>, i: nat, bound: real)
    requires AllDone(calls)
    ensures Total(calls, InBucket(i, bound)) == AtMost(Values(calls), bound)
    ensures Total(calls, InCount()) == |calls|
    ensures TotalReal(calls, InSum()) == SumOf(Values(calls))
  {
    if calls != [] {
      var n := |calls| - 1;
      DoneTotals(calls[..n], i, bound);
      assert Values(calls)[..n] == Values(calls[..n]);
    }
  }

  lemma {:induction false} AtMostGrows(values: seq<real>, a: real, b: real)
    requires a <= b
    ensures AtMost(values, a) <= AtMost(values, b) <= |values|
  {
    if values != [] { AtMostGrows(values[..|values| - 1], a, b); }
  }

  /** Once every call has returned, each bucket holds the number of observations at or below its bound,
      the counts are cumulative, and no addition to the sum was lost. */
  lemma QuiescentHistogramIsExact(buckets: seq<real>, steps: seq<Step>, s: State)
    requires Reaches(buckets, steps, s) && AllDone(s.calls)
    ensures |s.counts| == |s.buckets|
    ensures forall i :: 0 <= i < |s.counts| ==> s.counts[i] == AtMost(Values(s.calls), s.buckets[i])
    ensures forall i, j :: 0 <= i < j < |s.counts| ==> s.counts[i] <= s.counts[j]
    ensures forall i :: 0 <= i < |s.counts| ==> s.counts[i] <= s.count
    ensures s.count == |s.calls| && s.sum == SumOf(Values(s.calls))
  {
    EveryInterleavingKeepsInv(buckets, steps, s);
    DoneTotals(s.calls, 0, 0.0);
    forall i | 0 <= i < |s.counts| ensures s.counts[i] == AtMost(Values(s.calls), s.buckets[i]) {
      DoneTotals(s.calls, i, s.buckets[i]);
    }
    forall i, j | 0 <= i < j < |s.counts| ensures s.counts[i] <= s.counts[j] {
      AtMostGrows(Values(s.calls), s.buckets[i], s.buckets[j]);
    }
    forall i | 0 <= i < |s.counts| ensures s.counts[i] <= s.count {
      AtMostGrows(Values(s.calls), s.buckets[i], s.buckets[i]);
    }
  }

  // ---- in flight ---------------------------------------------------------------------------

  function InFlight(): Call -> int {
    (c: Call) => if c.phase.Buckets? || c.phase.Counting? then 1 else 0
  }

  lemma {:induction false} CumulativeUpToInFlight(calls: seq<Call>, i: nat, j: nat, a: real, b: real)
    requires a <= b && i < j
    ensures Total(calls, InBucket(i, a)) <= Total(calls, InBucket(j, b)) + Total(calls, InFlight())
    ensures Total(calls, InBucket(i, a)) <= Total(calls, InCount()) + Total(calls, InFlight())
    ensures Total(calls, InFlight()) >= 0
  {
    if calls != [] { CumulativeUpToInFlight(calls[..|calls| - 1], i, j, a, b); }
  }

  /** Buckets never change and no counter ever goes down. */
  ghost predicate Grown(s: State, t: State) {
    && t.buckets == s.buckets && |t.counts| == |s.counts|
    && (forall i :: 0 <= i < |s.counts| ==> s.counts[i] <= t.counts[i])
    && s.count <= t.count
  }

  lemma StepGrows(s: State, st: Step)
    requires |s.counts| == |s.buckets| && Enabled(s, st)
    ensures Grown(s, Apply(s, st))
  {
    if st.Advance? && s.calls[st.call].phase.Buckets? {
      var i := s.calls[st.call].phase.i;
      assert i < |s.counts| ==> Apply(s, st).counts[i] >= s.counts[i];
    }
  }

  lemma {:induction false} CountersOnlyGrow(s: State, steps: seq<Step>, t: State)
    requires Leads(s, steps, t)
    ensures Grown(s, t)
  {
    if steps != [] {
      var m :| Leads(s, Front(steps), m) && Takes(m, Last(steps), t);
      CountersOnlyGrow(s, Front(steps), m);
      StepGrows(m, Last(steps));
    }
  }

  // ---- when a scrape is cumulative ---------------------------------------------------------

  /** A call that has added itself to bucket i but has not got to bucket j. */
  function OnTheWay(i: nat, j: nat, bound: real): Call -> int {
    (c: Call) => if c.value <= bound && c.phase.Buckets? && i < c.phase.i <= j then 1 else 0
  }

  /** A call past bucket j whose value belongs to j and not to the lower bound. */
  function Above(j: nat, low: real, high: real): Call -> int {
    (c: Call) => if low < c.value <= high && (c.phase.Buckets? ==> j < c.phase.i) then 1 else 0
  }

  /** The same two for the count. */
  function Uncounted(i: nat, bound: real): Call -> int {
    (c: Call) => if c.value <= bound && (c.phase.Counting? || (c.phase.Buckets? && i < c.phase.i)) then 1 else 0
  }

  function CountedAbove(bound: real): Call -> int {
    (c: Call) => if bound < c.value && !c.phase.Buckets? && !c.phase.Counting? then 1 else 0
  }

  lemma {:induction false} BucketsDiffer(calls: seq<Call>, i: nat, j: nat, a: real, b: real)
    requires a <= b && i < j
    ensures Total(calls, InBucket(i, a)) - Total(calls, InBucket(j, b))
      == Total(calls, OnTheWay(i, j, a)) - Total(calls, Above(j, a, b))
  {
    if calls != [] {
      var n := |calls| - 1;
      var c := calls[n];
      BucketsDiffer(calls[..n], i, j, a, b);
      assert InBucket(i, a)(c) - InBucket(j, b)(c) == OnTheWay(i, j, a)(c) - Above(j, a, b)(c);
    }
  }

  lemma {:induction false} BucketAndCountDiffer(calls: seq<Call>, i: nat, a: real)
    ensures Total(calls, InBucket(i, a)) - Total(calls, InCount())
      == Total(calls, Uncounted(i, a)) - Total(calls, CountedAbove(a))
  {
    if calls != [] {
      var n := |calls| - 1;
      var c := calls[n];
      BucketAndCountDiffer(calls[..n], i, a);
      assert InBucket(i, a)(c) - InCount()(c) == Uncounted(i, a)(c) - CountedAbove(a)(c);
    }
  }

  /** A scrape loads one counter at a time while calls go on: it loads bucket i in state s and a later bucket j, or
      the count, in a later state t.  What it prints is cumulative exactly when the calls that had passed i but not
      yet j are made up for by those that had passed j with a value between the bounds, and by the additions to j
      made in the meantime; and likewise for the count. */
  lemma ScrapeIsCumulativeExactlyWhen(buckets: seq<real>, before: seq<Step>, s: State, between: seq<Step>, t: State,
                                      i: nat, j: nat)
    requires Reaches(buckets, before, s) && Leads(s, between, t) && i < j < |s.counts|
    ensures j < |s.buckets| && j < |t.counts| && s.counts[j] <= t.counts[j] && s.count <= t.count
    ensures s.counts[i] <= t.counts[j] <==>
      Total(s.calls, OnTheWay(i, j, s.buckets[i]))
        <= Total(s.calls, Above(j, s.buckets[i], s.buckets[j])) + (t.counts[j] - s.counts[j])
    ensures s.counts[i] <= t.count <==>
      Total(s.calls, Uncounted(i, s.buckets[i])) <= Total(s.calls, CountedAbove(s.buckets[i])) + (t.count - s.count)
  {
    EveryInterleavingKeepsInv(buckets, before, s);
    CountersOnlyGrow(s, between, t);
    BucketsDiffer(s.calls, i, j, s.buckets[i], s.buckets[j]);
    BucketAndCountDiffer(s.calls, i, s.buckets[i]);
  }

  /** In particular the order is broken by no more than the number of calls still adding themselves when bucket i
      was loaded. */
  lemma ScrapeIsCumulativeUpToInFlight(buckets: seq<real>, before: seq<Step>, s: State, between: seq<Step>, t: State,
                                       i: nat, j: nat)
    requires Reaches(buckets, before, s) && Leads(s, between, t) && i < j < |s.counts|
    ensures j < |t.counts| && s.counts[i] <= t.counts[j] + Total(s.calls, InFlight())
    ensures s.counts[i] <= t.count + Total(s.calls, InFlight())
  {
    EveryInterleavingKeepsInv(buckets, before, s);
    CountersOnlyGrow(s, between, t);
    CumulativeUpToInFlight(s.calls, i, j, s.buckets[i], s.buckets[j]);
  }

  /** A histogram with the bounds 1 and 2. */
  lemma TwoBounds()
    ensures New([1.0, 2.0]) == State([1.0, 2.0], [0, 0], 0, 0.0, [])
  {
    var b := [1.0, 2.0];
    assert b[..1] == [1.0] && [1.0][..0] == [];
    assert Sort([1.0]) == [1.0];
    assert [1.0][1..] == [] && Insert(2.0, []) == [2.0] && Insert(2.0, [1.0]) == [1.0] + [2.0];
    assert Sort(b) == b;
    assert Dedup([1.0]) == [1.0];
    assert Dedup(b) == b;
    assert New(b).counts == [0, 0];
  }

  /** It is not always cumulative: there, after the first step of a call with the value 0.5, the first bucket reads 1
      and the second 0. */
  lemma ScrapeCanSeeDisorder()
    ensures exists t :: Reaches([1.0, 2.0], [Begin(0.5), Advance(0, false)], t) && t.counts == [1, 0] && t.count == 0
  {
    var steps := [Begin(0.5), Advance(0, false)];
    var s := New([1.0, 2.0]);
    TwoBounds();
    var m := Apply(s, Begin(0.5));
    var t := Apply(m, Advance(0, false));
    assert Front(steps) == [Begin(0.5)] && Front([Begin(0.5)]) == [];
    assert Leads(s, [], s);
    assert Takes(s, Begin(0.5), m);
    assert Leads(s, [Begin(0.5)], m);
    assert Takes(m, Advance(0, false), t);
    assert Leads(s, steps, t);
    assert t.counts == [1, 0];
    assert Reaches([1.0, 2.0], steps, t);
  }
}
