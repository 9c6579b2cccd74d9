/** The server's one-time code store (apps/server/src/otp.rs): rows by id, and per host the ids of its
    rows, newest last.  Times are nanoseconds since the epoch. */
module OtpStore {
  import opened Common
  import opened OtpCodes
  import opened Transcript

  const MAX_OTP_ATTEMPTS := 5
  const SECOND := 1_000_000_000

  type HostId = int
  type RowId = int

  datatype Row = Row(
    host: HostId,
    hash: OtpHash,
    expiresAt: int,
    consumedAt: Option<int>,
    session: Option<string>,
    attempts: nat,
    createdAt: int)

  datatype Verdict = Bound | Missed | LockedOut

  /** What happened to the rows, in order. */
  datatype Event =
    | Stored(id: RowId)
    | Tried(id: RowId, session: string, verdict: Verdict)
    | Consumed(id: RowId, session: string)

  datatype Store = Store(nextId: RowId, byId: map<RowId, Row>, byHost: map<HostId, seq<RowId>>, log: seq<Event>)

  datatype Prefilter = Accept | NoActiveOtp | Reject

  datatype ConsumeResult = Done | NotFound | Unavailable

  // ---- the operations ----------------------------------------------------------------------

  /** DateTime::timestamp: whole seconds. */
  function Timestamp(t: int): int {
    t / SECOND
  }

  predicate Live(byId: map<RowId, Row>, id: RowId, now: int) {
    id in byId && byId[id].consumedAt.None? && byId[id].expiresAt > now
  }

  /** The newest of the listed rows that is neither consumed nor past its expiry. */
  function LastLive(byId: map<RowId, Row>, ids: seq<RowId>, now: int): (r: Option<RowId>)
    ensures r.Some? ==> r.value in ids && Live(byId, r.value, now)
    ensures r.None? ==> forall id :: id in ids ==> !Live(byId, id, now)
  {
    if ids == [] then None
    else if Live(byId, ids[|ids| - 1], now) then Some(ids[|ids| - 1])
    else LastLive(byId, ids[..|ids| - 1], now)
  }

  predicate BoundTo(byId: map<RowId, Row>, id: RowId, session: string) {
    id in byId && byId[id].session == Some(session)
  }

  function FirstBound(byId: map<RowId, Row>, ids: seq<RowId>, session: string): (r: Option<RowId>)
    ensures r.Some? ==> r.value in ids && BoundTo(byId, r.value, session)
    ensures r.None? ==> forall id :: id in ids ==> !BoundTo(byId, id, session)
  {
    if ids == [] then None
    else if BoundTo(byId, ids[0], session) then Some(ids[0])
    else FirstBound(byId, ids[1..], session)
  }

  function IdsOf(s: Store, host: HostId): seq<RowId> {
    if host in s.byHost then s.byHost[host] else []
  }

  function StoreHash(s: Store, host: HostId, hash: OtpHash, expiresAt: int, now: int): Store {
    var id := s.nextId + 1;
    var gone := set o | o in IdsOf(s, host);
    Store(id, (s.byId - gone)[id := Row(host, hash, expiresAt, None, None, 0, now)],
          s.byHost[host := [id]], s.log + [Stored(id)])
  }

  /** The verdict on a live row. */
  function Judge(p: Primitives, row: Row, code: string, pepper: Bytes, now: int): Verdict {
    if row.attempts >= MAX_OTP_ATTEMPTS then LockedOut
    else if Timestamp(row.expiresAt) <= Timestamp(now) then Missed
    else if VerifyOtp(p, code, pepper, row.hash).Ok? then Bound
    else Missed
  }

  function Judged(row: Row, verdict: Verdict, session: string): Row {
    match verdict
    case Bound => row.(session := Some(session))
    case Missed => row.(attempts := row.attempts + 1)
    case LockedOut => row
  }

  function PrefilterBind(p: Primitives, s: Store, host: HostId, code: string, pepper: Bytes, session: string,
                         now: int): (Store, Prefilter) {
    match LastLive(s.byId, IdsOf(s, host), now)
    case None => (s, NoActiveOtp)
    case Some(id) =>
      var verdict := Judge(p, s.byId[id], code, pepper, now);
      (s.(byId := s.byId[id := Judged(s.byId[id], verdict, session)], log := s.log + [Tried(id, session, verdict)]),
       if verdict == Bound then Accept else Reject)
  }

  function ConsumeForSession(s: Store, host: HostId, session: string, now: int): (Store, ConsumeResult) {
    match FirstBound(s.byId, IdsOf(s, host), session)
    case None => (s, NotFound)
    case Some(id) =>
      var row := s.byId[id];
      if row.consumedAt.Some? || row.expiresAt <= now then (s, Unavailable)
      else (s.(byId := s.byId[id := row.(consumedAt := Some(now))], log := s.log + [Consumed(id, session)]), Done)
  }

  // ---- the store as the program has it -----------------------------------------------------

  class MemoryOtpStore {
    var nextId: RowId
    var byId: map<RowId, Row>
    var byHost: map<HostId, seq<RowId>>
    ghost var log: seq<Event>

    ghost function State(): Store
      reads this
    {
      Store(nextId, byId, byHost, log)
    }

    constructor ()
      ensures State() == Empty()
    {
      nextId, byId, byHost, log := 0, map[], map[], [];
    }

    method Add(host: HostId, hash: OtpHash, expiresAt: int, now: int) returns (id: RowId)
      modifies this
      ensures State() == StoreHash(old(State()), host, hash, expiresAt, now) && id == nextId
    {
      nextId := nextId + 1;
      id := nextId;
      var oldIds := if host in byHost then byHost[host] else [];
      byHost := byHost - {host};
      DropRows(oldIds);
      byHost := byHost[host := [id]];
      byId := byId[id := Row(host, hash, expiresAt, None, None, 0, now)];
      log := log + [Stored(id)];
      assert byHost == old(byHost)[host := [id]];
    }

    method DropRows(ids: seq<RowId>)
      modifies this`byId
      ensures byId == old(byId) - set o | o in ids
    {
      for i := 0 to |ids|
        invariant byId == old(byId) - set o | o in ids[..i]
      {
        assert ids[..i + 1] == ids[..i] + [ids[i]];
        byId := byId - {ids[i]};
      }
      assert ids[..|ids|] == ids;
    }

    method PrefilterAndBind(p: Primitives, host: HostId, code: string, pepper: Bytes, session: string, now: int)
      returns (r: Prefilter)
      modifies this`byId, this`log
      ensures (State(), r) == PrefilterBind(p, old(State()), host, code, pepper, session, now)
    {
      if host !in byHost {
        return NoActiveOtp;
      }
      var ids := byHost[host];
      assert ids[..|ids|] == ids;
      for i := |ids| downto 0
        invariant State() == old(State())
        invariant LastLive(byId, ids, now) == LastLive(byId, ids[..i], now)
      {
        assert ids[..i + 1][..i] == ids[..i];
        var id := ids[i];
        if id !in byId {
          continue;
        }
        var row := byId[id];
        if row.consumedAt.Some? {
          continue;
        }
        if row.expiresAt <= now {
          continue;
        }
        if row.attempts >= MAX_OTP_ATTEMPTS {
          log := log + [Tried(id, session, LockedOut)];
          assert byId == byId[id := row];
          return Reject;
        }
        row := row.(attempts := row.attempts + 1);
        if Timestamp(row.expiresAt) <= Timestamp(now) {
          byId := byId[id := row];
          log := log + [Tried(id, session, Missed)];
          return Reject;
        }
        var v := VerifyOtp(p, code, pepper, row.hash);
        if v.Ok? {
          row := row.(session := Some(session));
          row := row.(attempts := row.attempts - 1);
          byId := byId[id := row];
          log := log + [Tried(id, session, Bound)];
          return Accept;
        } else {
          byId := byId[id := row];
          log := log + [Tried(id, session, Missed)];
          return Reject;
        }
      }
      return NoActiveOtp;
    }

    method Consume(host: HostId, session: string, now: int) returns (r: ConsumeResult)
      modifies this`byId, this`log
      ensures (State(), r) == ConsumeForSession(old(State()), host, session, now)
    {
      var ids := if host in byHost then byHost[host] else [];
      assert ids[0..] == ids;
      for i := 0 to |ids|
        invariant State() == old(State())
        invariant FirstBound(byId, ids, session) == FirstBound(byId, ids[i..], session)
      {
        assert ids[i..][1..] == ids[i + 1..];
        var id := ids[i];
        if id !in byId {
          continue;
        }
        var row := byId[id];
        if row.session == Some(session) {
          if row.consumedAt.Some? {
            return Unavailable;
          }
          if row.expiresAt <= now {
            return Unavailable;
          }
          byId := byId[id := row.(consumedAt := Some(now))];
          log := log + [Consumed(id, session)];
          return Done;
        }
      }
      return NotFound;
    }

    method ActiveForHost(host: HostId, now: int) returns (r: Option<RowId>)
      ensures r == LastLive(byId, IdsOf(State(), host), now)
    {
      if host !in byHost {
        return None;
      }
      var ids := byHost[host];
      assert ids[..|ids|] == ids;
      for i := |ids| downto 0
        invariant LastLive(byId, ids, now) == LastLive(byId, ids[..i], now)
      {
        assert ids[..i + 1][..i] == ids[..i];
        if ids[i] in byId && byId[ids[i]].consumedAt.None? && byId[ids[i]].expiresAt > now {
          return Some(ids[i]);
        }
      }
      return None;
    }
  }

  // ---- runs --------------------------------------------------------------------------------

  datatype Step =
    | Mint(host: HostId, hash: OtpHash, expiresAt: int, now: int)
    | Try(host: HostId, code: string, pepper: Bytes, session: string, now: int)
    | Accepted(host: HostId, session: string, now: int)

  function Empty(): Store {
    Store(0, map[], map[], [])
  }

  function Apply(p: Primitives, s: Store, st: Step): Store {
    match st
    case Mint(host, hash, expiresAt, now) => StoreHash(s, host, hash, expiresAt, now)
    case Try(host, code, pepper, session, now) => PrefilterBind(p, s, host, code, pepper, session, now).0
    case Accepted(host, session, now) => ConsumeForSession(s, host, session, now).0
  }

  function Run(p: Primitives, s: Store, steps: seq<Step>): Store {
    if steps == [] then s else Apply(p, Run(p, s, steps[..|steps| - 1]), steps[|steps| - 1])
  }

  // ---- what the log says -------------------------------------------------------------------

  function Misses(log: seq<Event>, id: RowId): nat {
    if log == [] then 0
    else
      var e := log[|log| - 1];
      Misses(log[..|log| - 1], id) + if e.Tried? && e.id == id && e.verdict == Missed then 1 else 0
  }

  /** The session of the most recent successful prefilter of the row. */
  function LastBinding(log: seq<Event>, id: RowId): Option<string> {
    if log == [] then None
    else
      var e := log[|log| - 1];
      if e.Tried? && e.id == id && e.verdict == Bound then Some(e.session) else LastBinding(log[..|log| - 1], id)
  }

  predicate Spent(log: seq<Event>, id: RowId) {
    exists k :: 0 <= k < |log| && log[k].Consumed? && log[k].id == id
  }

  /** An event was in order when it happened. */
  ghost predicate InOrder(before: seq<Event>, e: Event) {
    match e
    case Stored(id) => true
    case Tried(id, session, verdict) =>
      if verdict == LockedOut then Misses(before, id) == MAX_OTP_ATTEMPTS
      else Misses(before, id) < MAX_OTP_ATTEMPTS && !Spent(before, id)
    case Consumed(id, session) => LastBinding(before, id) == Some(session) && !Spent(before, id)
  }

  ghost predicate GoodLog(log: seq<Event>) {
    forall k :: 0 <= k < |log| ==> InOrder(log[..k], log[k])
  }

  // ---- the invariant -----------------------------------------------------------------------

  /** Both maps describe one relation: each host has one row and each row belongs to one host. */
  ghost predicate Indexed(s: Store) {
    && (forall host :: host in s.byHost ==>
         |s.byHost[host]| == 1 && s.byHost[host][0] in s.byId && s.byId[s.byHost[host][0]].host == host)
    && (forall id :: id in s.byId ==>
         id <= s.nextId && s.byId[id].host in s.byHost && s.byHost[s.byId[id].host] == [id])
  }

  ghost predicate RowAgrees(log: seq<Event>, id: RowId, row: Row) {
    && row.attempts == Misses(log, id) <= MAX_OTP_ATTEMPTS
    && row.session == LastBinding(log, id)
    && (row.consumedAt.Some? <==> Spent(log, id))
  }

  ghost predicate Inv(s: Store) {
    && Indexed(s)
    && (forall id :: id in s.byId ==> RowAgrees(s.log, id, s.byId[id]))
    && (forall k :: 0 <= k < |s.log| ==> s.log[k].id <= s.nextId)
    && GoodLog(s.log)
  }

  lemma AppendEvent(log: seq<Event>, e: Event)
    requires GoodLog(log) && InOrder(log, e)
    ensures GoodLog(log + [e])
  {
    forall k | 0 <= k < |log| + 1 ensures InOrder((log + [e])[..k], (log + [e])[k]) {
      assert (log + [e])[..k] == log[..k];
    }
  }

  /** What appending an event does to the reading of a row. */
  lemma AppendReading(log: seq<Event>, e: Event, id: RowId)
    ensures Misses(log + [e], id) == Misses(log, id) + if e.Tried? && e.id == id && e.verdict == Missed then 1 else 0
    ensures LastBinding(log + [e], id)
      == if e.Tried? && e.id == id && e.verdict == Bound then Some(e.session) else LastBinding(log, id)
    ensures Spent(log + [e], id) <==> Spent(log, id) || (e.Consumed? && e.id == id)
  {
    var l := log + [e];
    assert l[..|l| - 1] == log;
    if Spent(log, id) {
      var k :| 0 <= k < |log| && log[k].Consumed? && log[k].id == id;
      assert l[k] == log[k];
    }
    if e.Consumed? && e.id == id {
      assert l[|log|] == e;
    }
  }

  lemma {:induction false} UnknownRow(log: seq<Event>, id: RowId)
    requires forall k :: 0 <= k < |log| ==> log[k].id != id
    ensures Misses(log, id) == 0 && LastBinding(log, id) == None && !Spent(log, id)
  {
    if log != [] { UnknownRow(log[..|log| - 1], id); }
  }

  lemma MintKeepsInv(s: Store, host: HostId, hash: OtpHash, expiresAt: int, now: int)
    requires Inv(s)
    ensures Inv(StoreHash(s, host, hash, expiresAt, now))
  {
    var t := StoreHash(s, host, hash, expiresAt, now);
    var e := Stored(t.nextId);
    AppendEvent(s.log, e);
    UnknownRow(s.log, t.nextId);
    forall id | id in t.byId ensures RowAgrees(t.log, id, t.byId[id]) {
      AppendReading(s.log, e, id);
    }
    forall id | id in t.byId
      ensures id <= t.nextId && t.byId[id].host in t.byHost && t.byHost[t.byId[id].host] == [id]
    {
      if id != t.nextId {
        assert s.byHost[s.byId[id].host] == [id];
      }
    }
  }

  /** One row changes, and one event about it is logged. */
  lemma RowStepKeepsInv(s: Store, id: RowId, row: Row, e: Event)
    requires Inv(s) && id in s.byId && e.id == id && InOrder(s.log, e)
    requires row.host == s.byId[id].host && RowAgrees(s.log + [e], id, row)
    ensures Inv(s.(byId := s.byId[id := row], log := s.log + [e]))
  {
    AppendEvent(s.log, e);
    forall other | other in s.byId && other != id ensures RowAgrees(s.log + [e], other, s.byId[other]) {
      AppendReading(s.log, e, other);
    }
  }

  lemma StepKeepsInv(p: Primitives, s: Store, st: Step)
    requires Inv(s)
    ensures Inv(Apply(p, s, st))
  {
    match st
    case Mint(host, hash, expiresAt, now) => MintKeepsInv(s, host, hash, expiresAt, now);
    case Try(host, code, pepper, session, now) =>
      var live := LastLive(s.byId, IdsOf(s, host), now);
      if live.Some? {
        var row := s.byId[live.value];
        var verdict := Judge(p, row, code, pepper, now);
        var e := Tried(live.value, session, verdict);
        AppendReading(s.log, e, live.value);
        RowStepKeepsInv(s, live.value, Judged(row, verdict, session), e);
      }
    case Accepted(host, session, now) =>
      var bound := FirstBound(s.byId, IdsOf(s, host), session);
      if bound.Some? && s.byId[bound.value].consumedAt.None? && s.byId[bound.value].expiresAt > now {
        var e := Consumed(bound.value, session);
        AppendReading(s.log, e, bound.value);
        RowStepKeepsInv(s, bound.value, s.byId[bound.value].(consumedAt := Some(now)), e);
      }
  }

  lemma {:induction false} EveryRunKeepsInv(p: Primitives, steps: seq<Step>)
    ensures Inv(Run(p, Empty(), steps))
  {
    if steps != [] {
      EveryRunKeepsInv(p, steps[..|steps| - 1]);
      StepKeepsInv(p, Run(p, Empty(), steps[..|steps| - 1]), steps[|steps| - 1]);
    }
  }

  // ---- what follows for every run ----------------------------------------------------------

  /** Each host has at most one row, and the two maps are inverse to each other. */
  lemma HostsAndRowsMatch(p: Primitives, steps: seq<Step>, host: HostId, id: RowId)
    ensures var s := Run(p, Empty(), steps);
      (host in s.byHost && id in s.byHost[host]) <==> (id in s.byId && s.byId[id].host == host)
    ensures var s := Run(p, Empty(), steps); host in s.byHost ==> |s.byHost[host]| == 1
  {
    EveryRunKeepsInv(p, steps);
  }

  /** attempts is the number of failed tries of that row that were not lockouts, and never passes 5. */
  lemma AttemptsCountMisses(p: Primitives, steps: seq<Step>, id: RowId)
    requires id in Run(p, Empty(), steps).byId
    ensures var s := Run(p, Empty(), steps); s.byId[id].attempts == Misses(s.log, id) <= MAX_OTP_ATTEMPTS
  {
    EveryRunKeepsInv(p, steps);
  }

  /** A row is consumed at most once, for the session that bound it last, and never bound again. */
  lemma ConsumedOnceByItsLastBinder(p: Primitives, steps: seq<Step>, k: nat, j: nat)
    requires var log := Run(p, Empty(), steps).log; k < |log| && log[k].Consumed?
    ensures var log := Run(p, Empty(), steps).log;
      LastBinding(log[..k], log[k].id) == Some(log[k].session)
    ensures var log := Run(p, Empty(), steps).log;
      j < |log| && j != k && log[j].id == log[k].id ==>
        !log[j].Consumed? && !(j > k && log[j].Tried? && log[j].verdict != LockedOut)
  {
    EveryRunKeepsInv(p, steps);
    var log := Run(p, Empty(), steps).log;
    assert InOrder(log[..k], log[k]);
    if j < |log| && log[j].id == log[k].id {
      assert InOrder(log[..j], log[j]);
      if j < k {
        assert log[..k][j] == log[j];
      } else if k < j {
        assert log[..j][k] == log[k];
      }
    }
  }

  /** Five misses shut a row for good: from then on every try of it is a lockout. */
  lemma FiveMissesLockTheRow(p: Primitives, steps: seq<Step>, k: nat)
    requires var log := Run(p, Empty(), steps).log; k < |log| && log[k].Tried?
    ensures var log := Run(p, Empty(), steps).log;
      log[k].verdict == LockedOut <==> Misses(log[..k], log[k].id) >= MAX_OTP_ATTEMPTS
  {
    EveryRunKeepsInv(p, steps);
    var log := Run(p, Empty(), steps).log;
    assert InOrder(log[..k], log[k]);
  }

  /** At five misses the live row turns everyone away, with the right code too, and stays as it is. */
  lemma LockedRowRejectsEveryCode(p: Primitives, steps: seq<Step>, host: HostId, id: RowId, code: string,
                                  pepper: Bytes, session: string, now: int)
    requires var s := Run(p, Empty(), steps);
      Live(s.byId, id, now) && s.byId[id].host == host && s.byId[id].attempts == MAX_OTP_ATTEMPTS
    ensures var s := Run(p, Empty(), steps);
      var (t, r) := PrefilterBind(p, s, host, code, pepper, session, now);
      r == Reject && t.byId == s.byId && t.byHost == s.byHost
  {
    EveryRunKeepsInv(p, steps);
    LockedRowRejects(p, Run(p, Empty(), steps), host, id, code, pepper, session, now);
  }

  lemma LockedRowRejects(p: Primitives, s: Store, host: HostId, id: RowId, code: string, pepper: Bytes,
                         session: string, now: int)
    requires Indexed(s) && Live(s.byId, id, now) && s.byId[id].host == host && s.byId[id].attempts == MAX_OTP_ATTEMPTS
    ensures PrefilterBind(p, s, host, code, pepper, session, now)
      == (s.(log := s.log + [Tried(id, session, LockedOut)]), Reject)
  {
    assert IdsOf(s, host) == [id];
    assert LastLive(s.byId, [id], now) == Some(id);
    assert Judge(p, s.byId[id], code, pepper, now) == LockedOut;
    assert s.byId[id := s.byId[id]] == s.byId;
  }

  ghost predicate Admits(p: Primitives, s: Store, id: RowId, host: HostId, code: string, pepper: Bytes, now: int) {
    && id in s.byId && s.byId[id].host == host && s.byId[id].consumedAt.None?
    && s.byId[id].attempts < MAX_OTP_ATTEMPTS && Timestamp(s.byId[id].expiresAt) > Timestamp(now)
    && VerifyOtp(p, code, pepper, s.byId[id].hash).Ok?
  }

  /** Exactly when a code gets through: the host's row is unconsumed, not locked, expires in a later second
      than the present one, and the code verifies. */
  lemma AcceptedExactlyWhen(p: Primitives, steps: seq<Step>, host: HostId, code: string, pepper: Bytes,
                            session: string, now: int)
    ensures var s := Run(p, Empty(), steps);
      PrefilterBind(p, s, host, code, pepper, session, now).1 == Accept <==>
        exists id :: Admits(p, s, id, host, code, pepper, now)
  {
    EveryRunKeepsInv(p, steps);
    var s := Run(p, Empty(), steps);
    var live := LastLive(s.byId, IdsOf(s, host), now);
    if PrefilterBind(p, s, host, code, pepper, session, now).1 == Accept {
      assert Admits(p, s, live.value, host, code, pepper, now);
    }
    if id :| Admits(p, s, id, host, code, pepper, now) {
      LaterSecondIsLater(s.byId[id].expiresAt, now);
      assert s.byHost[host] == [id];
      assert Live(s.byId, id, now);
      assert live == Some(id);
    }
  }

  /** Of several rows the newest live one counts: it is listed behind every other live row. */
  lemma {:induction false} LastLiveIsNewest(byId: map<RowId, Row>, ids: seq<RowId>, now: int, k: nat)
    requires k < |ids| && Live(byId, ids[k], now)
    ensures exists j :: (
      && k <= j < |ids| && LastLive(byId, ids, now) == Some(ids[j])
      && forall i :: j < i < |ids| ==> !Live(byId, ids[i], now))
  {
    var n := |ids| - 1;
    if !Live(byId, ids[n], now) {
      LastLiveIsNewest(byId, ids[..n], now, k);
      var j :| k <= j < n && LastLive(byId, ids[..n], now) == Some(ids[..n][j])
        && forall i :: j < i < n ==> !Live(byId, ids[..n][i], now);
      assert ids[j] == ids[..n][j];
      assert forall i :: j < i < n ==> !Live(byId, ids[..n][i], now);
      assert forall i :: j < i < n ==> ids[i] == ids[..n][i];
    }
  }

  // ---- the last mint -----------------------------------------------------------------------

  /** The host's most recent mint. */
  function LastMint(steps: seq<Step>, host: HostId): (r: Option<Step>)
    ensures r.Some? ==> r.value.Mint? && r.value.host == host
  {
    if steps == [] then None
    else
      var st := steps[|steps| - 1];
      if st.Mint? && st.host == host then Some(st) else LastMint(steps[..|steps| - 1], host)
  }

  ghost predicate HoldsLastMint(s: Store, steps: seq<Step>, host: HostId) {
    var mint := LastMint(steps, host);
    if mint.None? then host !in s.byHost
    else
      && host in s.byHost && |s.byHost[host]| == 1 && s.byHost[host][0] in s.byId
      && var row := s.byId[s.byHost[host][0]]; row.hash == mint.value.hash && row.expiresAt == mint.value.expiresAt
  }

  /** Whatever happened to other hosts and to the row itself, a host's row is that of its last mint. */
  lemma {:induction false} RowIsOfTheLastMint(p: Primitives, steps: seq<Step>, host: HostId)
    ensures HoldsLastMint(Run(p, Empty(), steps), steps, host)
  {
    if steps != [] {
      var front, st := steps[..|steps| - 1], steps[|steps| - 1];
      RowIsOfTheLastMint(p, front, host);
      EveryRunKeepsInv(p, front);
      StepHoldsLastMint(p, Run(p, Empty(), front), front, st, host);
      assert front + [st] == steps;
    }
  }

  lemma StepHoldsLastMint(p: Primitives, s: Store, front: seq<Step>, st: Step, host: HostId)
    requires Inv(s) && HoldsLastMint(s, front, host)
    ensures HoldsLastMint(Apply(p, s, st), front + [st], host)
  {
    assert (front + [st])[..|front|] == front;
    if st.Mint? && st.host != host && host in s.byHost {
      var id := s.byHost[host][0];
      assert s.byHost[s.byId[id].host] == [id];
      assert id !in IdsOf(s, st.host);
    }
  }

  /** The host's row has seen fewer than five misses and was not consumed. */
  predicate Unspoilt(s: Store, host: HostId) {
    && host in s.byHost && |s.byHost[host]| == 1
    && Misses(s.log, s.byHost[host][0]) < MAX_OTP_ATTEMPTS && !Spent(s.log, s.byHost[host][0])
  }

  /** Exactly when a code gets through, told by the history alone: the host's last mint expires in a later second, its
      row has seen fewer than five misses and was not consumed, and the code verifies against the hash of that mint. */
  lemma LastMintDecides(p: Primitives, steps: seq<Step>, host: HostId, code: string, pepper: Bytes,
                        session: string, now: int)
    ensures var s := Run(p, Empty(), steps);
      PrefilterBind(p, s, host, code, pepper, session, now).1 == Accept <==>
        var mint := LastMint(steps, host);
        && mint.Some? && Timestamp(mint.value.expiresAt) > Timestamp(now)
        && VerifyOtp(p, code, pepper, mint.value.hash).Ok? && Unspoilt(s, host)
  {
    var s := Run(p, Empty(), steps);
    RowIsOfTheLastMint(p, steps, host);
    EveryRunKeepsInv(p, steps);
    AcceptedExactlyWhen(p, steps, host, code, pepper, session, now);
    if host in s.byHost {
      var id := s.byHost[host][0];
      assert s.byId[id].host == host;
      assert Admits(p, s, id, host, code, pepper, now)
        <==> PrefilterBind(p, s, host, code, pepper, session, now).1 == Accept;
    }
  }

  /** Right behind a mint, whatever went before: its code gets through up to the second of its expiry, and a code that
      does not verify against it, like that of an earlier mint, does not. */
  lemma MintedCodeGetsThrough(p: Primitives, steps: seq<Step>, host: HostId, hash: OtpHash, expiresAt: int,
                              minted: int, code: string, pepper: Bytes, session: string, now: int)
    ensures var s := Run(p, Empty(), steps + [Mint(host, hash, expiresAt, minted)]);
      PrefilterBind(p, s, host, code, pepper, session, now).1 == Accept <==>
        Timestamp(now) < Timestamp(expiresAt) && VerifyOtp(p, code, pepper, hash).Ok?
  {
    var mint := Mint(host, hash, expiresAt, minted);
    var before, s := Run(p, Empty(), steps), Run(p, Empty(), steps + [mint]);
    assert (steps + [mint])[..|steps|] == steps;
    assert s == StoreHash(before, host, hash, expiresAt, minted);
    EveryRunKeepsInv(p, steps);
    UnknownRow(before.log, s.nextId);
    AppendReading(before.log, Stored(s.nextId), s.nextId);
    LastMintDecides(p, steps + [mint], host, code, pepper, session, now);
  }

  ghost predicate Redeems(s: Store, id: RowId, host: HostId, session: string, now: int) {
    && id in s.byId && s.byId[id].host == host && LastBinding(s.log, id) == Some(session)
    && !Spent(s.log, id) && s.byId[id].expiresAt > now
  }

  /** What a consumption leaves: the row of the host carries the time of it, and nothing else changed.  A refused one
      changes nothing at all. */
  ghost predicate ConsumedOnly(s: Store, t: Store, host: HostId, session: string, now: int) {
    exists id ::
      && Redeems(s, id, host, session, now)
      && t == s.(byId := s.byId[id := s.byId[id].(consumedAt := Some(now))], log := s.log + [Consumed(id, session)])
  }

  /** Exactly when an accept consumes: the host's row was last bound by this session, was never consumed and
      has not expired. */
  lemma ConsumedExactlyWhen(p: Primitives, steps: seq<Step>, host: HostId, session: string, now: int)
    ensures var s := Run(p, Empty(), steps);
      ConsumeForSession(s, host, session, now).1 == Done <==> exists id :: Redeems(s, id, host, session, now)
    ensures var s := Run(p, Empty(), steps); var (t, r) := ConsumeForSession(s, host, session, now);
      if r == Done then ConsumedOnly(s, t, host, session, now) else t == s
  {
    EveryRunKeepsInv(p, steps);
    var s := Run(p, Empty(), steps);
    var bound := FirstBound(s.byId, IdsOf(s, host), session);
    if ConsumeForSession(s, host, session, now).1 == Done {
      assert Redeems(s, bound.value, host, session, now);
    }
    if id :| Redeems(s, id, host, session, now) {
      assert s.byHost[host] == [id];
      assert BoundTo(s.byId, id, session);
      assert bound == Some(id);
    }
  }

  lemma LaterSecondIsLater(a: int, b: int)
    requires Timestamp(a) > Timestamp(b)
    ensures a > b
  {
  }

  /** The expiry is compared twice, once to the nanosecond and once to the second.  In a row's last second the
      first comparison lets it through and the second does not: the right code is refused and counts as a miss. */
  lemma LastSecondRefusesTheRightCode(p: Primitives, code: string, pepper: Bytes, salt: Bytes)
    requires HashOtp(p, code, pepper, salt).Ok?
    ensures var mint := Mint(7, HashOtp(p, code, pepper, salt).value, 900 * SECOND + 999, 0);
      var s := Run(p, Empty(), [mint]);
      var now := 900 * SECOND + 998;
      && LastLive(s.byId, IdsOf(s, 7), now) == Some(1)
      && PrefilterBind(p, s, 7, code, pepper, "s", now).1 == Reject
      && PrefilterBind(p, s, 7, code, pepper, "s", now).0.byId[1].attempts == 1
      && PrefilterBind(p, s, 7, code, pepper, "s", 900 * SECOND - 1).1 == Accept
  {
    HashVerifiesItsCode(p, code, code, pepper, salt);
    var mint := Mint(7, HashOtp(p, code, pepper, salt).value, 900 * SECOND + 999, 0);
    assert [mint][..0] == [];
    assert Run(p, Empty(), []) == Empty();
    var s := Run(p, Empty(), [mint]);
    assert IdsOf(s, 7) == [1];
    assert LastLive(s.byId, [1], 900 * SECOND + 998) == Some(1);
    assert LastLive(s.byId, [1], 900 * SECOND - 1) == Some(1);
  }
}
