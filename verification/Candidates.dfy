/** Where local ICE candidates go.  They wait in a buffer that no attach, detach or kill clears, and leave, all of
    them, at the next queueing, under the id attached by then. */
module Candidates {
  import opened Common
  import opened ManagerModel
  import opened AgentModel
  import opened AgentProofs
  import P = ManagerProofs

  ghost predicate NoQueueing(h: seq<Event>, from: nat, to: nat) {
    forall i :: from <= i < to && i < |h| ==> !h[i].Queued?
  }

  ghost predicate HandedOverAt(h: seq<Event>, p: nat, c: Candidate) {
    p < |h| && h[p].Gathered? && c in h[p].ice
  }

  /** Candidate c was handed over at p and leaves at q, the first queueing behind p. */
  ghost predicate Leaves(h: seq<Event>, p: nat, q: nat, c: Candidate) {
    p < q < |h| && HandedOverAt(h, p, c) && h[q].Queued? && NoQueueing(h, p + 1, q)
  }

  ghost predicate WaitsFrom(h: seq<Event>, p: nat, c: Candidate) {
    HandedOverAt(h, p, c) && NoQueueing(h, p + 1, |h|)
  }

  lemma {:induction false} WaitingMeans(h: seq<Event>, c: Candidate)
    ensures c in Waiting(h) <==> exists p: nat :: WaitsFrom(h, p, c)
  {
    if h != [] {
      var n := |h| - 1;
      WaitingMeans(h[..n], c);
      if c in Waiting(h[..n]) && !h[n].Queued? {
        var p: nat :| WaitsFrom(h[..n], p, c);
        assert h[..n][p] == h[p];
        assert WaitsFrom(h, p, c);
      }
      if h[n].Gathered? && c in h[n].ice {
        assert WaitsFrom(h, n, c);
      }
      if p: nat :| WaitsFrom(h, p, c) && p < n {
        assert !h[n].Queued?;
        assert WaitsFrom(h[..n], p, c);
      }
    }
  }

  /** On every run a candidate leaves at the first queueing after it was handed over, with all others that wait, and
      at no other. */
  lemma LeavesAtTheNextQueueing(w: World, steps: seq<Step>, q: nat, c: Candidate)
    requires q < |Run(w, steps).mgr.trace| && Run(w, steps).mgr.trace[q].Queued?
    ensures var h := Run(w, steps).mgr.trace;
      c in h[q].ice <==> exists p: nat :: Leaves(h, p, q, c)
  {
    EveryRunKeepsInv(w, steps);
    GoodQueueing(Run(w, steps).mgr.trace, q, c);
  }

  lemma GoodQueueing(h: seq<Event>, q: nat, c: Candidate)
    requires GoodTrace(h) && q < |h| && h[q].Queued?
    ensures CurrentSession(h[..q]) == Some(h[q].session)
    ensures c in h[q].ice <==> exists p: nat :: Leaves(h, p, q, c)
  {
    assert InOrder(h[..q], h[q]);
    WaitingMeans(h[..q], c);
    if p: nat :| WaitsFrom(h[..q], p, c) {
      assert h[..q][p] == h[p];
      assert forall i :: p + 1 <= i < q ==> h[..q][i] == h[i];
      assert Leaves(h, p, q, c);
    }
    if p: nat :| Leaves(h, p, q, c) {
      assert h[..q][p] == h[p];
      assert WaitsFrom(h[..q], p, c);
    }
  }

  /** The tag of a candidate is the session attached when it was handed over. */
  lemma TagIsTheSession(h: seq<Event>, p: nat, c: Candidate)
    requires GoodTrace(h) && HandedOverAt(h, p, c)
    ensures c.session == CurrentSession(h[..p])
  {
    assert InOrder(h[..p], h[p]);
  }

  /** Handed over at p in another session, or in none, and then session `sid` was attached, all before any queueing
      up to q. */
  ghost predicate OutlivesItsSession(h: seq<Event>, p: nat, a: nat, q: nat, c: Candidate) {
    && Leaves(h, p, q, c) && p < a < q
    && h[a] == Attached(h[q].session) && CurrentSession(h[..p]) != Some(h[q].session)
  }

  /** Exactly when a candidate leaves under a session it was not gathered in: it was handed over after the last
      queueing before it, and then the same manager was attached to that other session. */
  lemma LeavesUnderAnotherSessionExactlyWhen(w: World, steps: seq<Step>, q: nat, c: Candidate)
    requires q < |Run(w, steps).mgr.trace| && Run(w, steps).mgr.trace[q].Queued?
    ensures var h := Run(w, steps).mgr.trace;
      (c in h[q].ice && c.session != Some(h[q].session)) <==> exists p: nat, a: nat :: OutlivesItsSession(h, p, a, q, c)
  {
    EveryRunKeepsInv(w, steps);
    ForeignExactlyWhen(Run(w, steps).mgr.trace, q, c);
  }

  lemma ForeignExactlyWhen(h: seq<Event>, q: nat, c: Candidate)
    requires GoodTrace(h) && q < |h| && h[q].Queued?
    ensures (c in h[q].ice && c.session != Some(h[q].session))
      <==> exists p: nat, a: nat :: OutlivesItsSession(h, p, a, q, c)
  {
    GoodQueueing(h, q, c);
    if c in h[q].ice && c.session != Some(h[q].session) {
      var p: nat :| Leaves(h, p, q, c);
      TagIsTheSession(h, p, c);
      var a := AttachedSince(h, p, q);
      assert OutlivesItsSession(h, p, a, q, c);
    }
    if p: nat, a: nat :| OutlivesItsSession(h, p, a, q, c) {
      TagIsTheSession(h, p, c);
    }
  }

  /** A session that is attached at q and was not at p has been attached in between. */
  lemma {:induction false} AttachedSince(h: seq<Event>, p: nat, q: nat) returns (a: nat)
    requires p <= q <= |h| && CurrentSession(h[..q]).Some? && CurrentSession(h[..p]) != CurrentSession(h[..q])
    ensures p <= a < q && h[a] == Attached(CurrentSession(h[..q]).value)
  {
    assert h[..q][..q - 1] == h[..q - 1];
    if h[q - 1].Attached? {
      a := q - 1;
    } else {
      a := AttachedSince(h, p, q - 1);
    }
  }
}
