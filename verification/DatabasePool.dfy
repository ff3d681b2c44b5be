/**
 The bounded admission gate in front of the connection pool: its operations as functions of the
 gate's contents, and as the methods that change it in place.
 */
module DatabasePool {
  import opened Sequences

  /** A waiter's future. The owner of a cancelled one has not resumed yet, or it would be gone. */
  datatype Future = Pending | Granted | Failed | Cancelled

  /** Acquire calls are numbered in the order in which they start; the number names the call's waiter. */
  type Id = nat

  type Record = nat

  datatype Gate = Gate(active: int, waiters: seq<Id>, futures: map<Id, Future>, closed: bool)

  datatype Limits = Limits(limit: nat, queueLimit: nat)

  /** What the part of `acquire` before its await comes to. */
  datatype Outcome = Slot | Queued | PoolClosed | PoolCapacity

  // ---------- operations on values

  function FutureOf(g: Gate, w: Id): Future {
    if w in g.futures then g.futures[w] else Cancelled
  }

  function Acquired(c: Limits, g: Gate, w: Id): (Gate, Outcome) {
    if g.closed then (g, PoolClosed)
    else if g.active < c.limit then (g.(active := g.active + 1), Slot)
    else if |g.waiters| >= c.queueLimit then (g, PoolCapacity)
    else (g.(waiters := g.waiters + [w], futures := g.futures[w := Pending]), Queued)
  }

  /** The first waiter whose future is not done gets the slot; if there is none, the slot is free. */
  function Released(g: Gate): Gate
    decreases |g.waiters|
  {
    if g.waiters == [] then g.(active := g.active - 1)
    else
      var w := g.waiters[0];
      var rest := g.(waiters := g.waiters[1..]);
      if FutureOf(g, w) == Pending then rest.(futures := g.futures[w := Granted]) else Released(rest)
  }

  /** The handler of an exception raised at the await of waiter `w`. */
  function Aborted(g: Gate, w: Id): Gate {
    if w in g.waiters then g.(waiters := Remove(g.waiters, w))
    else if FutureOf(g, w) == Granted then Released(g)
    else g
  }

  function FailAll(ws: seq<Id>, fs: map<Id, Future>): map<Id, Future> {
    if ws == [] then fs
    else FailAll(ws[1..], if ws[0] in fs && fs[ws[0]] == Pending then fs[ws[0] := Failed] else fs)
  }

  function Closed(g: Gate): Gate {
    g.(closed := true, waiters := [], futures := FailAll(g.waiters, g.futures))
  }

  // ---------- the gate

  class Admission {
    const limits: Limits
    var active: int
    var waiters: seq<Id>
    var futures: map<Id, Future>
    var closed: bool

    function View(): Gate
      reads this
    {
      Gate(active, waiters, futures, closed)
    }

    constructor (limits: Limits)
      ensures View() == Gate(0, [], map[], false) && this.limits == limits
    {
      this.limits := limits;
      active, waiters, futures, closed := 0, [], map[], false;
    }

    /** `acquire` up to its await. */
    method Acquire(w: Id) returns (o: Outcome)
      modifies this
      ensures (View(), o) == Acquired(limits, old(View()), w)
      ensures o == PoolClosed <==> old(closed)
      ensures o == Slot <==> !old(closed) && old(active) < limits.limit
      ensures o == PoolCapacity <==> !old(closed) && old(active) >= limits.limit && |old(waiters)| >= limits.queueLimit
      ensures o == Queued <==> !old(closed) && old(active) >= limits.limit && |old(waiters)| < limits.queueLimit
      ensures closed == old(closed) && active == if o == Slot then old(active) + 1 else old(active)
      ensures waiters == if o == Queued then old(waiters) + [w] else old(waiters)
      ensures futures == if o == Queued then old(futures)[w := Pending] else old(futures)
    {
      if closed {
        return PoolClosed;
      }
      if active < limits.limit {
        active := active + 1;
        return Slot;
      }
      if |waiters| >= limits.queueLimit {
        return PoolCapacity;
      }
      futures := futures[w := Pending];
      waiters := waiters + [w];
      return Queued;
    }

    /** Hands the slot to the first waiter whose future is not done, or frees it. */
    method Release()
      modifies this
      ensures View() == Released(old(View()))
      ensures forall i, w | FirstPendingIn(old(View()), i, w) ::
        futures == old(futures)[w := Granted] && waiters == old(waiters)[i + 1..] && active == old(active) && closed == old(closed)
      ensures (forall i, w :: !FirstPendingIn(old(View()), i, w)) ==>
        futures == old(futures) && waiters == [] && active == old(active) - 1 && closed == old(closed)
    {
      ReleasedServes(View());
      while waiters != []
        invariant Released(View()) == Released(old(View()))
        decreases |waiters|
      {
        var waiter := waiters[0];
        waiters := waiters[1..];
        if waiter in futures && futures[waiter] == Pending {
          futures := futures[waiter := Granted];
          return;
        }
      }
      active := active - 1;
    }

    /** The exception handler around the await of `acquire`: a slot that was handed over is passed on, nothing else is released. */
    method Abort(w: Id)
      modifies this
      ensures View() == Aborted(old(View()), w)
      ensures w in old(waiters) ==> waiters == Remove(old(waiters), w) && futures == old(futures) && active == old(active) && closed == old(closed)
      ensures w !in old(waiters) && w in old(futures) && old(futures)[w] == Granted ==> View() == Released(old(View()))
      ensures w !in old(waiters) && !(w in old(futures) && old(futures)[w] == Granted) ==> View() == old(View())
    {
      if w in waiters {
        waiters := Remove(waiters, w);
      } else if w in futures && futures[w] == Granted {
        Release();
      }
    }

    /** Fails every queued waiter whose future is not done. */
    method Close()
      modifies this
      ensures View() == Closed(old(View()))
      ensures closed && waiters == [] && active == old(active) && futures.Keys == old(futures).Keys
      ensures forall w | w in futures ::
        futures[w] == if w in old(waiters) && old(futures)[w] == Pending then Failed else old(futures)[w]
    {
      FailAllFacts(waiters, futures);
      closed := true;
      while waiters != []
        invariant closed && active == old(active)
        invariant FailAll(waiters, futures) == FailAll(old(waiters), old(futures))
        decreases |waiters|
      {
        var waiter := waiters[0];
        waiters := waiters[1..];
        if waiter in futures && futures[waiter] == Pending {
          futures := futures[waiter := Failed];
        }
      }
    }
  }

  /** The release's hand-off, by the place of the first waiter whose future is not done. */
  lemma {:induction false} ReleasedServes(g: Gate)
    ensures forall i, w | FirstPendingIn(g, i, w) ::
      Released(g) == g.(waiters := g.waiters[i + 1..], futures := g.futures[w := Granted])
    ensures (forall i, w :: !FirstPendingIn(g, i, w)) ==> Released(g) == g.(waiters := [], active := g.active - 1)
    decreases |g.waiters|
  {
    if g.waiters != [] && FutureOf(g, g.waiters[0]) != Pending {
      var rest := g.(waiters := g.waiters[1..]);
      ReleasedServes(rest);
      forall i: nat, w: Id ensures FirstPendingIn(g, i + 1, w) <==> FirstPendingIn(rest, i, w) {
      }
      forall i: nat, w: Id | FirstPendingIn(g, i, w)
        ensures Released(g) == g.(waiters := g.waiters[i + 1..], futures := g.futures[w := Granted])
      {
        assert i > 0 && FirstPendingIn(rest, i - 1, w);
      }
      if forall i, w :: !FirstPendingIn(g, i, w) {
        forall i: nat, w: Id ensures !FirstPendingIn(rest, i, w) {
          assert !FirstPendingIn(g, i + 1, w);
        }
      }
    } else if g.waiters != [] {
      assert FirstPendingIn(g, 0, g.waiters[0]);
    }
  }

  predicate FirstPendingIn(g: Gate, i: nat, w: Id) {
    && i < |g.waiters| && g.waiters[i] == w && w in g.futures && g.futures[w] == Pending
    && forall j | 0 <= j < i :: !(g.waiters[j] in g.futures && g.futures[g.waiters[j]] == Pending)
  }

  lemma {:induction false} FailAllFacts(ws: seq<Id>, fs: map<Id, Future>)
    ensures FailAll(ws, fs).Keys == fs.Keys
    ensures forall w | w in fs :: FailAll(ws, fs)[w] == if fs[w] == Pending && w in ws then Failed else fs[w]
  {
    if ws != [] {
      FailAllFacts(ws[1..], if ws[0] in fs && fs[ws[0]] == Pending then fs[ws[0] := Failed] else fs);
    }
  }

  // ---------- the pool around it

  /** The connection arrived: it is leased, unless the gate has closed meanwhile. */
  function Connected(g: Gate, leased: set<Record>, r: Record): (set<Record>, bool) {
    if g.closed then (leased, false) else (leased + {r}, true)
  }

  /** A record comes back; only a leased one frees a slot. */
  function Returned(g: Gate, leased: set<Record>, r: Record): (Gate, set<Record>) {
    if r in leased then (Released(g), leased - {r}) else (g, leased)
  }

  class BoundedPool {
    const admission: Admission
    var leased: set<Record>

    constructor (limits: Limits)
      ensures fresh(admission) && admission.View() == Gate(0, [], map[], false) && leased == {}
      ensures admission.limits == limits
    {
      admission := new Admission(limits);
      leased := {};
    }

    method Lease(r: Record) returns (kept: bool)
      modifies this
      ensures (leased, kept) == Connected(admission.View(), old(leased), r)
      ensures kept == !admission.closed && leased == if kept then old(leased) + {r} else old(leased)
    {
      if admission.closed {
        return false;
      }
      leased := leased + {r};
      return true;
    }

    method ReturnConn(r: Record)
      modifies this, admission
      ensures (admission.View(), leased) == Returned(old(admission.View()), old(leased), r)
      ensures leased == old(leased) - {r}
      ensures admission.View() == if r in old(leased) then Released(old(admission.View())) else old(admission.View())
    {
      if r in leased {
        leased := leased - {r};
        admission.Release();
      }
    }

    method Dispose()
      modifies admission
      ensures admission.View() == Closed(old(admission.View()))
    {
      admission.Close();
    }
  }
}
